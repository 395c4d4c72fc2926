/**
 * `get_file_purpose` (summarize_project.py:55-78): an ordered chain of
 * substring tests over the lower-cased full path, where only the config rule
 * looks at the lower-cased file name, and the first test that holds decides.
 */
module Classifier {
  import opened Text
  import opened Paths

  datatype Purpose = Config | Model | Ui | Logic | Service | Routing | Utility | Component | Test | Other {

    /** The label the source stores in a record's 'purpose'. */
    function Label(): string {
      match this
      case Config => "config"
      case Model => "model"
      case Ui => "ui"
      case Logic => "logic"
      case Service => "service"
      case Routing => "routing"
      case Utility => "utility"
      case Component => "component"
      case Test => "test"
      case Other => "other"
    }
  }

  /** Distinct purposes have distinct labels, so grouping by label is grouping by purpose. */
  lemma LabelInjective(p: Purpose, q: Purpose)
    requires p.Label() == q.Label()
    ensures p == q
  {
    assert p.Label()[0] == q.Label()[0];
    if p.Label()[0] == 'c' {
      assert p.Label()[1] == q.Label()[1];
    }
  }

  /** Some keyword occurs in `s`. */
  predicate ContainsAny(s: string, words: seq<string>) {
    words != [] && (Contains(s, words[0]) || ContainsAny(s, words[1..]))
  }

  /** The config rule: the file name mentions "config" or is a dot-file. */
  predicate ConfigName(name: string) {
    Contains(name, "config") || StartsWith(name, ".")
  }

  /** The decision chain of `get_file_purpose`, on the lower-cased path and name. */
  function Classify(path: string, name: string): Purpose {
    if Contains(path, "test") then Test
    else if Contains(path, "model") then Model
    else if Contains(path, "view") || Contains(path, "screen") || Contains(path, "page") then Ui
    else if Contains(path, "controller") || Contains(path, "bloc") || Contains(path, "provider") then Logic
    else if Contains(path, "service") || Contains(path, "api") then Service
    else if Contains(path, "route") || Contains(path, "navigation") then Routing
    else if Contains(path, "util") || Contains(path, "helper") then Utility
    else if Contains(path, "widget") || Contains(path, "component") then Component
    else if ConfigName(name) then Config
    else Other
  }

  /** `get_file_purpose(filepath)`: lower-cases `str(filepath)`, root prefix included, and `filepath.name`. */
  function GetFilePurpose(filepath: Path): (r: Purpose)
    ensures r == Test <==> Contains(Lower(filepath.Str()), "test")
    ensures r == Config ==> ConfigName(Lower(filepath.Name()))
  {
    Classify(Lower(filepath.Str()), Lower(filepath.Name()))
  }

  // ---------------------------------------------------------------------------
  // The same classifier as an ordered table of (test, label) rules

  datatype Check = PathHasAny(words: seq<string>) | NameIsConfig

  datatype Rule = Rule(check: Check, outcome: Purpose)

  predicate Holds(c: Check, path: string, name: string) {
    match c
    case PathHasAny(words) => ContainsAny(path, words)
    case NameIsConfig => ConfigName(name)
  }

  const Rules: seq<Rule> := [
    Rule(PathHasAny(["test"]), Test),
    Rule(PathHasAny(["model"]), Model),
    Rule(PathHasAny(["view", "screen", "page"]), Ui),
    Rule(PathHasAny(["controller", "bloc", "provider"]), Logic),
    Rule(PathHasAny(["service", "api"]), Service),
    Rule(PathHasAny(["route", "navigation"]), Routing),
    Rule(PathHasAny(["util", "helper"]), Utility),
    Rule(PathHasAny(["widget", "component"]), Component),
    Rule(NameIsConfig, Config)
  ]

  /** The label of the first rule that holds, or `Other` when none does. */
  function FirstMatch(rules: seq<Rule>, path: string, name: string): (r: Purpose)
  {
    if rules == [] then Other
    else if Holds(rules[0].check, path, name) then rules[0].outcome
    else FirstMatch(rules[1..], path, name)
  }

  /** `FirstMatch` picks the earliest rule that holds; with no rule holding it is `Other`. */
  lemma {:induction false} FirstMatchEarliest(rules: seq<Rule>, path: string, name: string)
    ensures var r := FirstMatch(rules, path, name);
      || (exists k :: 0 <= k < |rules| && Holds(rules[k].check, path, name) && r == rules[k].outcome
                     && forall j :: 0 <= j < k ==> !Holds(rules[j].check, path, name))
      || (r == Other && forall j :: 0 <= j < |rules| ==> !Holds(rules[j].check, path, name))
  {
    if rules != [] && !Holds(rules[0].check, path, name) {
      FirstMatchEarliest(rules[1..], path, name);
      var r := FirstMatch(rules, path, name);
      if exists k :: 0 <= k < |rules[1..]| && Holds(rules[1..][k].check, path, name) && r == rules[1..][k].outcome
                     && forall j :: 0 <= j < k ==> !Holds(rules[1..][j].check, path, name) {
        var k :| 0 <= k < |rules[1..]| && Holds(rules[1..][k].check, path, name) && r == rules[1..][k].outcome
                 && forall j :: 0 <= j < k ==> !Holds(rules[1..][j].check, path, name);
        assert forall j :: 0 <= j < k + 1 ==> !Holds(rules[j].check, path, name) by {
          forall j | 0 <= j < k + 1 ensures !Holds(rules[j].check, path, name) {
            if j > 0 { assert rules[j] == rules[1..][j - 1]; }
          }
        }
        assert rules[k + 1] == rules[1..][k];
      } else {
        forall j | 0 <= j < |rules| ensures !Holds(rules[j].check, path, name) {
          if j > 0 { assert rules[j] == rules[1..][j - 1]; }
        }
      }
    } else if rules != [] {
      assert Holds(rules[0].check, path, name);
    }
  }

  lemma ContainsAnyOne(s: string, w: string)
    ensures ContainsAny(s, [w]) <==> Contains(s, w)
  {
    assert [w][1..] == [];
  }

  lemma ContainsAnyTwo(s: string, v: string, w: string)
    ensures ContainsAny(s, [v, w]) <==> Contains(s, v) || Contains(s, w)
  {
    assert [v, w][1..] == [w];
    ContainsAnyOne(s, w);
  }

  lemma ContainsAnyThree(s: string, u: string, v: string, w: string)
    ensures ContainsAny(s, [u, v, w]) <==> Contains(s, u) || Contains(s, v) || Contains(s, w)
  {
    assert [u, v, w][1..] == [v, w];
    ContainsAnyTwo(s, v, w);
  }

  /** One step of `FirstMatch` down a rule list. */
  lemma FirstMatchStep(rules: seq<Rule>, k: nat, path: string, name: string)
    requires k < |rules|
    ensures FirstMatch(rules[k..], path, name)
         == if Holds(rules[k].check, path, name) then rules[k].outcome else FirstMatch(rules[k + 1..], path, name)
  {
    assert rules[k..][1..] == rules[k + 1..];
  }

  /** The if/elif chain of the source and the ordered rule table classify every path alike. */
  lemma ClassifyIsFirstMatch(path: string, name: string)
    ensures Classify(path, name) == FirstMatch(Rules, path, name)
  {
    ContainsAnyOne(path, "test");
    ContainsAnyOne(path, "model");
    ContainsAnyThree(path, "view", "screen", "page");
    ContainsAnyThree(path, "controller", "bloc", "provider");
    ContainsAnyTwo(path, "service", "api");
    ContainsAnyTwo(path, "route", "navigation");
    ContainsAnyTwo(path, "util", "helper");
    ContainsAnyTwo(path, "widget", "component");
    assert Rules[0..] == Rules && Rules[9..] == [];
    FirstMatchStep(Rules, 0, path, name);
    FirstMatchStep(Rules, 1, path, name);
    FirstMatchStep(Rules, 2, path, name);
    FirstMatchStep(Rules, 3, path, name);
    FirstMatchStep(Rules, 4, path, name);
    FirstMatchStep(Rules, 5, path, name);
    FirstMatchStep(Rules, 6, path, name);
    FirstMatchStep(Rules, 7, path, name);
    FirstMatchStep(Rules, 8, path, name);
  }

  /** A path mentioning "test" is a test, whatever else it mentions ("model" included). */
  lemma TestComesFirst(filepath: Path)
    requires Contains(Lower(filepath.Str()), "test")
    ensures GetFilePurpose(filepath) == Test
  {
  }

  /**
   * The config label depends on the file name alone, and is given only when
   * none of the eight path rules before it holds anywhere in the full path: a
   * file in a "config" directory whose own name neither mentions "config" nor
   * starts with "." is not config.
   */
  lemma ConfigOnlyFromName(filepath: Path)
    ensures var path, name := Lower(filepath.Str()), Lower(filepath.Name());
      (GetFilePurpose(filepath) == Config)
        <==> ((forall j :: 0 <= j < 8 ==> !Holds(Rules[j].check, path, name)) && ConfigName(name))
  {
    var path, name := Lower(filepath.Str()), Lower(filepath.Name());
    ClassifyIsFirstMatch(path, name);
    FirstMatchEarliest(Rules, path, name);
    assert forall j :: 0 <= j < 8 ==> Rules[j].outcome != Config;
    assert Rules[8].check == NameIsConfig && Rules[8].outcome == Config;
  }

  /**
   * The full path is classified, repository root included: when the root's
   * own text mentions "test", every file under it is a test.
   */
  lemma RootPrefixClassifies(root: Path, rel: seq<string>)
    requires root.segs != [] && rel != []
    requires Contains(Lower(root.Str()), "test")
    ensures GetFilePurpose(root.Child(rel)) == Test
  {
    var full := root.Child(rel);
    var tail := "/" + Text.Join(rel, "/");
    ChildStr(root, rel);
    LowerAppend(root.Str(), tail);
    ContainsInContext([], Lower(root.Str()), Lower(tail), "test");
    assert [] + Lower(root.Str()) + Lower(tail) == Lower(full.Str());
  }

  /** `str(root / rel)` is `str(root)`, a slash, and the relative segments joined by slashes. */
  lemma ChildStr(root: Path, rel: seq<string>)
    requires root.segs != [] && rel != []
    ensures root.Child(rel).Str() == root.Str() + ("/" + Text.Join(rel, "/"))
  {
    var pre := if root.absolute then "/" else "";
    JoinAppend(root.segs, rel, "/");
    assert root.Child(rel).Str() == pre + Text.Join(root.segs, "/") + "/" + Text.Join(rel, "/");
  }

  /** Joining two non-empty lists puts one separator between their joins. */
  lemma {:induction false} JoinAppend(xs: seq<string>, ys: seq<string>, sep: string)
    requires xs != [] && ys != []
    ensures Text.Join(xs + ys, sep) == Text.Join(xs, sep) + sep + Text.Join(ys, sep)
    decreases |xs|
  {
    if |xs| == 1 {
      assert (xs + ys)[1..] == ys;
    } else {
      JoinAppend(xs[1..], ys, sep);
      assert (xs + ys)[1..] == xs[1..] + ys;
    }
  }
}
