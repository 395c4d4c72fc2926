/**
 * What `extract_dart_info`, `extract_yaml_info` and the Markdown branch of
 * `analyze_file` do with the text they scan (summarize_project.py:80-124,
 * :163-166). The regular-expression engine is not modelled: each search is an
 * input holding the matches, in text order, that `re.findall` / `re.search`
 * would return, and the model states what the code does with them.
 */
module Extract {
  import opened Text
  import opened Wrappers
  import opened Sorting

  // ---------------------------------------------------------------------------
  // Dart

  /**
   * One match of `class\s+(\w+)(?:\s+extends\s+(\w+))?`: the class name and
   * the parent group, "" when the optional `extends` part did not match (as
   * `re.findall` reports a group that took no part).
   */
  datatype ClassMatch = ClassMatch(name: string, parent: string)

  /**
   * The matches of the four Dart searches:
   * - imports: group 1 of `import\s+['"]([^'"]+)['"];?`;
   * - classes: the class-declaration search above;
   * - extensions: every `class Name extends Parent` the widget search
   *   `class\s+(\w+)\s+extends\s+(StatelessWidget|StatefulWidget)` scans,
   *   with the parent word as written, before the alternation is applied;
   * - functions: group 1 of the line-anchored function search.
   */
  datatype DartMatches = DartMatches(
    imports: seq<string>,
    classes: seq<ClassMatch>,
    extensions: seq<ClassMatch>,
    functions: seq<string>)

  /** The 'details' dict of a Dart file. */
  datatype DartInfo = DartInfo(classes: seq<string>, functions: seq<string>, imports: seq<string>, widgets: seq<string>)

  /** `f"{cls[0]}" + (f" extends {cls[1]}" if cls[1] else "")` */
  function RenderClass(c: ClassMatch): string {
    c.name + (if c.parent != "" then " extends " + c.parent else "")
  }

  /**
   * The parents the widget search accepts: the alternation is not followed
   * by a word boundary, so any parent word that begins with
   * "StatelessWidget" or "StatefulWidget" matches.
   */
  predicate IsWidgetBase(parent: string) {
    StartsWith(parent, "StatelessWidget") || StartsWith(parent, "StatefulWidget")
  }

  /** `[w[0] for w in widget_matches]`, the alternation of the widget search applied as a filter. */
  function WidgetNames(ds: seq<ClassMatch>): (r: seq<string>)
    ensures |r| <= |ds|
  {
    if ds == [] then []
    else (if IsWidgetBase(ds[0].parent) then [ds[0].name] else []) + WidgetNames(ds[1..])
  }

  /** Widgets are exactly the names declared with a widget base class, with no cap on their number. */
  lemma {:induction false} WidgetNamesExactly(ds: seq<ClassMatch>, w: string)
    ensures w in WidgetNames(ds) <==> exists k :: 0 <= k < |ds| && IsWidgetBase(ds[k].parent) && ds[k].name == w
    ensures (forall k :: 0 <= k < |ds| ==> IsWidgetBase(ds[k].parent)) ==> |WidgetNames(ds)| == |ds|
  {
    if ds != [] {
      WidgetNamesExactly(ds[1..], w);
      if exists k :: 0 <= k < |ds| && IsWidgetBase(ds[k].parent) && ds[k].name == w {
        var k :| 0 <= k < |ds| && IsWidgetBase(ds[k].parent) && ds[k].name == w;
        if k > 0 { assert ds[1..][k - 1] == ds[k]; }
      }
      if exists k :: 0 <= k < |ds[1..]| && IsWidgetBase(ds[1..][k].parent) && ds[1..][k].name == w {
        var k :| 0 <= k < |ds[1..]| && IsWidgetBase(ds[1..][k].parent) && ds[1..][k].name == w;
        assert ds[k + 1] == ds[1..][k];
      }
    }
  }

  /** `extract_dart_info`: the first 5 imports, the first 3 classes rendered, all widgets, the first 5 functions. */
  function ExtractDartInfo(m: DartMatches): (r: DartInfo)
    ensures |r.imports| == Min(|m.imports|, 5) && r.imports == m.imports[..|r.imports|]
    ensures |r.classes| == Min(|m.classes|, 3)
    ensures forall k :: 0 <= k < |r.classes| ==> r.classes[k] == RenderClass(m.classes[k])
    ensures |r.functions| == Min(|m.functions|, 5) && r.functions == m.functions[..|r.functions|]
    ensures forall w :: w in r.widgets <==>
      exists k :: 0 <= k < |m.extensions| && IsWidgetBase(m.extensions[k].parent) && m.extensions[k].name == w
  {
    var cs := Take(m.classes, 3);
    forall w ensures w in WidgetNames(m.extensions) <==>
      exists k :: 0 <= k < |m.extensions| && IsWidgetBase(m.extensions[k].parent) && m.extensions[k].name == w
    {
      WidgetNamesExactly(m.extensions, w);
    }
    DartInfo(
      classes := seq(|cs|, k requires 0 <= k < |cs| => RenderClass(cs[k])),
      functions := Take(m.functions, 5),
      imports := Take(m.imports, 5),
      widgets := WidgetNames(m.extensions))
  }

  function Min(a: nat, b: nat): nat {
    if a < b then a else b
  }

  // Reading a rendered class back

  /** A `\w+` capture: non-empty and free of the space that separates " extends ". */
  predicate IsWord(s: string) {
    s != [] && ' ' !in s
  }

  /** The position of the first `c` in `s`. */
  function IndexOf(s: string, c: char): (r: Option<nat>)
    ensures r.Some? ==> r.value < |s| && s[r.value] == c && c !in s[..r.value]
    ensures r.None? ==> c !in s
  {
    if s == [] then None
    else if s[0] == c then Some(0)
    else match IndexOf(s[1..], c)
      case Some(i) => assert s[..i + 1] == [s[0]] + s[1..][..i]; Some(i + 1)
      case None => None
  }

  /** Splits "Name extends Parent" or "Name" back into its class match. */
  function ParseClass(s: string): ClassMatch {
    match IndexOf(s, ' ')
    case None => ClassMatch(s, "")
    case Some(i) => ClassMatch(s[..i], if i + 9 <= |s| then s[i + 9..] else "")
  }

  /** A rendered class entry determines its match: rendering loses nothing. */
  lemma RenderClassRoundTrip(c: ClassMatch)
    requires IsWord(c.name) && (c.parent == "" || IsWord(c.parent))
    ensures ParseClass(RenderClass(c)) == c
  {
    var s := RenderClass(c);
    if c.parent == "" {
      assert s == c.name;
    } else {
      assert s == c.name + " extends " + c.parent;
      assert s[|c.name|] == ' ';
      assert s[..|c.name|] == c.name;
      assert IndexOf(s, ' ') == Some(|c.name|);
      assert s[|c.name| + 9..] == c.parent;
    }
  }

  // ---------------------------------------------------------------------------
  // YAML

  /**
   * The searches of a pubspec file: group 1 of the first `^name:\s*(.+)$`
   * line, if any; and, if `dependencies:(.*?)(?=\n\w+:|$)` matched, every
   * indented key `^\s+(\w+):` inside that section.
   */
  datatype YamlMatches = YamlMatches(nameValue: Option<string>, dependencyKeys: Option<seq<string>>)

  /** The 'details' dict of a YAML file; a key absent from the dict is `None`. */
  datatype YamlInfo = YamlInfo(appName: Option<string>, dependencies: Option<seq<string>>)

  /** `extract_yaml_info`: only a file whose lower-cased name mentions "pubspec" yields anything. */
  function ExtractYamlInfo(fileName: string, m: YamlMatches): (r: YamlInfo)
    ensures !Contains(Lower(fileName), "pubspec") ==> r == YamlInfo(None, None)
    ensures r.appName.Some? <==> Contains(Lower(fileName), "pubspec") && m.nameValue.Some?
    ensures r.appName.Some? ==> r.appName.value == Strip(m.nameValue.value)
    ensures r.dependencies.Some? <==> Contains(Lower(fileName), "pubspec") && m.dependencyKeys.Some?
    ensures r.dependencies.Some? ==>
      var ks := m.dependencyKeys.value;
      |r.dependencies.value| == Min(|ks|, 10) && r.dependencies.value == ks[..|r.dependencies.value|]
  {
    if Contains(Lower(fileName), "pubspec") then
      YamlInfo(
        appName := match m.nameValue case Some(v) => Some(Strip(v)) case None => None,
        dependencies := match m.dependencyKeys case Some(ks) => Some(Take(ks, 10)) case None => None)
    else YamlInfo(None, None)
  }

  /** The app name is the matched text less its surrounding whitespace, and has none left at either end. */
  lemma AppNameTrimmed(fileName: string, m: YamlMatches)
    requires ExtractYamlInfo(fileName, m).appName.Some?
    ensures var v, a := m.nameValue.value, ExtractYamlInfo(fileName, m).appName.value;
      && (exists i, j :: 0 <= i <= j <= |v| && a == v[i..j])
      && (a != [] ==> !IsSpace(a[0]) && !IsSpace(a[|a| - 1]))
      && Strip(a) == a
  {
    StripSlice(m.nameValue.value);
    StripIdempotent(m.nameValue.value);
  }

  // ---------------------------------------------------------------------------
  // Markdown

  /** `'\n'.join(content.split('\n')[:10])` */
  function MarkdownPreview(content: string): string {
    JoinChar(Take(Split(content, '\n'), 10), '\n')
  }

  /**
   * The preview is the text up to (not including) the tenth line break: a
   * prefix of the content, with at most nine line breaks, and the whole
   * content exactly when the content has fewer than ten line breaks;
   * otherwise it holds exactly nine line breaks and the content continues
   * with the tenth.
   */
  lemma MarkdownPreviewIsPrefix(content: string)
    ensures var p := MarkdownPreview(content);
      && |p| <= |content| && content[..|p|] == p
      && (p == content <==> CountChar(content, '\n') < 10)
      && CountChar(p, '\n') <= 9
      && (CountChar(content, '\n') >= 10 ==>
            |p| < |content| && content[|p|] == '\n' && CountChar(p, '\n') == 9)
  {
    var parts := Split(content, '\n');
    var p := MarkdownPreview(content);
    JoinSplit(content, '\n');
    if |parts| <= 10 {
      assert Take(parts, 10) == parts;
      assert p == content;
    } else {
      JoinCharSplitAt(parts, 10, '\n');
      assert parts[..10] == Take(parts, 10);
      assert content == p + ['\n'] + JoinChar(parts[10..], '\n');
      assert content[..|p|] == p;
      assert |p| < |content|;
      assert content[|p|] == '\n';
      JoinCharCount(parts[..10], '\n');
      assert forall k :: 0 <= k < 10 ==> parts[..10][k] == parts[k];
    }
    JoinCharCount(Take(parts, 10), '\n');
  }

  /** A join of pieces free of the separator holds one separator fewer than pieces. */
  lemma {:induction false} JoinCharCount(xs: seq<string>, c: char)
    requires forall k :: 0 <= k < |xs| ==> c !in xs[k]
    ensures xs != [] ==> CountChar(JoinChar(xs, c), c) == |xs| - 1
    ensures xs == [] ==> CountChar(JoinChar(xs, c), c) == 0
  {
    if |xs| == 1 {
      CountCharAbsent(xs[0], c);
    } else if |xs| > 1 {
      JoinCharCount(xs[1..], c);
      CountCharAbsent(xs[0], c);
      CountCharAppend(xs[0] + [c], JoinChar(xs[1..], c), c);
      CountCharAppend(xs[0], [c], c);
    }
  }

  lemma {:induction false} CountCharAbsent(s: string, c: char)
    requires c !in s
    ensures CountChar(s, c) == 0
  {
    if s != [] {
      assert s[0] != c;
      CountCharAbsent(s[1..], c);
    }
  }

  lemma {:induction false} CountCharAppend(a: string, b: string, c: char)
    ensures CountChar(a + b, c) == CountChar(a, c) + CountChar(b, c)
  {
    if a != [] {
      assert (a + b)[1..] == a[1..] + b;
      CountCharAppend(a[1..], b, c);
    } else {
      assert a + b == b;
    }
  }
}
