/**
 * The part of `pathlib.Path` the summarizer uses: `parts`, `str()`, `name`,
 * `suffix`, joining a relative path onto the repository root, and the
 * ignore-pattern test of `should_ignore` (summarize_project.py:47-53).
 */
module Paths {
  import opened Text
  import opened Wrappers

  /**
   * A POSIX path: whether it is anchored at "/", and its segments. Pathlib
   * never keeps an empty segment, a "." segment or a segment holding "/".
   */
  datatype Path = Path(absolute: bool, segs: seq<string>) {

    ghost predicate WellFormed() {
      forall k :: 0 <= k < |segs| ==> segs[k] != "" && segs[k] != "." && '/' !in segs[k]
    }

    /** `path.parts`: the anchor "/" (for an absolute path) followed by the segments. */
    function Parts(): (r: seq<string>)
      ensures |r| == |segs| + (if absolute then 1 else 0)
    {
      (if absolute then ["/"] else []) + segs
    }

    /** `str(path)` */
    function Str(): string {
      if !absolute && segs == [] then "."
      else (if absolute then "/" else "") + Text.Join(segs, "/")
    }

    /** `path.name`: the last segment, or "" for a bare anchor. */
    function Name(): string {
      if segs == [] then "" else segs[|segs| - 1]
    }

    /**
     * `path.suffix`: from the last "." of the name, provided that dot is
     * neither the first nor the last character of the name; otherwise "".
     */
    function Suffix(): string {
      var n := Name();
      match LastIndexOf(n, '.')
      case Some(i) => if 0 < i < |n| - 1 then n[i..] else ""
      case None => ""
    }

    /** `root / rel`, as `rglob` yields the files under `root`. */
    function Child(rel: seq<string>): (r: Path)
      ensures r.Parts() == Parts() + rel
    {
      Path(absolute, segs + rel)
    }
  }

  /** `s.rfind(c)`, with `None` for -1. */
  function LastIndexOf(s: string, c: char): (r: Option<nat>)
    ensures r.Some? ==> r.value < |s| && s[r.value] == c && forall k :: r.value < k < |s| ==> s[k] != c
    ensures r.None? ==> c !in s
  {
    if s == [] then None
    else if s[|s| - 1] == c then Some(|s| - 1)
    else LastIndexOf(s[..|s| - 1], c)
  }

  /** A suffix is empty or a dot followed by at least one non-dot character, and it ends the name after a non-empty stem. */
  lemma SuffixShape(p: Path)
    ensures var x := p.Suffix(); var n := p.Name();
      x == "" || (|x| >= 2 && x[0] == '.' && '.' !in x[1..] && |x| < |n| && n[|n| - |x|..] == x)
  {
  }

  // ---------------------------------------------------------------------------
  // should_ignore

  /** `ignore_patterns`, in the order the source lists them. */
  const IgnorePatterns: seq<string> := [
    ".git", "node_modules", ".dart_tool", "build", ".idea",
    "__pycache__", "venv", ".env", "dist", "coverage",
    ".gradle", ".vscode", "ios/Pods", "android/build",
    "generated", ".metadata", ".flutter-plugins"
  ]

  /** The patterns that hold no "/" and so can equal a single path segment. */
  const SegmentPatterns: seq<string> := [
    ".git", "node_modules", ".dart_tool", "build", ".idea",
    "__pycache__", "venv", ".env", "dist", "coverage",
    ".gradle", ".vscode",
    "generated", ".metadata", ".flutter-plugins"
  ]

  /** The specification of `should_ignore`: some ignore pattern is equal to some element of `parts`. */
  predicate Ignored(parts: seq<string>) {
    exists k :: 0 <= k < |IgnorePatterns| && IgnorePatterns[k] in parts
  }

  /**
   * "ios/Pods" and "android/build" never fire: a path's parts are the anchor
   * "/" and segments without "/", so a path is ignored exactly when one of its
   * segments is one of the other fifteen patterns. Matching is whole-segment:
   * a segment "rebuild" is not "build".
   */
  lemma SlashPatternsNeverMatch(p: Path)
    requires p.WellFormed()
    ensures Ignored(p.Parts()) <==> exists k :: 0 <= k < |p.segs| && p.segs[k] in SegmentPatterns
  {
    if Ignored(p.Parts()) {
      IgnoredHasSegment(p);
    }
    if exists k :: 0 <= k < |p.segs| && p.segs[k] in SegmentPatterns {
      var k :| 0 <= k < |p.segs| && p.segs[k] in SegmentPatterns;
      SegmentIsIgnored(p, k);
    }
  }

  lemma IgnoredHasSegment(p: Path)
    requires p.WellFormed() && Ignored(p.Parts())
    ensures exists k :: 0 <= k < |p.segs| && p.segs[k] in SegmentPatterns
  {
    var parts := p.Parts();
    var k :| 0 <= k < |IgnorePatterns| && IgnorePatterns[k] in parts;
    assert IgnorePatterns[k] != "/";
    var m :| 0 <= m < |parts| && parts[m] == IgnorePatterns[k];
    var j := if p.absolute then m - 1 else m;
    assert p.segs[j] == IgnorePatterns[k];
    assert "ios/Pods"[3] == '/' && "android/build"[7] == '/';
    assert IgnorePatterns[k] != "ios/Pods" && IgnorePatterns[k] != "android/build";
    assert p.segs[j] in SegmentPatterns;
  }

  lemma SegmentIsIgnored(p: Path, k: nat)
    requires k < |p.segs| && p.segs[k] in SegmentPatterns
    ensures Ignored(p.Parts())
  {
    var parts := p.Parts();
    var m :| 0 <= m < |SegmentPatterns| && SegmentPatterns[m] == p.segs[k];
    var j := if m < 12 then m else m + 2;
    assert IgnorePatterns[j] == p.segs[k];
    assert parts[k + |parts| - |p.segs|] == p.segs[k];
  }
}
