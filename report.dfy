/**
 * The lines `generate_summary` appends to `self.summary`
 * (summarize_project.py:185-333), section by section, as functions of the
 * records and of `file_stats`. Sequences that the source builds in a loop are
 * defined here last element last, the order in which the loop appends them.
 *
 * The three non-ASCII markers are the characters the source text holds: the
 * file and entry-point markers each start with U+F8FF and the bullet is
 * U+201A U+00C4 U+00A2.
 */
module Report {
  import opened Text
  import opened Wrappers
  import opened Sorting
  import opened Classifier
  import opened Extract
  import opened Records
  import opened Scan

  const Rule80: string := Repeat('=', 80)
  const Dash80: string := Repeat('-', 80)

  /** Marker before each listed file. */
  const FileMarker: string := "\U{F8FF}\U{FC}\U{EC}\U{D1}"
  /** Marker before each entry point. */
  const TargetMarker: string := "\U{F8FF}\U{FC}\U{E9}\U{D8}"
  /** Bullet before each architecture flag. */
  const Bullet: string := "\U{201A}\U{C4}\U{A2}"

  /** The start of a listed-file line of the structure section. */
  const ListedPrefix: string := "  " + FileMarker + " "
  /** The start of the "... and N more files" note. */
  const MorePrefix: string := "  ... and "

  // ---------------------------------------------------------------------------
  // Header and overview

  const Banner: seq<string> :=
    [Rule80, "PROJECT SUMMARY FOR LLM UNDERSTANDING", Rule80, "", "## PROJECT OVERVIEW", ""]

  /** `next((f for f in files if word in f['path'].lower()), None)`, as an index. */
  function FirstWithPath(files: seq<FileRecord>, word: string): (r: Option<nat>)
    ensures r.Some? ==> r.value < |files| && Contains(Lower(files[r.value].path), word)
    ensures r.Some? ==> forall j :: 0 <= j < r.value ==> !Contains(Lower(files[j].path), word)
    ensures r.None? ==> forall j :: 0 <= j < |files| ==> !Contains(Lower(files[j].path), word)
  {
    if files == [] then None
    else if Contains(Lower(files[0].path), word) then Some(0)
    else match FirstWithPath(files[1..], word)
      case Some(i) =>
        assert forall j :: 1 <= j <= i ==> files[j] == files[1..][j - 1];
        Some(i + 1)
      case None =>
        assert forall j :: 1 <= j < |files| ==> files[j] == files[1..][j - 1];
        None
  }

  /** The README preview, from the first record whose path mentions "readme", when that record has a preview. */
  function ReadmeLines(files: seq<FileRecord>): (r: seq<string>)
    ensures r == [] || (|r| == 3 && r[0] == "README Preview:" && r[2] == "")
    ensures r != [] ==>
      exists k :: 0 <= k < |files| && Contains(Lower(files[k].path), "readme") && files[k].preview == Some(r[1])
  {
    match FirstWithPath(files, "readme")
    case Some(k) =>
      (match files[k].preview
       case Some(p) => ["README Preview:", p, ""]
       case None => [])
    case None => []
  }

  /** The app-name and dependency lines of a pubspec record, and the blank line after them. */
  function PubspecBlock(name: Option<string>, deps: Option<seq<string>>): seq<string> {
    (if name.Some? then ["App Name: " + name.value] else [])
    + (if deps.Some? then ["Key Dependencies: " + Join(deps.value, ", ")] else [])
    + [""]
  }

  /** App name and dependencies, from the first record whose path mentions "pubspec.yaml", when it has details. */
  function PubspecLines(files: seq<FileRecord>): (r: seq<string>)
    ensures |r| <= 3 && (r != [] ==> r[|r| - 1] == "")
    ensures r != [] ==>
      exists k :: 0 <= k < |files| && Contains(Lower(files[k].path), "pubspec.yaml") && files[k].details.Some?
  {
    match FirstWithPath(files, "pubspec.yaml")
    case Some(k) =>
      (match files[k].details
       case Some(Yaml(y)) => PubspecBlock(y.appName, y.dependencies)
       case Some(Dart(_)) => PubspecBlock(None, None)
       case None => [])
    case None => []
  }

  function Overview(files: seq<FileRecord>): seq<string> {
    Banner + ReadmeLines(files) + PubspecLines(files)
  }

  // ---------------------------------------------------------------------------
  // File statistics

  /** The key order of `sorted(..., key=lambda x: x[1], reverse=True)`: larger counts first. */
  predicate CountDesc(a: StatEntry, b: StatEntry) {
    a.count >= b.count
  }

  function StatLine(e: StatEntry): string {
    "  " + e.ext + ": " + NatToString(e.count) + " files"
  }

  function StatLines(es: seq<StatEntry>): seq<string> {
    if es == [] then [] else StatLines(es[..|es| - 1]) + [StatLine(es[|es| - 1])]
  }

  function StatisticsHead(): seq<string> {
    ["## FILE STATISTICS", ""]
  }

  function Statistics(stats: seq<StatEntry>): seq<string> {
    StatisticsHead() + StatLines(SortBy(stats, CountDesc)) + [""]
  }

  // ---------------------------------------------------------------------------
  // Project structure by purpose

  /** `purpose_order` */
  const PurposeOrder: seq<Purpose> := [Config, Model, Ui, Logic, Service, Routing, Component, Utility, Test, Other]

  /** `files_by_purpose[p]`: the records of purpose `p`, in scan order. */
  function Group(files: seq<FileRecord>, p: Purpose): seq<FileRecord> {
    if files == [] then []
    else Group(files[..|files| - 1], p) + (if files[|files| - 1].purpose == p then [files[|files| - 1]] else [])
  }

  /** The key order of `sorted(files, key=lambda x: x['path'])`. */
  predicate PathLeq(a: FileRecord, b: FileRecord) {
    LexLeq(a.path, b.path)
  }

  /** `[imp for imp in imports if not imp.startswith('dart:')]` */
  function KeyImports(imports: seq<string>): seq<string> {
    if imports == [] then []
    else KeyImports(imports[..|imports| - 1])
         + (if StartsWith(imports[|imports| - 1], "dart:") then [] else [imports[|imports| - 1]])
  }

  /** The summary lines of a record's details; YAML details have none of the three keys. */
  function DetailLines(f: FileRecord, p: Purpose): seq<string> {
    match f.details
    case Some(Dart(d)) => DartDetailLines(d, p)
    case _ => []
  }

  /** The widgets, the first three classes and, outside config, the first three imports not from "dart:". */
  function DartDetailLines(d: DartInfo, p: Purpose): seq<string> {
    (if d.widgets != [] then ["     Widgets: " + Join(d.widgets, ", ")] else [])
    + (if d.classes != [] then ["     Classes: " + Join(Take(d.classes, 3), ", ")] else [])
    + (if d.imports != [] && p != Config && KeyImports(d.imports) != []
       then ["     Key imports: " + Join(Take(KeyImports(d.imports), 3), ", ")] else [])
  }

  /** The lines of one listed file. */
  function EntryLines(f: FileRecord, p: Purpose): seq<string> {
    [ListedPrefix + f.path] + DetailLines(f, p) + [""]
  }

  function EntryBlocks(fs: seq<FileRecord>, p: Purpose): seq<string> {
    if fs == [] then [] else EntryBlocks(fs[..|fs| - 1], p) + EntryLines(fs[|fs| - 1], p)
  }

  function GroupHeader(p: Purpose, n: nat): seq<string> {
    ["### " + Upper(p.Label()) + " (" + NatToString(n) + " files)", ""]
  }

  function MoreNote(n: nat): seq<string> {
    if n > 15 then [MorePrefix + NatToString(n - 15) + " more files", ""] else []
  }

  /** One purpose: nothing for an empty group; else a header, the first 15 records by path, and a note for the rest. */
  function GroupSection(p: Purpose, g: seq<FileRecord>): seq<string> {
    if g == [] then []
    else GroupHeader(p, |g|) + EntryBlocks(Take(SortBy(g, PathLeq), 15), p) + MoreNote(|g|)
  }

  function GroupSections(ps: seq<Purpose>, files: seq<FileRecord>): seq<string> {
    if ps == [] then []
    else GroupSections(ps[..|ps| - 1], files) + GroupSection(ps[|ps| - 1], Group(files, ps[|ps| - 1]))
  }

  function StructureHead(): seq<string> {
    ["## PROJECT STRUCTURE BY PURPOSE", ""]
  }

  function Structure(files: seq<FileRecord>): seq<string> {
    StructureHead() + GroupSections(PurposeOrder, files)
  }

  // ---------------------------------------------------------------------------
  // Entry points, architecture flags, guidance

  function MainLines(files: seq<FileRecord>): seq<string> {
    if files == [] then []
    else
      var f := files[|files| - 1];
      MainLines(files[..|files| - 1]) + (if Contains(Lower(f.path), "main") then ["  " + TargetMarker + " " + f.path] else [])
  }

  function EntryPointsHead(): seq<string> {
    ["## KEY ENTRY POINTS", ""]
  }

  function EntryPoints(files: seq<FileRecord>): seq<string> {
    EntryPointsHead() + MainLines(files) + [""]
  }

  /** `any(word in f['path'].lower() for f in files)` */
  predicate AnyPathMentions(files: seq<FileRecord>, word: string) {
    exists k :: 0 <= k < |files| && Contains(Lower(files[k].path), word)
  }

  const BlocLine: string := "  " + Bullet + " Uses BLoC pattern for state management"
  const ProviderLine: string := "  " + Bullet + " Uses Provider for state management"
  const GetxLine: string := "  " + Bullet + " Uses GetX for state management"

  function Architecture(files: seq<FileRecord>): seq<string> {
    ["## ARCHITECTURE INSIGHTS", ""]
    + (if AnyPathMentions(files, "bloc") then [BlocLine] else [])
    + (if AnyPathMentions(files, "provider") then [ProviderLine] else [])
    + (if AnyPathMentions(files, "getx") then [GetxLine] else [])
    + [""]
  }

  const Guidance: seq<string> := [
    "## GUIDANCE FOR NEW DEVELOPERS",
    "",
    "1. Start by reading the main entry point (usually lib/main.dart)",
    "2. Review models to understand data structures",
    "3. Check routing/navigation to understand app flow",
    "4. Look at services to understand external integrations",
    "5. Examine UI files to see how screens are built",
    "",
    Rule80,
    ""
  ]

  // ---------------------------------------------------------------------------
  // Complete code content

  /** `purpose_priority`; every purpose has an entry, so the default 99 is never used. */
  function Priority(p: Purpose): nat {
    match p
    case Config => 0
    case Model => 1
    case Routing => 2
    case Service => 3
    case Logic => 4
    case Ui => 5
    case Component => 6
    case Utility => 7
    case Test => 8
    case Other => 9
  }

  /** The key order of `sorted(..., key=lambda x: (purpose_priority[x['purpose']], x['path']))`. */
  predicate PriorityLeq(a: FileRecord, b: FileRecord) {
    Priority(a.purpose) < Priority(b.purpose) || (Priority(a.purpose) == Priority(b.purpose) && LexLeq(a.path, b.path))
  }

  /** `f.get('content')` is truthy: present and non-empty. */
  predicate HasContent(f: FileRecord) {
    f.content.Some? && f.content.value != ""
  }

  /** `[f for f in files if f.get('content')]` */
  function WithContent(files: seq<FileRecord>): seq<FileRecord> {
    if files == [] then []
    else WithContent(files[..|files| - 1]) + (if HasContent(files[|files| - 1]) then [files[|files| - 1]] else [])
  }

  /** The nine lines of one embedded file; the seventh is the file's text, as one element. */
  function ContentBlock(f: FileRecord): seq<string>
    requires HasContent(f)
  {
    [Dash80, "FILE: " + f.path, "PURPOSE: " + f.purpose.Label(), "LINES: " + NatToString(f.lines), Dash80, "",
     f.content.value, "", ""]
  }

  function ContentBlocks(fs: seq<FileRecord>): seq<string>
    requires forall k :: 0 <= k < |fs| ==> HasContent(fs[k])
  {
    if fs == [] then [] else ContentBlocks(fs[..|fs| - 1]) + ContentBlock(fs[|fs| - 1])
  }

  const AppendixHead: seq<string> := [
    "", Rule80, "COMPLETE CODE CONTENT", Rule80, "",
    "Below is the complete content of all important files.",
    "This allows LLMs to understand the exact implementation.",
    ""
  ]

  const AppendixTail: seq<string> := [Rule80, "END OF CODE CONTENT", Rule80]

  lemma {:induction false} WithContentHasContent(files: seq<FileRecord>)
    ensures forall k :: 0 <= k < |WithContent(files)| ==> HasContent(WithContent(files)[k])
  {
    if files != [] {
      WithContentHasContent(files[..|files| - 1]);
    }
  }

  /** The records with content, by purpose priority and then path. */
  function AppendixOrder(files: seq<FileRecord>): (r: seq<FileRecord>)
    ensures forall k :: 0 <= k < |r| ==> HasContent(r[k])
  {
    WithContentHasContent(files);
    var r := SortBy(WithContent(files), PriorityLeq);
    forall k | 0 <= k < |r| ensures HasContent(r[k]) {
      assert r[k] in multiset(WithContent(files));
    }
    r
  }

  function Appendix(files: seq<FileRecord>): seq<string> {
    AppendixHead + ContentBlocks(AppendixOrder(files)) + AppendixTail
  }

  // ---------------------------------------------------------------------------
  // The whole report

  /** Everything `generate_summary` appends, in order. */
  function Summary(includeCode: bool, files: seq<FileRecord>, stats: seq<StatEntry>): seq<string> {
    Overview(files) + Statistics(stats) + Structure(files) + EntryPoints(files) + Architecture(files) + Guidance
    + (if includeCode then Appendix(files) else [])
  }
}
