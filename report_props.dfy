/**
 * What the report promises, proved of the section functions of `Report`:
 * the per-purpose cap of 15 with its "... and N more files" note, the fixed
 * purpose order, the import filter, entry points and architecture flags, the
 * order of the statistics, and the order and verbatim content of the
 * appendix (summarize_project.py:185-333).
 */
module ReportProperties {
  import opened Text
  import opened Wrappers
  import opened Sorting
  import opened Classifier
  import opened Extract
  import opened Records
  import opened Scan
  import opened Report

  // ---------------------------------------------------------------------------
  // Selecting the lines that start with a given prefix

  /** The lines of `lines` that start with `prefix`, in order. */
  function Starting(lines: seq<string>, prefix: string): seq<string> {
    if lines == [] then []
    else (if StartsWith(lines[0], prefix) then [lines[0]] else []) + Starting(lines[1..], prefix)
  }

  lemma {:induction false} StartingAppend(a: seq<string>, b: seq<string>, prefix: string)
    ensures Starting(a + b, prefix) == Starting(a, prefix) + Starting(b, prefix)
    decreases |a|
  {
    if a == [] {
      assert a + b == b;
    } else {
      assert (a + b)[0] == a[0];
      assert (a + b)[1..] == a[1..] + b;
      StartingAppend(a[1..], b, prefix);
    }
  }

  lemma StartingOne(l: string, prefix: string)
    ensures Starting([l], prefix) == if StartsWith(l, prefix) then [l] else []
  {
    assert [l][1..] == [];
  }

  /** A line that differs from `prefix` at a position both have does not start with it. */
  lemma NotStartingAt(l: string, prefix: string, i: nat)
    requires i < |l| && i < |prefix| && l[i] != prefix[i]
    ensures !StartsWith(l, prefix)
  {
    if |prefix| <= |l| {
      assert l[..|prefix|][i] == l[i];
    }
  }

  /** `Starting` selects nothing from lines that all differ from `prefix` at position `i`. */
  lemma {:induction false} StartingNone(lines: seq<string>, prefix: string, i: nat)
    requires i < |prefix|
    requires forall k :: 0 <= k < |lines| ==> (i < |lines[k]| && lines[k][i] != prefix[i]) || lines[k] == ""
    ensures Starting(lines, prefix) == []
    decreases |lines|
  {
    if lines != [] {
      if lines[0] != "" {
        NotStartingAt(lines[0], prefix, i);
      }
      StartingNone(lines[1..], prefix, i);
    }
  }

  // ---------------------------------------------------------------------------
  // Detail lines

  /** `KeyImports` keeps exactly the imports that do not start with "dart:", in their order. */
  lemma {:induction false} KeyImportsExactly(imports: seq<string>, x: string)
    ensures x in KeyImports(imports) <==> x in imports && !StartsWith(x, "dart:")
    ensures |KeyImports(imports)| <= |imports|
  {
    if imports != [] {
      var n := |imports| - 1;
      KeyImportsExactly(imports[..n], x);
      assert imports == imports[..n] + [imports[n]];
    }
  }

  /** Every detail line is indented by five spaces. */
  lemma DetailLinesIndented(f: FileRecord, p: Purpose)
    ensures forall k :: 0 <= k < |DetailLines(f, p)| ==>
      |DetailLines(f, p)[k]| > 5 && DetailLines(f, p)[k][..5] == "     "
  {
  }

  /** Neither the widgets line nor the classes line is a key-imports line. */
  lemma WidgetsClassesNotImports(d: DartInfo)
    ensures var w := if d.widgets != [] then ["     Widgets: " + Join(d.widgets, ", ")] else [];
      var c := if d.classes != [] then ["     Classes: " + Join(Take(d.classes, 3), ", ")] else [];
      Starting(w + c, "     Key imports: ") == []
  {
    var ki := "     Key imports: ";
    var w := if d.widgets != [] then ["     Widgets: " + Join(d.widgets, ", ")] else [];
    var c := if d.classes != [] then ["     Classes: " + Join(Take(d.classes, 3), ", ")] else [];
    StartingAppend(w, c, ki);
    if w != [] {
      assert w[0][5] == 'W';
      StartingOne(w[0], ki);
      NotStartingAt(w[0], ki, 5);
    }
    if c != [] {
      assert c[0][5] == 'C';
      StartingOne(c[0], ki);
      NotStartingAt(c[0], ki, 5);
    }
  }

  /** The key-imports line of a Dart record's details, selected by its prefix. */
  lemma DartDetailImportsLine(d: DartInfo, p: Purpose)
    ensures Starting(DartDetailLines(d, p), "     Key imports: ")
         == if d.imports != [] && p != Config && KeyImports(d.imports) != []
            then ["     Key imports: " + Join(Take(KeyImports(d.imports), 3), ", ")] else []
  {
    var ki := "     Key imports: ";
    var w := if d.widgets != [] then ["     Widgets: " + Join(d.widgets, ", ")] else [];
    var c := if d.classes != [] then ["     Classes: " + Join(Take(d.classes, 3), ", ")] else [];
    var i := if d.imports != [] && p != Config && KeyImports(d.imports) != []
             then [ki + Join(Take(KeyImports(d.imports), 3), ", ")] else [];
    assert DartDetailLines(d, p) == w + c + i;
    StartingAppend(w + c, i, ki);
    WidgetsClassesNotImports(d);
    if i != [] {
      StartingOne(i[0], ki);
      assert i[0][..|ki|] == ki;
    }
  }

  /** A config record never shows its imports. */
  lemma ConfigHidesImports(d: DartInfo)
    ensures Starting(DartDetailLines(d, Config), "     Key imports: ") == []
  {
    DartDetailImportsLine(d, Config);
  }

  /** Any other record with a non-"dart:" import shows the first three of them, and none from "dart:". */
  lemma KeyImportsShown(d: DartInfo, p: Purpose)
    requires p != Config && KeyImports(d.imports) != []
    ensures var shown := Take(KeyImports(d.imports), 3);
      && Starting(DartDetailLines(d, p), "     Key imports: ") == ["     Key imports: " + Join(shown, ", ")]
      && |shown| <= 3
      && forall k :: 0 <= k < |shown| ==> !StartsWith(shown[k], "dart:")
  {
    KeyImportsExactly(d.imports, KeyImports(d.imports)[0]);
    DartDetailImportsLine(d, p);
    var shown := Take(KeyImports(d.imports), 3);
    forall k | 0 <= k < |shown| ensures !StartsWith(shown[k], "dart:") {
      assert shown[k] in KeyImports(d.imports);
      KeyImportsExactly(d.imports, shown[k]);
    }
  }

  // ---------------------------------------------------------------------------
  // Which kind of line starts with which prefix

  lemma EmptyLineSelect(prefix: string)
    requires prefix != []
    ensures Starting([""], prefix) == []
  {
    StartingOne("", prefix);
  }

  lemma ListedLineKind(path: string)
    ensures StartsWith(ListedPrefix + path, ListedPrefix)
    ensures !StartsWith(ListedPrefix + path, MorePrefix)
    ensures !StartsWith(ListedPrefix + path, "### ")
  {
    var l := ListedPrefix + path;
    assert l[..|ListedPrefix|] == ListedPrefix;
    assert l[2] == ListedPrefix[2] == '\U{F8FF}';
    NotStartingAt(l, MorePrefix, 2);
    NotStartingAt(l, "### ", 0);
  }

  lemma NoteLineKind(n: nat)
    ensures var l := MorePrefix + NatToString(n) + " more files";
      StartsWith(l, MorePrefix) && !StartsWith(l, ListedPrefix) && !StartsWith(l, "### ")
  {
    var l := MorePrefix + NatToString(n) + " more files";
    assert l[..|MorePrefix|] == MorePrefix;
    assert l[2] == '.';
    NotStartingAt(l, ListedPrefix, 2);
    NotStartingAt(l, "### ", 0);
  }

  lemma HeaderLineKind(p: Purpose, n: nat)
    ensures var l := GroupHeader(p, n)[0];
      StartsWith(l, "### ") && !StartsWith(l, ListedPrefix) && !StartsWith(l, MorePrefix)
  {
    var l := GroupHeader(p, n)[0];
    assert l == "### " + (Upper(p.Label()) + " (" + NatToString(n) + " files)");
    assert l[..4] == "### ";
    NotStartingAt(l, ListedPrefix, 0);
    NotStartingAt(l, MorePrefix, 0);
  }

  lemma DetailLinesKind(f: FileRecord, p: Purpose)
    ensures Starting(DetailLines(f, p), ListedPrefix) == []
    ensures Starting(DetailLines(f, p), MorePrefix) == []
    ensures Starting(DetailLines(f, p), "### ") == []
  {
    DetailLinesIndented(f, p);
    var d := DetailLines(f, p);
    forall k | 0 <= k < |d| ensures 2 < |d[k]| && d[k][0] == ' ' && d[k][2] == ' ' {
      assert d[k][..5][0] == d[k][0] && d[k][..5][2] == d[k][2];
    }
    StartingNone(d, ListedPrefix, 2);
    StartingNone(d, MorePrefix, 2);
    StartingNone(d, "### ", 0);
  }

  /** The note lines select by prefix as their kind says. */
  lemma MoreNoteSelect(n: nat)
    ensures Starting(MoreNote(n), MorePrefix) == if n > 15 then [MorePrefix + NatToString(n - 15) + " more files"] else []
    ensures Starting(MoreNote(n), ListedPrefix) == []
    ensures Starting(MoreNote(n), "### ") == []
  {
    if n > 15 {
      var l := MorePrefix + NatToString(n - 15) + " more files";
      assert MoreNote(n) == [l] + [""];
      NoteLineKind(n - 15);
      StartingAppend([l], [""], MorePrefix);
      StartingAppend([l], [""], ListedPrefix);
      StartingAppend([l], [""], "### ");
      StartingOne(l, MorePrefix);
      StartingOne(l, ListedPrefix);
      StartingOne(l, "### ");
      EmptyLineSelect(MorePrefix);
      EmptyLineSelect(ListedPrefix);
      EmptyLineSelect("### ");
    }
  }

  // ---------------------------------------------------------------------------
  // The listing of one purpose

  /** The listed-file lines of records `fs`, in order. */
  function ListedLines(fs: seq<FileRecord>): seq<string> {
    if fs == [] then [] else ListedLines(fs[..|fs| - 1]) + [ListedPrefix + fs[|fs| - 1].path]
  }

  lemma EntryLinesSplit(f: FileRecord, p: Purpose, prefix: string)
    requires prefix != []
    ensures Starting(EntryLines(f, p), prefix)
         == Starting([ListedPrefix + f.path], prefix) + Starting(DetailLines(f, p), prefix)
  {
    var first := [ListedPrefix + f.path];
    var d := DetailLines(f, p);
    assert EntryLines(f, p) == first + d + [""];
    StartingAppend(first + d, [""], prefix);
    StartingAppend(first, d, prefix);
    EmptyLineSelect(prefix);
  }

  lemma EntryLinesSelect(f: FileRecord, p: Purpose)
    ensures Starting(EntryLines(f, p), ListedPrefix) == [ListedPrefix + f.path]
    ensures Starting(EntryLines(f, p), MorePrefix) == []
    ensures Starting(EntryLines(f, p), "### ") == []
  {
    EntryLinesSplit(f, p, ListedPrefix);
    EntryLinesSplit(f, p, MorePrefix);
    EntryLinesSplit(f, p, "### ");
    ListedLineKind(f.path);
    DetailLinesKind(f, p);
    StartingOne(ListedPrefix + f.path, ListedPrefix);
    StartingOne(ListedPrefix + f.path, MorePrefix);
    StartingOne(ListedPrefix + f.path, "### ");
  }

  lemma {:induction false} EntryBlocksSelect(fs: seq<FileRecord>, p: Purpose)
    ensures Starting(EntryBlocks(fs, p), ListedPrefix) == ListedLines(fs)
    ensures Starting(EntryBlocks(fs, p), MorePrefix) == []
    ensures Starting(EntryBlocks(fs, p), "### ") == []
    decreases |fs|
  {
    if fs != [] {
      var n := |fs| - 1;
      EntryBlocksSelect(fs[..n], p);
      EntryLinesSelect(fs[n], p);
      StartingAppend(EntryBlocks(fs[..n], p), EntryLines(fs[n], p), ListedPrefix);
      StartingAppend(EntryBlocks(fs[..n], p), EntryLines(fs[n], p), MorePrefix);
      StartingAppend(EntryBlocks(fs[..n], p), EntryLines(fs[n], p), "### ");
    }
  }

  lemma {:induction false} ListedLinesAt(fs: seq<FileRecord>)
    ensures |ListedLines(fs)| == |fs|
    ensures forall k :: 0 <= k < |fs| ==> ListedLines(fs)[k] == ListedPrefix + fs[k].path
  {
    if fs != [] {
      ListedLinesAt(fs[..|fs| - 1]);
    }
  }

  lemma PathLeqTotalPreorder()
    ensures TotalPreorder(PathLeq)
  {
    forall a: FileRecord, b: FileRecord ensures PathLeq(a, b) || PathLeq(b, a) {
      LexLeqTotal(a.path, b.path);
    }
    forall a: FileRecord, b: FileRecord, c: FileRecord | PathLeq(a, b) && PathLeq(b, c) ensures PathLeq(a, c) {
      LexLeqTrans(a.path, b.path, c.path);
    }
  }

  /** The lines of a non-empty group: header, its blank line, the listed entries, the note. */
  lemma GroupSectionSplit(p: Purpose, g: seq<FileRecord>, prefix: string)
    requires g != [] && prefix != []
    ensures Starting(GroupSection(p, g), prefix)
         == Starting([GroupHeader(p, |g|)[0]], prefix)
          + Starting(EntryBlocks(Take(SortBy(g, PathLeq), 15), p), prefix)
          + Starting(MoreNote(|g|), prefix)
  {
    var h := GroupHeader(p, |g|);
    var body := EntryBlocks(Take(SortBy(g, PathLeq), 15), p);
    var note := MoreNote(|g|);
    assert GroupSection(p, g) == h + body + note;
    StartingAppend(h + body, note, prefix);
    StartingAppend(h, body, prefix);
    GroupHeaderSelect(p, |g|, prefix);
  }

  lemma GroupHeaderSelect(p: Purpose, n: nat, prefix: string)
    requires prefix != []
    ensures Starting(GroupHeader(p, n), prefix) == Starting([GroupHeader(p, n)[0]], prefix)
  {
    var h := GroupHeader(p, n);
    assert h == [h[0]] + [""];
    StartingAppend([h[0]], [""], prefix);
    EmptyLineSelect(prefix);
  }

  /**
   * One purpose's listing: its files sorted by path (a permutation of the
   * group), and the first min(N, 15) of them listed one line each in that
   * order.
   */
  lemma GroupListing(p: Purpose, g: seq<FileRecord>)
    requires g != []
    ensures var sorted := SortBy(g, PathLeq);
      && SortedBy(sorted, PathLeq) && multiset(sorted) == multiset(g) && |sorted| == |g|
      && Starting(GroupSection(p, g), ListedPrefix) == ListedLines(sorted[..Min(|g|, 15)])
      && |Starting(GroupSection(p, g), ListedPrefix)| == Min(|g|, 15)
  {
    var sorted := SortBy(g, PathLeq);
    PathLeqTotalPreorder();
    SortBySorted(g, PathLeq);
    assert |sorted| == |multiset(sorted)| == |multiset(g)| == |g|;
    GroupListedLines(p, g);
    ListedLinesAt(Take(sorted, 15));
  }

  lemma GroupListedLines(p: Purpose, g: seq<FileRecord>)
    requires g != []
    ensures Starting(GroupSection(p, g), ListedPrefix) == ListedLines(Take(SortBy(g, PathLeq), 15))
  {
    var listed := Take(SortBy(g, PathLeq), 15);
    GroupSectionSplit(p, g, ListedPrefix);
    HeaderLineKind(p, |g|);
    StartingOne(GroupHeader(p, |g|)[0], ListedPrefix);
    EntryBlocksSelect(listed, p);
    MoreNoteSelect(|g|);
  }

  lemma GroupNoteLine(p: Purpose, g: seq<FileRecord>)
    requires g != []
    ensures Starting(GroupSection(p, g), MorePrefix) == Starting(MoreNote(|g|), MorePrefix)
  {
    GroupSectionSplit(p, g, MorePrefix);
    HeaderLineKind(p, |g|);
    StartingOne(GroupHeader(p, |g|)[0], MorePrefix);
    EntryBlocksSelect(Take(SortBy(g, PathLeq), 15), p);
  }

  /** A group of N files carries the note "... and {N-15} more files" exactly when N > 15. */
  lemma GroupNoteExactly(p: Purpose, g: seq<FileRecord>)
    requires g != []
    ensures Starting(GroupSection(p, g), MorePrefix)
         == (if |g| > 15 then [MorePrefix + NatToString(|g| - 15) + " more files"] else [])
  {
    GroupNoteLine(p, g);
    MoreNoteSelect(|g|);
  }

  // ---------------------------------------------------------------------------
  // The purposes in their fixed order

  /** The header line of each non-empty group, for the purposes `ps` in order. */
  function HeadersFor(ps: seq<Purpose>, files: seq<FileRecord>): seq<string> {
    if ps == [] then []
    else
      var p := ps[|ps| - 1];
      HeadersFor(ps[..|ps| - 1], files) + (if Group(files, p) != [] then [GroupHeader(p, |Group(files, p)|)[0]] else [])
  }

  lemma GroupSectionHeaders(p: Purpose, g: seq<FileRecord>)
    ensures Starting(GroupSection(p, g), "### ") == if g == [] then [] else [GroupHeader(p, |g|)[0]]
  {
    if g != [] {
      GroupSectionSplit(p, g, "### ");
      HeaderLineKind(p, |g|);
      StartingOne(GroupHeader(p, |g|)[0], "### ");
      EntryBlocksSelect(Take(SortBy(g, PathLeq), 15), p);
      MoreNoteSelect(|g|);
    }
  }

  /**
   * The structure section lists the purposes in the fixed order config,
   * model, ui, logic, service, routing, component, utility, test, other,
   * one header per non-empty group and none for an empty one.
   */
  lemma {:induction false} HeadersInPurposeOrder(ps: seq<Purpose>, files: seq<FileRecord>)
    ensures Starting(GroupSections(ps, files), "### ") == HeadersFor(ps, files)
    decreases |ps|
  {
    if ps != [] {
      var n := |ps| - 1;
      HeadersInPurposeOrder(ps[..n], files);
      StartingAppend(GroupSections(ps[..n], files), GroupSection(ps[n], Group(files, ps[n])), "### ");
      GroupSectionHeaders(ps[n], Group(files, ps[n]));
    }
  }

  /** A group holds exactly the records of its purpose. */
  lemma {:induction false} GroupMembers(files: seq<FileRecord>, p: Purpose, f: FileRecord)
    ensures f in Group(files, p) <==> f in files && f.purpose == p
  {
    if files != [] {
      var n := |files| - 1;
      GroupMembers(files[..n], p, f);
      assert files == files[..n] + [files[n]];
    }
  }

  /** The total size of the groups of the purposes `ps`. */
  function GroupSizes(ps: seq<Purpose>, files: seq<FileRecord>): nat {
    if ps == [] then 0 else GroupSizes(ps[..|ps| - 1], files) + |Group(files, ps[|ps| - 1])|
  }

  /** How often `p` occurs in `ps`. */
  function Occurrences(ps: seq<Purpose>, p: Purpose): nat {
    if ps == [] then 0 else Occurrences(ps[..|ps| - 1], p) + (if ps[|ps| - 1] == p then 1 else 0)
  }

  lemma {:induction false} GroupSizesSnoc(ps: seq<Purpose>, files: seq<FileRecord>, f: FileRecord)
    ensures GroupSizes(ps, files + [f]) == GroupSizes(ps, files) + Occurrences(ps, f.purpose)
  {
    if ps != [] {
      var n := |ps| - 1;
      GroupSizesSnoc(ps[..n], files, f);
      assert (files + [f])[..|files|] == files;
    }
  }

  lemma OccurrencesSnoc(ps: seq<Purpose>, q: Purpose, p: Purpose)
    ensures Occurrences(ps + [q], p) == Occurrences(ps, p) + (if q == p then 1 else 0)
  {
    assert (ps + [q])[..|ps|] == ps;
  }

  /** Each purpose occurs exactly once in the fixed order. */
  lemma PurposeOrderOnce(p: Purpose)
    ensures Occurrences(PurposeOrder, p) == 1
  {
    var o1 := [Config];
    var o2 := o1 + [Model];
    var o3 := o2 + [Ui];
    var o4 := o3 + [Logic];
    var o5 := o4 + [Service];
    var o6 := o5 + [Routing];
    var o7 := o6 + [Component];
    var o8 := o7 + [Utility];
    var o9 := o8 + [Test];
    assert PurposeOrder == o9 + [Other];
    OccurrencesSnoc([], Config, p);
    assert [] + [Config] == o1;
    OccurrencesSnoc(o1, Model, p);
    OccurrencesSnoc(o2, Ui, p);
    OccurrencesSnoc(o3, Logic, p);
    OccurrencesSnoc(o4, Service, p);
    OccurrencesSnoc(o5, Routing, p);
    OccurrencesSnoc(o6, Component, p);
    OccurrencesSnoc(o7, Utility, p);
    OccurrencesSnoc(o8, Test, p);
    OccurrencesSnoc(o9, Other, p);
  }

  /** No record is lost or listed twice: the groups of the ten purposes together hold every record once. */
  lemma {:induction false} GroupsPartitionRecords(files: seq<FileRecord>)
    ensures GroupSizes(PurposeOrder, files) == |files|
  {
    if files == [] {
      GroupSizesEmpty(PurposeOrder);
    } else {
      var n := |files| - 1;
      GroupsPartitionRecords(files[..n]);
      assert files == files[..n] + [files[n]];
      GroupSizesSnoc(PurposeOrder, files[..n], files[n]);
      PurposeOrderOnce(files[n].purpose);
    }
  }

  lemma {:induction false} GroupSizesEmpty(ps: seq<Purpose>)
    ensures GroupSizes(ps, []) == 0
  {
    if ps != [] {
      GroupSizesEmpty(ps[..|ps| - 1]);
    }
  }

  // ---------------------------------------------------------------------------
  // The overview

  /** The first record whose lower-cased path mentions `word` is the one `next(...)` finds. */
  lemma FirstWithPathIs(files: seq<FileRecord>, word: string, k: nat)
    requires k < |files| && Contains(Lower(files[k].path), word)
    requires forall j :: 0 <= j < k ==> !Contains(Lower(files[j].path), word)
    ensures FirstWithPath(files, word) == Some(k)
  {
  }

  /**
   * The README preview comes from the first record whose path mentions
   * "readme": its three lines are shown exactly when that record has a
   * preview, and nothing is shown when no path mentions "readme".
   */
  lemma ReadmePreviewShown(files: seq<FileRecord>, k: nat)
    requires k < |files| && Contains(Lower(files[k].path), "readme")
    requires forall j :: 0 <= j < k ==> !Contains(Lower(files[j].path), "readme")
    ensures ReadmeLines(files)
         == if files[k].preview.Some? then ["README Preview:", files[k].preview.value, ""] else []
  {
    FirstWithPathIs(files, "readme", k);
  }

  lemma NoReadmeNoPreview(files: seq<FileRecord>)
    requires forall j :: 0 <= j < |files| ==> !Contains(Lower(files[j].path), "readme")
    ensures ReadmeLines(files) == []
  {
  }

  /**
   * The app name and dependency lines come from the first record whose path
   * mentions "pubspec.yaml": the "App Name:" line is present exactly when
   * that record has YAML details with an app name, and carries that name;
   * likewise the "Key Dependencies:" line with its dependencies joined by ", ".
   */
  lemma PubspecFacts(files: seq<FileRecord>, k: nat)
    requires k < |files| && Contains(Lower(files[k].path), "pubspec.yaml")
    requires forall j :: 0 <= j < k ==> !Contains(Lower(files[j].path), "pubspec.yaml")
    ensures var d := files[k].details;
      Starting(PubspecLines(files), "App Name: ")
        == if d.Some? && d.value.Yaml? && d.value.yaml.appName.Some?
           then ["App Name: " + d.value.yaml.appName.value] else []
    ensures var d := files[k].details;
      Starting(PubspecLines(files), "Key Dependencies: ")
        == if d.Some? && d.value.Yaml? && d.value.yaml.dependencies.Some?
           then ["Key Dependencies: " + Join(d.value.yaml.dependencies.value, ", ")] else []
  {
    FirstWithPathIs(files, "pubspec.yaml", k);
    var d := files[k].details;
    if d.Some? {
      if d.value.Yaml? {
        PubspecSelect(d.value.yaml.appName, d.value.yaml.dependencies);
      } else {
        PubspecSelect(None, None);
      }
    }
  }

  lemma PubspecSelect(name: Option<string>, deps: Option<seq<string>>)
    ensures Starting(PubspecBlock(name, deps), "App Name: ")
         == if name.Some? then ["App Name: " + name.value] else []
    ensures Starting(PubspecBlock(name, deps), "Key Dependencies: ")
         == if deps.Some? then ["Key Dependencies: " + Join(deps.value, ", ")] else []
  {
    var a := if name.Some? then ["App Name: " + name.value] else [];
    var b := if deps.Some? then ["Key Dependencies: " + Join(deps.value, ", ")] else [];
    PubspecSelectFor(a, b, "App Name: ");
    PubspecSelectFor(a, b, "Key Dependencies: ");
    if name.Some? {
      assert a[0][..|"App Name: "|] == "App Name: ";
      NotStartingAt(a[0], "Key Dependencies: ", 0);
    }
    if deps.Some? {
      assert b[0][..|"Key Dependencies: "|] == "Key Dependencies: ";
      NotStartingAt(b[0], "App Name: ", 0);
    }
  }

  lemma PubspecSelectFor(a: seq<string>, b: seq<string>, prefix: string)
    requires |a| <= 1 && |b| <= 1 && prefix != []
    ensures Starting(a + b + [""], prefix)
         == (if a != [] && StartsWith(a[0], prefix) then a else [])
          + (if b != [] && StartsWith(b[0], prefix) then b else [])
  {
    StartingAppend(a + b, [""], prefix);
    StartingAppend(a, b, prefix);
    EmptyLineSelect(prefix);
    if a != [] { assert a == [a[0]]; StartingOne(a[0], prefix); }
    if b != [] { assert b == [b[0]]; StartingOne(b[0], prefix); }
  }

  lemma NoPubspecNoFacts(files: seq<FileRecord>)
    requires forall j :: 0 <= j < |files| ==> !Contains(Lower(files[j].path), "pubspec.yaml")
    ensures PubspecLines(files) == []
  {
  }

  // ---------------------------------------------------------------------------
  // Entry points and architecture flags

  /** The entry points are exactly the records whose lower-cased path mentions "main". */
  lemma {:induction false} MainLinesExactly(files: seq<FileRecord>, l: string)
    ensures l in MainLines(files) <==>
      exists k :: 0 <= k < |files| && Contains(Lower(files[k].path), "main") && l == "  " + TargetMarker + " " + files[k].path
  {
    if files != [] {
      var n := |files| - 1;
      MainLinesExactly(files[..n], l);
      assert forall k :: 0 <= k < n ==> files[..n][k] == files[k];
    }
  }

  /** Each flag line is present exactly when some record's lower-cased path mentions its keyword. */
  lemma ArchitectureFlags(files: seq<FileRecord>)
    ensures BlocLine in Architecture(files) <==> AnyPathMentions(files, "bloc")
    ensures ProviderLine in Architecture(files) <==> AnyPathMentions(files, "provider")
    ensures GetxLine in Architecture(files) <==> AnyPathMentions(files, "getx")
  {
    assert BlocLine[11] == 'B' && ProviderLine[11] == 'P' && GetxLine[11] == 'G';
    assert "## ARCHITECTURE INSIGHTS"[0] == '#';
    var a := Architecture(files);
    if BlocLine in a {
      var k :| 0 <= k < |a| && a[k] == BlocLine;
    }
    if ProviderLine in a {
      var k :| 0 <= k < |a| && a[k] == ProviderLine;
    }
    if GetxLine in a {
      var k :| 0 <= k < |a| && a[k] == GetxLine;
    }
  }

  // ---------------------------------------------------------------------------
  // Statistics

  lemma CountDescTotalPreorder()
    ensures TotalPreorder(CountDesc)
  {
  }

  lemma {:induction false} StatLinesAt(es: seq<StatEntry>)
    ensures |StatLines(es)| == |es|
    ensures forall k :: 0 <= k < |es| ==> StatLines(es)[k] == StatLine(es[k])
  {
    if es != [] {
      var n := |es| - 1;
      StatLinesAt(es[..n]);
      var init := StatLines(es[..n]);
      assert StatLines(es) == init + [StatLine(es[n])];
      forall k | 0 <= k < n ensures StatLines(es)[k] == StatLine(es[k]) {
        assert es[..n][k] == es[k];
        assert StatLines(es)[k] == init[k];
      }
    }
  }

  /**
   * The statistics list every extension of `file_stats` once, one line per
   * extension, by descending count.
   */
  lemma StatisticsByDescendingCount(stats: seq<StatEntry>)
    ensures var es := SortBy(stats, CountDesc);
      && multiset(es) == multiset(stats)
      && (forall i, j :: 0 <= i < j < |es| ==> es[i].count >= es[j].count)
      && Statistics(stats) == StatisticsHead() + StatLines(es) + [""]
      && |StatLines(es)| == |es| == |stats|
      && forall k :: 0 <= k < |es| ==> StatLines(es)[k] == "  " + es[k].ext + ": " + NatToString(es[k].count) + " files"
  {
    CountDescTotalPreorder();
    SortBySorted(stats, CountDesc);
    var es := SortBy(stats, CountDesc);
    assert |es| == |multiset(es)| == |multiset(stats)| == |stats|;
    StatLinesAt(SortBy(stats, CountDesc));
  }

  // ---------------------------------------------------------------------------
  // The appendix

  /** The appendix draws on exactly the records whose content is present and non-empty. */
  lemma {:induction false} WithContentExactly(files: seq<FileRecord>, f: FileRecord)
    ensures f in WithContent(files) <==> f in files && HasContent(f)
  {
    if files != [] {
      var n := |files| - 1;
      WithContentExactly(files[..n], f);
      assert files == files[..n] + [files[n]];
    }
  }

  lemma PriorityLeqTotalPreorder()
    ensures TotalPreorder(PriorityLeq)
  {
    forall a: FileRecord, b: FileRecord ensures PriorityLeq(a, b) || PriorityLeq(b, a) {
      LexLeqTotal(a.path, b.path);
    }
    forall a: FileRecord, b: FileRecord, c: FileRecord | PriorityLeq(a, b) && PriorityLeq(b, c)
      ensures PriorityLeq(a, c)
    {
      if Priority(a.purpose) == Priority(b.purpose) == Priority(c.purpose) {
        LexLeqTrans(a.path, b.path, c.path);
      }
    }
  }

  lemma {:induction false} ContentBlocksLength(fs: seq<FileRecord>)
    requires forall j :: 0 <= j < |fs| ==> HasContent(fs[j])
    ensures |ContentBlocks(fs)| == 9 * |fs|
  {
    if fs != [] {
      ContentBlocksLength(fs[..|fs| - 1]);
    }
  }

  lemma {:induction false} ContentBlocksAt(fs: seq<FileRecord>, k: nat)
    requires forall j :: 0 <= j < |fs| ==> HasContent(fs[j])
    requires k < |fs|
    ensures |ContentBlocks(fs)| == 9 * |fs|
    ensures ContentBlocks(fs)[9 * k + 1] == "FILE: " + fs[k].path
    ensures ContentBlocks(fs)[9 * k + 2] == "PURPOSE: " + fs[k].purpose.Label()
    ensures ContentBlocks(fs)[9 * k + 6] == fs[k].content.value
    decreases |fs|
  {
    var n := |fs| - 1;
    var init := fs[..n];
    var front := ContentBlocks(init);
    var block := ContentBlock(fs[n]);
    assert ContentBlocks(fs) == front + block;
    ContentBlocksLength(init);
    ContentBlocksLength(fs);
    if k < n {
      ContentBlocksAt(init, k);
      assert init[k] == fs[k];
      assert 9 * k + 6 < 9 * n;
    } else {
      assert 9 * k == |front|;
    }
  }

  /** In the appendix framing of any blocks, the k-th block sits after the eight head lines. */
  lemma FramedBlockAt(fs: seq<FileRecord>, k: nat)
    requires forall j :: 0 <= j < |fs| ==> HasContent(fs[j])
    requires k < |fs|
    ensures var a := AppendixHead + ContentBlocks(fs) + AppendixTail;
      && |a| == 8 + 9 * |fs| + 3
      && a[8 + 9 * k + 1] == "FILE: " + fs[k].path
      && a[8 + 9 * k + 2] == "PURPOSE: " + fs[k].purpose.Label()
      && a[8 + 9 * k + 6] == fs[k].content.value
  {
    ContentBlocksAt(fs, k);
    assert |AppendixHead| == 8 && |AppendixTail| == 3;
  }

  /** The appendix order is sorted by (purpose priority, path) and lists each record with content once. */
  lemma AppendixOrderSorted(files: seq<FileRecord>)
    ensures SortedBy(AppendixOrder(files), PriorityLeq)
    ensures multiset(AppendixOrder(files)) == multiset(WithContent(files))
  {
    PriorityLeqTotalPreorder();
    SortBySorted(WithContent(files), PriorityLeq);
  }

  /** The block of the k-th record of the appendix order names its path and purpose and holds its text. */
  lemma AppendixBlockAt(files: seq<FileRecord>, k: nat)
    requires k < |AppendixOrder(files)|
    ensures var order := AppendixOrder(files);
      && |Appendix(files)| == 8 + 9 * |order| + 3
      && Appendix(files)[8 + 9 * k + 1] == "FILE: " + order[k].path
      && Appendix(files)[8 + 9 * k + 2] == "PURPOSE: " + order[k].purpose.Label()
      && Appendix(files)[8 + 9 * k + 6] == order[k].content.value
  {
    FramedBlockAt(AppendixOrder(files), k);
  }

  /**
   * The appendix holds one block per record with content, ordered by
   * (purpose priority, path); the block of the k-th of them names its path
   * and purpose, and holds its text verbatim as one element of the summary.
   */
  lemma AppendixEmbedsVerbatim(files: seq<FileRecord>, k: nat)
    requires k < |AppendixOrder(files)|
    ensures var order := AppendixOrder(files);
      && SortedBy(order, PriorityLeq)
      && multiset(order) == multiset(WithContent(files))
      && |Appendix(files)| == 8 + 9 * |order| + 3
      && Appendix(files)[8 + 9 * k + 1] == "FILE: " + order[k].path
      && Appendix(files)[8 + 9 * k + 2] == "PURPOSE: " + order[k].purpose.Label()
      && Appendix(files)[8 + 9 * k + 6] == order[k].content.value
  {
    AppendixOrderSorted(files);
    AppendixBlockAt(files, k);
  }
}
