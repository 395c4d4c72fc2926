/**
 * What `scan_directory` (summarize_project.py:170-183) computes, as
 * functions of the walk: the records it appends to `important_files` and the
 * per-extension counters of `file_stats`. The walk (`rglob('*')`) is an
 * input: one entry per filesystem entry under the root, with the entry's
 * path relative to the root, whether it is a regular file, what reading it
 * returns and the regex matches of its text.
 */
module Scan {
  import opened Text
  import opened Wrappers
  import opened Paths
  import opened Records

  datatype WalkEntry = WalkEntry(rel: seq<string>, isFile: bool, read: Option<string>, scrape: Scrape)

  /** One key and value of `file_stats`; a sequence of them is the dict in insertion order. */
  datatype StatEntry = StatEntry(ext: string, count: nat)

  /** `filepath.suffix.lower()` of the walked path `root / rel`. */
  function ExtOf(root: Path, e: WalkEntry): string {
    Lower(root.Child(e.rel).Suffix())
  }

  /** The two-stage filter: a regular file, not ignored, with a code extension or an important name. */
  predicate Counted(root: Path, e: WalkEntry) {
    var full := root.Child(e.rel);
    && e.isFile
    && !Ignored(full.Parts())
    && (ExtOf(root, e) in CodeExtensions || Lower(full.Name()) in ImportantNames)
  }

  /** An entry under an ignored path is not counted, whatever its name. */
  lemma IgnoredNotCounted(root: Path, e: WalkEntry)
    requires Ignored(root.Child(e.rel).Parts())
    ensures !Counted(root, e)
  {
  }

  // ---------------------------------------------------------------------------
  // file_stats as an insertion-ordered dict

  /** `file_stats[ext]`, 0 for a missing key as with `defaultdict(int)`. */
  function Lookup(stats: seq<StatEntry>, ext: string): nat {
    if stats == [] then 0
    else if stats[|stats| - 1].ext == ext then stats[|stats| - 1].count
    else Lookup(stats[..|stats| - 1], ext)
  }

  ghost predicate DistinctKeys(stats: seq<StatEntry>) {
    forall i, j :: 0 <= i < j < |stats| ==> stats[i].ext != stats[j].ext
  }

  /** The keys of `file_stats`. */
  function Keys(stats: seq<StatEntry>): set<string> {
    set k | 0 <= k < |stats| :: stats[k].ext
  }

  /** `file_stats[ext] += 1`: a present key is bumped in place, a new key is added last with count 1. */
  function Increment(stats: seq<StatEntry>, ext: string): (r: seq<StatEntry>)
    requires DistinctKeys(stats)
    ensures DistinctKeys(r)
    ensures Keys(r) == Keys(stats) + {ext}
    ensures Lookup(r, ext) == Lookup(stats, ext) + 1
    ensures forall x :: x != ext ==> Lookup(r, x) == Lookup(stats, x)
  {
    if stats == [] then
      Snoc([], StatEntry(ext, 1));
      assert [] + [StatEntry(ext, 1)] == [StatEntry(ext, 1)];
      [StatEntry(ext, 1)]
    else
      var n := |stats| - 1;
      var init := stats[..n];
      assert stats == init + [stats[n]];
      Snoc(init, stats[n]);
      if stats[n].ext == ext then
        LookupAbsent(init, ext);
        Snoc(init, StatEntry(ext, stats[n].count + 1));
        init + [StatEntry(ext, stats[n].count + 1)]
      else
        var front := Increment(init, ext);
        Snoc(front, stats[n]);
        front + [stats[n]]
  }

  /** What adding one entry at the end does to the keys, their distinctness and the lookups. */
  lemma Snoc(a: seq<StatEntry>, x: StatEntry)
    ensures Keys(a + [x]) == Keys(a) + {x.ext}
    ensures DistinctKeys(a) && x.ext !in Keys(a) ==> DistinctKeys(a + [x])
    ensures DistinctKeys(a + [x]) ==> DistinctKeys(a) && x.ext !in Keys(a)
    ensures forall e :: Lookup(a + [x], e) == if x.ext == e then x.count else Lookup(a, e)
  {
    var b := a + [x];
    assert b[..|a|] == a;
    assert forall k :: 0 <= k < |a| ==> b[k] == a[k];
    assert b[|a|] == x;
    if DistinctKeys(b) {
      forall k | 0 <= k < |a| ensures a[k].ext != x.ext {
        assert b[k].ext != b[|a|].ext;
      }
    }
  }

  lemma {:induction false} LookupAbsent(stats: seq<StatEntry>, ext: string)
    requires forall k :: 0 <= k < |stats| ==> stats[k].ext != ext
    ensures Lookup(stats, ext) == 0
    decreases |stats|
  {
    if stats != [] {
      LookupAbsent(stats[..|stats| - 1], ext);
    }
  }

  // ---------------------------------------------------------------------------
  // The scan, one walk entry at a time (the last entry handled last)

  /** The record `scan_directory` appends for one entry, if any. */
  function StepRecords(root: Path, includeCode: bool, maxFileSize: int, e: WalkEntry): seq<FileRecord> {
    if Counted(root, e) then
      match AnalyzeFile(root, e.rel, includeCode, maxFileSize, e.read, e.scrape)
      case Some(f) => [f]
      case None => []
    else []
  }

  /** The records appended for a whole walk, in walk order. */
  function ScannedRecords(root: Path, includeCode: bool, maxFileSize: int, walk: seq<WalkEntry>): seq<FileRecord> {
    if walk == [] then []
    else ScannedRecords(root, includeCode, maxFileSize, walk[..|walk| - 1])
         + StepRecords(root, includeCode, maxFileSize, walk[|walk| - 1])
  }

  /** `file_stats` after a walk, starting from `stats`. */
  function ScannedStats(root: Path, stats: seq<StatEntry>, walk: seq<WalkEntry>): (r: seq<StatEntry>)
    requires DistinctKeys(stats)
    ensures DistinctKeys(r)
  {
    if walk == [] then stats
    else
      var before := ScannedStats(root, stats, walk[..|walk| - 1]);
      var e := walk[|walk| - 1];
      if Counted(root, e) then Increment(before, ExtOf(root, e)) else before
  }

  /** The number of counted entries of the walk with extension `ext`. */
  function CountedWith(root: Path, walk: seq<WalkEntry>, ext: string): nat {
    if walk == [] then 0
    else CountedWith(root, walk[..|walk| - 1], ext)
         + (if Counted(root, walk[|walk| - 1]) && ExtOf(root, walk[|walk| - 1]) == ext then 1 else 0)
  }

  /** The number of counted entries of the walk. */
  function CountedAll(root: Path, walk: seq<WalkEntry>): nat {
    if walk == [] then 0
    else CountedAll(root, walk[..|walk| - 1]) + (if Counted(root, walk[|walk| - 1]) then 1 else 0)
  }

  /** `file_stats[ext]` grows by the number of counted files with that extension, whether or not they gave a record. */
  lemma {:induction false} StatsCountCounted(root: Path, stats: seq<StatEntry>, walk: seq<WalkEntry>, ext: string)
    requires DistinctKeys(stats)
    ensures Lookup(ScannedStats(root, stats, walk), ext) == Lookup(stats, ext) + CountedWith(root, walk, ext)
  {
    if walk != [] {
      StatsCountCounted(root, stats, walk[..|walk| - 1], ext);
    }
  }

  /** At most one record per counted file; fewer when some counted file is unreadable or empty. */
  lemma {:induction false} RecordsAtMostCounted(root: Path, includeCode: bool, maxFileSize: int, walk: seq<WalkEntry>)
    ensures |ScannedRecords(root, includeCode, maxFileSize, walk)| <= CountedAll(root, walk)
  {
    if walk != [] {
      RecordsAtMostCounted(root, includeCode, maxFileSize, walk[..|walk| - 1]);
    }
  }

  /**
   * Every record comes from a counted entry of the walk (a regular file that
   * no ignore pattern matches and that has a code extension or an important
   * name), and is what `analyze_file` built for it.
   */
  lemma {:induction false} RecordsComeFromCountedFiles(root: Path, includeCode: bool, maxFileSize: int,
                                                       walk: seq<WalkEntry>, f: FileRecord)
    requires f in ScannedRecords(root, includeCode, maxFileSize, walk)
    ensures exists k :: (0 <= k < |walk| && Counted(root, walk[k])
      && AnalyzeFile(root, walk[k].rel, includeCode, maxFileSize, walk[k].read, walk[k].scrape) == Some(f))
  {
    var n := |walk| - 1;
    if f in ScannedRecords(root, includeCode, maxFileSize, walk[..n]) {
      RecordsComeFromCountedFiles(root, includeCode, maxFileSize, walk[..n], f);
      var k :| 0 <= k < n && Counted(root, walk[..n][k])
        && AnalyzeFile(root, walk[..n][k].rel, includeCode, maxFileSize, walk[..n][k].read, walk[..n][k].scrape) == Some(f);
      assert walk[..n][k] == walk[k];
    } else {
      assert f in StepRecords(root, includeCode, maxFileSize, walk[n]);
    }
  }

  /**
   * Conversely, every counted entry whose text is non-empty gives a record:
   * the one `analyze_file` built for it.
   */
  lemma CountedFileGivesRecord(root: Path, includeCode: bool, maxFileSize: int, walk: seq<WalkEntry>, k: nat)
    requires k < |walk| && Counted(root, walk[k]) && walk[k].read.Some? && walk[k].read.value != ""
    ensures var r := AnalyzeFile(root, walk[k].rel, includeCode, maxFileSize, walk[k].read, walk[k].scrape);
      r.Some? && r.value in ScannedRecords(root, includeCode, maxFileSize, walk)
  {
    StepRecordsOfCounted(root, includeCode, maxFileSize, walk[k]);
    var r := AnalyzeFile(root, walk[k].rel, includeCode, maxFileSize, walk[k].read, walk[k].scrape);
    ScannedIsConcat(root, includeCode, maxFileSize, walk);
    ConcatMember(e => StepRecords(root, includeCode, maxFileSize, e), walk, k, r.value);
  }

  /** The concatenation of `f(e)` over `es`, last element last. */
  function Concat<E, R>(f: E -> seq<R>, es: seq<E>): seq<R> {
    if es == [] then [] else Concat(f, es[..|es| - 1]) + f(es[|es| - 1])
  }

  /** What one element contributes is part of the whole concatenation. */
  lemma {:induction false} ConcatMember<E, R>(f: E -> seq<R>, es: seq<E>, k: nat, x: R)
    requires k < |es| && x in f(es[k])
    ensures x in Concat(f, es)
  {
    var n := |es| - 1;
    if k < n {
      assert es[..n][k] == es[k];
      ConcatMember(f, es[..n], k, x);
    }
  }

  /** The scan's records are the concatenation of what each entry contributes. */
  lemma {:induction false} ScannedIsConcat(root: Path, includeCode: bool, maxFileSize: int, walk: seq<WalkEntry>)
    ensures ScannedRecords(root, includeCode, maxFileSize, walk)
         == Concat(e => StepRecords(root, includeCode, maxFileSize, e), walk)
  {
    if walk != [] {
      ScannedIsConcat(root, includeCode, maxFileSize, walk[..|walk| - 1]);
    }
  }

  /** A counted entry that reads as non-empty text contributes exactly its record. */
  lemma StepRecordsOfCounted(root: Path, includeCode: bool, maxFileSize: int, e: WalkEntry)
    requires Counted(root, e) && e.read.Some? && e.read.value != ""
    ensures AnalyzeFile(root, e.rel, includeCode, maxFileSize, e.read, e.scrape).Some?
    ensures StepRecords(root, includeCode, maxFileSize, e)
         == [AnalyzeFile(root, e.rel, includeCode, maxFileSize, e.read, e.scrape).value]
  {
  }

  /**
   * A counted file is counted under a code extension or under the empty key:
   * an important name either has a code extension as its suffix or has no
   * suffix at all ("model", "models").
   */
  lemma CountedKey(root: Path, e: WalkEntry)
    requires Counted(root, e)
    ensures ExtOf(root, e) == "" || ExtOf(root, e) in CodeExtensions
  {
    var n := root.Child(e.rel).Name();
    if ExtOf(root, e) !in CodeExtensions {
      var ln := Lower(n);
      assert ln in ImportantNames;
      match LastIndexOf(n, '.')
      case None =>
      case Some(i) =>
        if 0 < i < |n| - 1 {
          assert Lower(n[i..]) == ln[i..];
          ImportantSuffix(ln, i);
        }
    }
  }

  /** The text after the last dot of an important name is a code extension. */
  lemma ImportantSuffix(ln: string, i: nat)
    requires ln in ImportantNames && i < |ln| && ln[i] == '.'
    requires forall k :: i < k < |ln| ==> ln[k] != '.'
    ensures ln[i..] in CodeExtensions
  {
  }

  /**
   * A counted file that reads as empty text is counted in `file_stats` but
   * yields no record: the counters can exceed the number of records.
   */
  lemma EmptyFileCountedWithoutRecord(root: Path, includeCode: bool, maxFileSize: int, e: WalkEntry)
    requires Counted(root, e) && e.read == Some("")
    ensures ScannedRecords(root, includeCode, maxFileSize, [e]) == []
    ensures Lookup(ScannedStats(root, [], [e]), ExtOf(root, e)) == 1
  {
    assert [e][..0] == [];
  }
}
