/**
 * The `ProjectSummarizer` object (summarize_project.py:13-333): its state is
 * the report being built (`summary`), the per-extension counters
 * (`file_stats`) and the records of the important files (`important_files`);
 * `scan_directory` fills the last two and `generate_summary` appends to the
 * first. Each method is proved against the functions of `Scan` and `Report`.
 */
module Summarizer {
  import opened Text
  import opened Wrappers
  import opened Sorting
  import opened Paths
  import opened Classifier
  import opened Extract
  import opened Records
  import opened Scan
  import opened Report

  /** Regrouping the pieces appended one after another. */
  lemma AppendAssoc<T>(a: seq<T>, b: seq<T>, c: seq<T>, d: seq<T>)
    ensures a + b + c + d == a + (b + c + d)
  {
  }

  lemma AppendAssoc3<T>(a: seq<T>, b: seq<T>, c: seq<T>)
    ensures a + b + c == a + (b + c)
  {
  }

  class ProjectSummarizer {
    const repoPath: Path
    const includeCode: bool
    /** Maximum number of characters of a file whose text is embedded. */
    const maxFileSize: int

    var summary: seq<string>
    /** `file_stats`, a dict in insertion order. */
    var fileStats: seq<StatEntry>
    var importantFiles: seq<FileRecord>

    /** `file_stats` has each extension at most once. */
    ghost predicate Valid()
      reads this
    {
      DistinctKeys(fileStats)
    }

    constructor (repoPath: Path, includeCode: bool, maxFileSize: int)
      ensures this.repoPath == repoPath && this.includeCode == includeCode && this.maxFileSize == maxFileSize
      ensures summary == [] && fileStats == [] && importantFiles == []
      ensures Valid()
    {
      this.repoPath := repoPath;
      this.includeCode := includeCode;
      this.maxFileSize := maxFileSize;
      summary := [];
      fileStats := [];
      importantFiles := [];
    }

    /** `should_ignore`: some ignore pattern is one of the path's parts. */
    method ShouldIgnore(path: Path) returns (ignored: bool)
      ensures ignored == Ignored(path.Parts())
    {
      var parts := path.Parts();
      for i := 0 to |IgnorePatterns|
        invariant forall j :: 0 <= j < i ==> IgnorePatterns[j] !in parts
      {
        if IgnorePatterns[i] in parts {
          return true;
        }
      }
      return false;
    }

    /**
     * `scan_directory` over the walk `walk`: every counted file bumps the
     * counter of its extension, and every counted file that reads as
     * non-empty text adds its record, in walk order.
     */
    method ScanDirectory(walk: seq<WalkEntry>)
      requires Valid()
      modifies this`fileStats, this`importantFiles
      ensures Valid()
      ensures importantFiles == old(importantFiles) + ScannedRecords(repoPath, includeCode, maxFileSize, walk)
      ensures fileStats == ScannedStats(repoPath, old(fileStats), walk)
    {
      for i := 0 to |walk|
        invariant DistinctKeys(fileStats)
        invariant importantFiles == old(importantFiles) + ScannedRecords(repoPath, includeCode, maxFileSize, walk[..i])
        invariant fileStats == ScannedStats(repoPath, old(fileStats), walk[..i])
      {
        var e := walk[i];
        assert walk[..i + 1][..i] == walk[..i] && walk[..i + 1][i] == e;
        ScanEntry(e);
        AppendAssoc3(old(importantFiles), ScannedRecords(repoPath, includeCode, maxFileSize, walk[..i]),
                     StepRecords(repoPath, includeCode, maxFileSize, e));
      }
      assert walk[..|walk|] == walk;
    }

    /** The body of the walk loop for one entry: count it and record it when it passes the two-stage filter. */
    method ScanEntry(e: WalkEntry)
      requires DistinctKeys(fileStats)
      modifies this`fileStats, this`importantFiles
      ensures DistinctKeys(fileStats)
      ensures importantFiles == old(importantFiles) + StepRecords(repoPath, includeCode, maxFileSize, e)
      ensures fileStats == if Counted(repoPath, e) then Increment(old(fileStats), ExtOf(repoPath, e)) else old(fileStats)
    {
      var filepath := repoPath.Child(e.rel);
      if e.isFile {
        var ignored := ShouldIgnore(filepath);
        if ignored {
          IgnoredNotCounted(repoPath, e);
          return;
        }
        var ext := Lower(filepath.Suffix());
        if ext in CodeExtensions || Lower(filepath.Name()) in ImportantNames {
          fileStats := Increment(fileStats, ext);
          var fileInfo := AnalyzeFile(repoPath, e.rel, includeCode, maxFileSize, e.read, e.scrape);
          if fileInfo.Some? {
            importantFiles := importantFiles + [fileInfo.value];
          }
        }
      }
    }

    /**
     * `generate_summary`: appends the overview, the statistics, the
     * structure by purpose, the entry points, the architecture flags, the
     * guidance and, when code is included, the appendix.
     */
    method GenerateSummary()
      modifies this`summary
      ensures summary == old(summary) + Summary(includeCode, importantFiles, fileStats)
    {
      ghost var s0 := summary;
      ghost var shown := Overview(importantFiles);
      summary := summary + Overview(importantFiles);
      AppendStatistics();
      AppendAssoc3(s0, shown, Statistics(fileStats));
      shown := shown + Statistics(fileStats);
      AppendStructure();
      AppendAssoc3(s0, shown, Structure(importantFiles));
      shown := shown + Structure(importantFiles);
      AppendEntryPoints();
      AppendAssoc3(s0, shown, EntryPoints(importantFiles));
      shown := shown + EntryPoints(importantFiles);
      AppendArchitecture();
      AppendAssoc3(s0, shown, Architecture(importantFiles));
      shown := shown + Architecture(importantFiles);
      summary := summary + Guidance;
      AppendAssoc3(s0, shown, Guidance);
      shown := shown + Guidance;
      if includeCode {
        AppendCodeContent();
        AppendAssoc3(s0, shown, Appendix(importantFiles));
      } else {
        assert shown + [] == shown;
      }
    }

    /** The statistics lines, one per extension by descending count. */
    method AppendStatistics()
      modifies this`summary
      ensures summary == old(summary) + Statistics(fileStats)
    {
      ghost var s0 := summary;
      summary := summary + StatisticsHead();
      var entries := SortBy(fileStats, CountDesc);
      AppendStatLines(entries);
      summary := summary + [""];
      AppendAssoc(s0, StatisticsHead(), StatLines(entries), [""]);
    }

    /** The loop over the extensions in descending count order. */
    method AppendStatLines(entries: seq<StatEntry>)
      modifies this`summary
      ensures summary == old(summary) + StatLines(entries)
    {
      ghost var s := summary;
      for i := 0 to |entries|
        invariant summary == s + StatLines(entries[..i])
      {
        assert entries[..i + 1][..i] == entries[..i] && entries[..i + 1][i] == entries[i];
        summary := summary + [StatLine(entries[i])];
        AppendAssoc3(s, StatLines(entries[..i]), [StatLine(entries[i])]);
      }
      assert entries[..|entries|] == entries;
    }

    /** The structure section: the records grouped by purpose, the groups in the fixed purpose order. */
    method AppendStructure()
      modifies this`summary
      ensures summary == old(summary) + Structure(importantFiles)
    {
      var byPurpose := GroupByPurpose(importantFiles);
      ghost var s0 := summary;
      summary := summary + StructureHead();
      var s := summary;
      for i := 0 to |PurposeOrder|
        invariant summary == s + GroupSections(PurposeOrder[..i], importantFiles)
      {
        var purpose := PurposeOrder[i];
        assert PurposeOrder[..i + 1][..i] == PurposeOrder[..i] && PurposeOrder[..i + 1][i] == purpose;
        assert GroupSections(PurposeOrder[..i + 1], importantFiles)
            == GroupSections(PurposeOrder[..i], importantFiles) + GroupSection(purpose, Group(importantFiles, purpose));
        if purpose in byPurpose {
          AppendGroup(purpose, byPurpose[purpose]);
        } else {
          assert GroupSection(purpose, Group(importantFiles, purpose)) == [];
          assert summary + [] == summary;
        }
        AppendAssoc3(s, GroupSections(PurposeOrder[..i], importantFiles), GroupSection(purpose, Group(importantFiles, purpose)));
      }
      assert PurposeOrder[..|PurposeOrder|] == PurposeOrder;
      AppendAssoc3(s0, StructureHead(), GroupSections(PurposeOrder, importantFiles));
    }

    /**
     * `files_by_purpose`: a purpose is a key exactly when some record has
     * it, and its value is the records of that purpose in scan order.
     */
    static method GroupByPurpose(files: seq<FileRecord>) returns (byPurpose: map<Purpose, seq<FileRecord>>)
      ensures forall p :: p in byPurpose <==> Group(files, p) != []
      ensures forall p :: p in byPurpose ==> byPurpose[p] == Group(files, p)
    {
      byPurpose := map[];
      for i := 0 to |files|
        invariant forall p :: p in byPurpose <==> Group(files[..i], p) != []
        invariant forall p :: p in byPurpose ==> byPurpose[p] == Group(files[..i], p)
      {
        var f := files[i];
        assert files[..i + 1][..i] == files[..i];
        var current := if f.purpose in byPurpose then byPurpose[f.purpose] else [];
        byPurpose := byPurpose[f.purpose := current + [f]];
      }
      assert files[..|files|] == files;
    }

    /** One purpose's header, its first 15 records by path, and the note for the rest. */
    method AppendGroup(purpose: Purpose, files: seq<FileRecord>)
      requires files != []
      modifies this`summary
      ensures summary == old(summary) + GroupSection(purpose, files)
    {
      ghost var s0 := summary;
      summary := summary + GroupHeader(purpose, |files|);
      var listed := Take(SortBy(files, PathLeq), 15);
      AppendEntries(listed, purpose);
      ghost var s1 := summary;
      if |files| > 15 {
        var note := MorePrefix + NatToString(|files| - 15) + " more files";
        summary := summary + [note];
        summary := summary + [""];
        AppendAssoc3(s1, [note], [""]);
      }
      AppendAssoc(s0, GroupHeader(purpose, |files|), EntryBlocks(listed, purpose), MoreNote(|files|));
    }

    /** The loop over the listed records of one purpose. */
    method AppendEntries(listed: seq<FileRecord>, purpose: Purpose)
      modifies this`summary
      ensures summary == old(summary) + EntryBlocks(listed, purpose)
    {
      ghost var s := summary;
      for i := 0 to |listed|
        invariant summary == s + EntryBlocks(listed[..i], purpose)
      {
        assert listed[..i + 1][..i] == listed[..i] && listed[..i + 1][i] == listed[i];
        assert EntryBlocks(listed[..i + 1], purpose) == EntryBlocks(listed[..i], purpose) + EntryLines(listed[i], purpose);
        AppendEntry(listed[i], purpose);
        AppendAssoc3(s, EntryBlocks(listed[..i], purpose), EntryLines(listed[i], purpose));
      }
      assert listed[..|listed|] == listed;
    }

    /** One listed record: its path, its widgets, classes and key imports, and a blank line. */
    method AppendEntry(f: FileRecord, purpose: Purpose)
      modifies this`summary
      ensures summary == old(summary) + EntryLines(f, purpose)
    {
      ghost var s0 := summary;
      summary := summary + [ListedPrefix + f.path];
      if f.details.Some? && f.details.value.Dart? {
        AppendDartDetails(f.details.value.dart, purpose);
      }
      summary := summary + [""];
      AppendAssoc(s0, [ListedPrefix + f.path], DetailLines(f, purpose), [""]);
    }

    /** The widgets, the first three classes and, outside config files, up to three non-"dart:" imports. */
    method AppendDartDetails(details: DartInfo, purpose: Purpose)
      modifies this`summary
      ensures summary == old(summary) + DartDetailLines(details, purpose)
    {
      ghost var s0 := summary;
      ghost var w := if details.widgets != [] then ["     Widgets: " + Join(details.widgets, ", ")] else [];
      ghost var c := if details.classes != [] then ["     Classes: " + Join(Take(details.classes, 3), ", ")] else [];
      ghost var i := if details.imports != [] && purpose != Config && KeyImports(details.imports) != []
                     then ["     Key imports: " + Join(Take(KeyImports(details.imports), 3), ", ")] else [];
      if details.widgets != [] {
        summary := summary + ["     Widgets: " + Join(details.widgets, ", ")];
      }
      assert summary == s0 + w;
      if details.classes != [] {
        summary := summary + ["     Classes: " + Join(Take(details.classes, 3), ", ")];
      }
      assert summary == s0 + w + c;
      if details.imports != [] && purpose != Config {
        var keyImports := KeyImports(details.imports);
        if keyImports != [] {
          summary := summary + ["     Key imports: " + Join(Take(keyImports, 3), ", ")];
        }
      }
      assert summary == s0 + w + c + i;
      AppendAssoc(s0, w, c, i);
    }

    /** The records whose lower-cased path mentions "main", in scan order. */
    method AppendEntryPoints()
      modifies this`summary
      ensures summary == old(summary) + EntryPoints(importantFiles)
    {
      summary := summary + EntryPointsHead();
      var s := summary;
      for i := 0 to |importantFiles|
        invariant summary == s + MainLines(importantFiles[..i])
      {
        var f := importantFiles[i];
        assert importantFiles[..i + 1][..i] == importantFiles[..i];
        if Contains(Lower(f.path), "main") {
          summary := summary + ["  " + TargetMarker + " " + f.path];
        }
      }
      assert importantFiles[..|importantFiles|] == importantFiles;
      summary := summary + [""];
    }

    /** One flag line per state-management keyword that some record's path mentions. */
    method AppendArchitecture()
      modifies this`summary
      ensures summary == old(summary) + Architecture(importantFiles)
    {
      summary := summary + ["## ARCHITECTURE INSIGHTS", ""];
      var hasBloc := AnyPathMentions(importantFiles, "bloc");
      var hasProvider := AnyPathMentions(importantFiles, "provider");
      var hasGetx := AnyPathMentions(importantFiles, "getx");
      if hasBloc {
        summary := summary + [BlocLine];
      }
      if hasProvider {
        summary := summary + [ProviderLine];
      }
      if hasGetx {
        summary := summary + [GetxLine];
      }
      summary := summary + [""];
    }

    /** The appendix: one block per record with content, by purpose priority and then path. */
    method AppendCodeContent()
      modifies this`summary
      ensures summary == old(summary) + Appendix(importantFiles)
    {
      ghost var s0 := summary;
      summary := summary + AppendixHead;
      var sortedFiles := AppendixOrder(importantFiles);
      AppendContentBlocks(sortedFiles);
      summary := summary + AppendixTail;
      AppendAssoc(s0, AppendixHead, ContentBlocks(sortedFiles), AppendixTail);
    }

    /** The loop over the sorted records with content. */
    method AppendContentBlocks(sortedFiles: seq<FileRecord>)
      requires forall k :: 0 <= k < |sortedFiles| ==> HasContent(sortedFiles[k])
      modifies this`summary
      ensures summary == old(summary) + ContentBlocks(sortedFiles)
    {
      ghost var s := summary;
      for i := 0 to |sortedFiles|
        invariant summary == s + ContentBlocks(sortedFiles[..i])
      {
        var f := sortedFiles[i];
        assert sortedFiles[..i + 1][..i] == sortedFiles[..i] && sortedFiles[..i + 1][i] == f;
        assert ContentBlocks(sortedFiles[..i + 1]) == ContentBlocks(sortedFiles[..i]) + ContentBlock(f);
        AppendContentBlock(f);
        AppendAssoc3(s, ContentBlocks(sortedFiles[..i]), ContentBlock(f));
      }
      assert sortedFiles[..|sortedFiles|] == sortedFiles;
    }

    /** One embedded file: its path, purpose and line count between rules, then its text verbatim. */
    method AppendContentBlock(f: FileRecord)
      requires HasContent(f)
      modifies this`summary
      ensures summary == old(summary) + ContentBlock(f)
    {
      summary := summary + [Dash80, "FILE: " + f.path, "PURPOSE: " + f.purpose.Label(), "LINES: " + NatToString(f.lines)];
      summary := summary + [Dash80, ""];
      summary := summary + [f.content.value];
      summary := summary + ["", ""];
    }
  }
}
