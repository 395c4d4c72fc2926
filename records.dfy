/**
 * The per-file record built by `analyze_file` (summarize_project.py:137-168)
 * and the fixed extension and name sets of the constructor
 * (summarize_project.py:30-45). Reading the file is an input: `None` when
 * every encoding failed, otherwise the decoded text.
 */
module Records {
  import opened Text
  import opened Wrappers
  import opened Paths
  import opened Classifier
  import opened Extract

  /** `code_extensions` */
  const CodeExtensions: set<string> := {
    ".dart", ".py", ".js", ".ts", ".java", ".kt", ".swift",
    ".yaml", ".yml", ".json", ".md", ".xml", ".gradle"
  }

  /** `priority_extensions`: the only files whose full text may be embedded. */
  const PriorityExtensions: set<string> := {".dart", ".yaml", ".yml", ".md", ".json"}

  /** `important_names`, compared against the lower-cased file name. */
  const ImportantNames: set<string> := {
    "readme.md", "pubspec.yaml", "package.json", "main.dart",
    "config.yaml", "app.dart", "routes.dart", "model", "models"
  }

  /** The shape-specific part of a record: the 'details' dict of a Dart or YAML file. */
  datatype Details = Dart(dart: DartInfo) | Yaml(yaml: YamlInfo)

  /** The regex matches of one file's text (see `Extract`). */
  datatype Scrape = Scrape(dart: DartMatches, yaml: YamlMatches)

  /**
   * One entry of `important_files`. `details` and `preview` are `None` when
   * the dict has no such key.
   */
  datatype FileRecord = FileRecord(
    path: string,
    purpose: Purpose,
    size: nat,
    lines: nat,
    content: Option<string>,
    details: Option<Details>,
    preview: Option<string>)

  /** The rule that decides whether a file's full text is kept in its record. */
  predicate EmbedsContent(includeCode: bool, ext: string, text: string, maxFileSize: int) {
    includeCode && ext in PriorityExtensions && |text| < maxFileSize
  }

  /**
   * `analyze_file(root / rel)`, given what `read_file_safely` returned. No
   * record for an unreadable or empty file; otherwise the relative path, the
   * purpose of the full path, the character and line-break counts, the full
   * text when it may be embedded, and the extension's details or preview.
   */
  function AnalyzeFile(root: Path, rel: seq<string>, includeCode: bool, maxFileSize: int,
                       read: Option<string>, scrape: Scrape): (r: Option<FileRecord>)
    ensures r.None? <==> read.None? || read.value == ""
    ensures r.Some? ==>
      var f, text, full := r.value, read.value, root.Child(rel);
      var ext := Lower(full.Suffix());
      && f.path == Path(false, rel).Str()
      && f.purpose == GetFilePurpose(full)
      && f.size == |text|
      && f.lines == CountChar(text, '\n')
      && (f.content.Some? <==> EmbedsContent(includeCode, ext, text, maxFileSize))
      && (f.content.Some? ==> f.content.value == text)
      && (f.details.Some? <==> ext in {".dart", ".yaml", ".yml"})
      && (ext == ".dart" ==> f.details == Some(Dart(ExtractDartInfo(scrape.dart))))
      && (ext in {".yaml", ".yml"} ==> f.details == Some(Yaml(ExtractYamlInfo(full.Name(), scrape.yaml))))
      && (f.preview.Some? <==> ext == ".md")
      && (f.preview.Some? ==> f.preview.value == MarkdownPreview(text))
  {
    if read.None? || read.value == "" then None
    else
      var text := read.value;
      var full := root.Child(rel);
      var ext := Lower(full.Suffix());
      Some(FileRecord(
        path := Path(false, rel).Str(),
        purpose := GetFilePurpose(full),
        size := |text|,
        lines := CountChar(text, '\n'),
        content := if EmbedsContent(includeCode, ext, text, maxFileSize) then Some(text) else None,
        details :=
          if ext == ".dart" then Some(Dart(ExtractDartInfo(scrape.dart)))
          else if ext == ".yaml" || ext == ".yml" then Some(Yaml(ExtractYamlInfo(full.Name(), scrape.yaml)))
          else None,
        preview := if ext == ".md" then Some(MarkdownPreview(text)) else None))
  }

  /**
   * A file of exactly `max_file_size` characters is not embedded (the
   * comparison is strict), while one character less is, when the extension
   * has priority and embedding is on.
   */
  lemma SizeLimitIsStrict(root: Path, rel: seq<string>, maxFileSize: int, text: string, scrape: Scrape)
    requires text != [] && Lower(root.Child(rel).Suffix()) in PriorityExtensions
    ensures var r := AnalyzeFile(root, rel, true, maxFileSize, Some(text), scrape);
      r.Some? && (r.value.content == Some(text) <==> |text| < maxFileSize)
  {
  }

  /** Every record that carries content carries non-empty text, so the appendix test `f.get('content')` is `content.Some?`. */
  lemma EmbeddedContentNonEmpty(root: Path, rel: seq<string>, includeCode: bool, maxFileSize: int,
                                read: Option<string>, scrape: Scrape)
    requires AnalyzeFile(root, rel, includeCode, maxFileSize, read, scrape).Some?
    ensures var f := AnalyzeFile(root, rel, includeCode, maxFileSize, read, scrape).value;
      f.content.Some? ==> f.content.value != "" && |f.content.value| == f.size
  {
  }
}
