# Project summarizer, modelled in Dafny

This project models `ProjectSummarizer` from `summarize_project.py`. It scans a
repository for code and configuration files. It counts files per extension
and classifies each file by purpose (config, model, ui, logic, service,
routing, component, utility, test, other). It scrapes facts from Dart, YAML
and Markdown files. Then it writes a text report for a language model: an
overview, file statistics, the files grouped by purpose, entry points,
architecture hints, fixed guidance, and optionally an appendix that embeds
the full text of priority files.

The modules follow the program:

- `Text`: the Python string operations the program uses.
  - `in` on strings, ASCII `lower`/`upper` and `count`.
  - `split`/`join` and `strip`.
  - `str(int)` and string ordering.
- `Sorting`: `sorted` with a key, as a stable insertion sort over a key order.
- `Paths`: `pathlib` paths (`parts`, `name`, `suffix`, `str`, `/`) and `should_ignore`'s pattern test.
- `Classifier`: `get_file_purpose`.
- `Extract`: `extract_dart_info`, `extract_yaml_info` and the Markdown preview.
- `Records`: `analyze_file` and the file record it builds.
- `Scan`: the specification of `scan_directory` over a given directory walk.
- `Report`: each section of `generate_summary` as a function from the collected state to lines.
- `ReportProperties`: what those lines say.
- `Summarizer`: the class `ProjectSummarizer`.
  - Its fields are `summary`, `file_stats` and `important_files`.
  - Its methods append to those fields step by step, as the source does.
  - Each method is proved against the functions above.

## Model

| member | source | states |
|---|---|---|
| Summarizer.ProjectSummarizer.constructor | summarize_project.py:14-20 | The summarizer keeps its repository path, embedding flag and size limit. It starts with no report lines, no statistics and no file records. |
| Summarizer.ProjectSummarizer.ShouldIgnore | summarize_project.py:47-53 | A path is ignored exactly when some ignore pattern equals one of the path's parts. |
| Paths.SlashPatternsNeverMatch | summarize_project.py:23-28 | The patterns `ios/Pods` and `android/build` can never equal a single path part. A path is therefore ignored exactly when one of its segments is one of the other fifteen patterns. |
| Paths.Path.Child | summarize_project.py:172 | A path found under the root has the root's parts followed by its relative parts. |
| Paths.SuffixShape | summarize_project.py:144 | A suffix is either empty or a dot followed by at least one non-dot character. A non-empty suffix ends the name after a non-empty stem. |
| Classifier.FirstMatchEarliest | summarize_project.py:60-78 | A rule chain yields the outcome of the earliest rule that holds. When no rule holds, it yields `other`. |
| Classifier.GetFilePurpose | summarize_project.py:55-78 | A file is a test exactly when its lowered full path contains "test". A config file's lowered name contains "config" or starts with a dot. |
| Classifier.ClassifyIsFirstMatch | summarize_project.py:55-78 | The purpose equals the outcome of the first matching rule in the source's if/elif order. The tests are on the lowered full path, except the config test, which is on the lowered name. |
| Classifier.TestComesFirst | summarize_project.py:60-61 | Any file whose lowered full path contains "test" is a test, whatever else it contains. |
| Classifier.ConfigOnlyFromName | summarize_project.py:58-77 | A file is `config` exactly when none of the eight path rules holds and its lowered name contains "config" or starts with a dot. |
| Classifier.RootPrefixClassifies | summarize_project.py:55-61 | The full path is classified, root included. If the root's own text contains "test", every file under it is a test. |
| Classifier.LabelInjective | summarize_project.py:61-78 | Distinct purposes have distinct labels. |
| Extract.ExtractDartInfo | summarize_project.py:80-106 | The first 5 imports and the first 5 functions are kept. The first 3 classes are rendered as `Name` or `Name extends Parent`. Widgets are all classes whose parent matches the widget alternation. |
| Extract.WidgetNamesExactly | summarize_project.py:99-100 | A name is listed as a widget exactly when some scanned class with that name extends a widget base. Nothing is dropped when every class qualifies. |
| Extract.RenderClassRoundTrip | summarize_project.py:95-96 | Rendering a class with a word name and an optional word parent can be parsed back to the same class. |
| Extract.ExtractYamlInfo | summarize_project.py:108-124 | A file whose name does not mention "pubspec" gets no facts. For a pubspec file, the app name is present exactly when `name:` matched, and it is the stripped value. The dependencies are present exactly when the section matched, limited to the first 10. |
| Extract.AppNameTrimmed | summarize_project.py:116 | The app name is a slice of the matched value. It starts and ends with a non-space character, and stripping it again changes nothing. |
| Extract.MarkdownPreviewIsPrefix | summarize_project.py:163-166 | The preview is the first ten lines: a prefix of the content. It is the whole content exactly when the content has fewer than ten line breaks. Otherwise it holds exactly nine line breaks, and the content continues with the tenth. |
| Text.JoinSplit | summarize_project.py:165-166 | Joining the parts of a split with the same separator gives back the text. |
| Records.AnalyzeFile | summarize_project.py:137-168 | An unreadable or empty file gives no record. Otherwise the record holds: <ul><li>the relative path;</li><li>the purpose of the full path;</li><li>the character count and the line-break count;</li><li>the text, exactly when embedding applies;</li><li>details exactly for `.dart`, `.yaml` and `.yml`, which are the Dart extraction for `.dart` and the YAML extraction of the file's name for the other two;</li><li>a preview exactly for `.md`, which is the Markdown preview of the text.</li></ul> |
| Records.SizeLimitIsStrict | summarize_project.py:155 | With embedding on and a priority extension, a file is embedded exactly when it is strictly shorter than `max_file_size`. |
| Records.EmbeddedContentNonEmpty | summarize_project.py:140-156 | Embedded content is the non-empty text itself, of the recorded size. |
| Scan.Increment | summarize_project.py:179 | The `defaultdict` increment adds one to the given extension's count and leaves every other count alone. It keeps the keys distinct and adds the key on first use. |
| Scan.IgnoredNotCounted | summarize_project.py:174-175 | An ignored file is neither counted nor analysed. |
| Scan.StatsCountCounted | summarize_project.py:170-183 | After a scan, each extension's count is its old count plus the number of walked files that are counted under that extension. |
| Scan.RecordsAtMostCounted | summarize_project.py:178-183 | There are never more records than counted files. |
| Scan.RecordsComeFromCountedFiles | summarize_project.py:172-183 | Every record is the analysis of some counted file of the walk. |
| Scan.CountedFileGivesRecord | summarize_project.py:178-183 | Conversely, every counted file whose text is non-empty puts the record `analyze_file` builds for it among the scan's records. |
| Scan.CountedKey | summarize_project.py:173-179 | A file the two-stage filter `Counted` admits is counted under a code extension or under the empty key. Important names either have a code extension as their suffix or no suffix at all (`model`, `models`). |
| Scan.EmptyFileCountedWithoutRecord | summarize_project.py:170-183 | An empty counted file adds to the statistics but yields no record. |
| Summarizer.ProjectSummarizer.ScanDirectory | summarize_project.py:170-183 | Scanning a walk appends exactly that walk's records to `important_files`. It sets `file_stats` to the statistics of the walk over the old statistics, and keeps the keys distinct. |
| Summarizer.ProjectSummarizer.ScanEntry | summarize_project.py:173-183 | One walked file appends its record when it has one. The statistics are incremented exactly when the file is counted. |
| Summarizer.ProjectSummarizer.GenerateSummary | summarize_project.py:185-333 | The report appended is exactly the sections in source order: overview, statistics, structure, entry points, architecture, guidance, and the appendix when embedding is on. |
| Report.FirstWithPath | summarize_project.py:196-205 | The lookup returns the first record whose lowered path contains the word, or none when no record's path does. |
| Report.ReadmeLines | summarize_project.py:196-201 | The README block is empty, or it is three lines: a heading, the preview of a record whose path mentions "readme", and a blank line. |
| ReportProperties.ReadmePreviewShown | summarize_project.py:196-201 | The README block comes from the first record whose lowered path mentions "readme". It shows that record's preview exactly when the record has one. |
| ReportProperties.NoReadmeNoPreview | summarize_project.py:196-201 | Without a record whose path mentions "readme", no README block is shown. |
| Report.PubspecLines | summarize_project.py:203-211 | The pubspec block has at most three lines and ends with a blank line. It comes from a record whose path mentions "pubspec.yaml" and that has details. |
| ReportProperties.PubspecFacts | summarize_project.py:203-211 | For the first record whose lowered path mentions "pubspec.yaml": <ul><li>the `App Name:` line is present exactly when the record has YAML details with an app name, and it carries that name;</li><li>the `Key Dependencies:` line is present exactly when the record has YAML dependencies, and it joins them with ", ".</li></ul> |
| ReportProperties.NoPubspecNoFacts | summarize_project.py:203-211 | Without a record whose path mentions "pubspec.yaml", no pubspec block is shown. |
| ReportProperties.StatisticsByDescendingCount | summarize_project.py:213-218 | The statistics list every extension once, a permutation of the counts, in non-increasing count order. Each line reads `  ext: N files`. |
| Sorting.SortBySorted | summarize_project.py:316-318 | The sort returns its input's elements, as a permutation, ordered by the key order. |
| Text.NatToStringValue | summarize_project.py:217 | The decimal text of a count has the count's value. |
| Summarizer.ProjectSummarizer.AppendStatistics | summarize_project.py:213-218 | Appends the statistics section of the current `file_stats`. |
| Summarizer.ProjectSummarizer.GroupByPurpose | summarize_project.py:220-223 | A purpose is a key exactly when some record has it. Its list is those records in scan order. |
| ReportProperties.GroupMembers | summarize_project.py:221-223 | A record is in a purpose's group exactly when it is a record with that purpose. |
| ReportProperties.GroupsPartitionRecords | summarize_project.py:221-233 | Over the ten purposes in display order, the group sizes add up to the number of records, so every record belongs to exactly one group. |
| ReportProperties.HeadersInPurposeOrder | summarize_project.py:229-236 | The `###` headers are the non-empty purposes in the fixed order `config` … `other`. Each header carries its group's size. |
| ReportProperties.GroupListing | summarize_project.py:232-254 | A group's listed lines are its first 15 records by path: a sorted permutation of the group, exactly `min(size, 15)` lines. |
| ReportProperties.GroupNoteExactly | summarize_project.py:256-258 | A group has the `... and N more files` note exactly when it has more than 15 records, with N = size - 15. Otherwise it has no such line. |
| ReportProperties.KeyImportsExactly | summarize_project.py:250 | The key imports are exactly the kept imports that do not start with `dart:`. |
| ReportProperties.ConfigHidesImports | summarize_project.py:249 | A `config` entry never shows a `Key imports` line. |
| ReportProperties.KeyImportsShown | summarize_project.py:249-252 | Outside `config`, when there are key imports, exactly one `Key imports` line shows at most three of them, none from `dart:`. |
| ReportProperties.DetailLinesIndented | summarize_project.py:245-252 | Every detail line under an entry is indented by five spaces. |
| Summarizer.ProjectSummarizer.AppendStructure | summarize_project.py:220-258 | Appends the structure section for the current records. |
| Summarizer.ProjectSummarizer.AppendGroup | summarize_project.py:232-258 | Appends one purpose's section. |
| Summarizer.ProjectSummarizer.AppendEntry | summarize_project.py:238-254 | Appends one listed record with its detail lines and a blank line. |
| Summarizer.ProjectSummarizer.AppendDartDetails | summarize_project.py:241-252 | Appends the widget, class and key-import lines of one Dart record. |
| ReportProperties.MainLinesExactly | summarize_project.py:260-266 | A line is an entry-point line exactly when some record's lowered path contains "main" and the line names that path. |
| Summarizer.ProjectSummarizer.AppendEntryPoints | summarize_project.py:260-266 | Appends the entry-point section. |
| ReportProperties.ArchitectureFlags | summarize_project.py:268-283 | The BLoC, Provider and GetX lines appear each exactly when some record's lowered path contains "bloc", "provider" or "getx" respectively. |
| Summarizer.ProjectSummarizer.AppendArchitecture | summarize_project.py:268-283 | Appends the architecture section. |
| ReportProperties.WithContentExactly | summarize_project.py:309 | The appendix candidates are exactly the records carrying content. |
| ReportProperties.AppendixEmbedsVerbatim | summarize_project.py:297-333 | The appendix lists every record with content exactly once, ordered by purpose priority and then path. Each block's `FILE:` and `PURPOSE:` lines name the record, and the text line is the record's content verbatim. |
| Summarizer.ProjectSummarizer.AppendCodeContent | summarize_project.py:297-333 | Appends the appendix. |
| Summarizer.ProjectSummarizer.AppendContentBlock | summarize_project.py:320-329 | Appends one file's block of nine lines. |

## Left out

- `read_file_safely` and the file system are not modelled.
  - Each walked file arrives with its read result as an `Option<string>`.
  - `None` stands for a file that could be read under none of the three encodings.
- The order of the walk is not modelled. `rglob('*')` and `is_file()` are replaced by a given sequence of file entries, in the order the file system would yield them.
- The regular expression engine is not modelled.
  - Each search's matches are an input: the imports, the class declarations, the function names, the `name:` value and the dependency keys.
  - The extraction logic around them is modelled: the limits, rendering, filtering and stripping.
  - The dependency-section search is folded into an optional list of keys.
- `Summarizer.ProjectSummarizer.constructor`: the default arguments (`repo_path='.'`, `include_code=True`, `max_file_size=50000`) are not modelled. The command-line entry point passes all three values (summarize_project.py:415).
- `save_summary`, `run` and the command-line entry point are not modelled. They write files and print to the console.
- `Text.Lower` and `Text.Upper` map ASCII letters only. Python's `str.lower` and `str.upper` also change non-ASCII letters.
- `Paths` models POSIX paths only. Drive letters and backslashes are not modelled.
- Sorting stability is not proved. `Sorting.SortBy` keeps equal keys in input order by construction, as Python's `sorted` does, but no lemma states it. `ReportProperties.StatisticsByDescendingCount` therefore does not fix the order among extensions with equal counts.
- The entry and architecture markers are the exact code points the source file's text holds. These are the emoji's UTF-8 bytes read back as Mac Roman, e.g. U+F8FF U+00FC U+00EC U+00D1 for the file marker. They are not the intended emoji.
- The `purpose_priority` default of 99 is not modelled. Every purpose the classifier returns has an entry, so the default can never be used.
- Embedding uses a strict comparison (`len(content) < max_file_size`), so a file of exactly `max_file_size` characters is not embedded. This follows the code, while the `--max-size` help text at summarize_project.py:394 speaks of a maximum.
- A `.yaml` or `.yml` file whose name does not mention "pubspec" gets empty details. This is `YamlInfo(None, None)`.
- The widget search's alternation has no word boundary. Any parent whose name begins with `StatelessWidget` or `StatefulWidget` therefore counts, and the model follows this.
