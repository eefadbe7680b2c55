# A verified model of the codebase summarizer

The summarizer walks a repository, finds every directory that directly holds
source files, and writes an `agents.md` file into each one. The file has a
table of contents with line numbers, the directory's file types, the
skillsets (languages and frameworks) its code needs, and one entry per
function, class or type. The APIs come from language parsers: an
`ast`-based one for Python and a line-based one for JavaScript/TypeScript.
A second, model-based orchestrator asks a language model for them instead.
A `verify` command compares committed `agents.md` files with freshly
generated ones, ignoring the two metadata lines that change on every run.

This project models the deterministic core of that program in Dafny and
proves what the code promises about it:

- `text.dfy`, `order.dfy` and `model.dfy` hold the Python built-ins the code
  relies on (`strip`, `split`, `join`, `lower`, `Path.suffix`, `sorted`,
  `sorted(set(...))`) and the records passed between the stages.
- `summary_generator.dfy` builds the document. Its central theorem: every
  `start_line` in the table of contents is the line of that section's
  `## ...` header in the serialised text, and the last section ends on the
  last line.
- `commands.dfy` has the metadata filter and the document comparison of
  `verify`, and the write/skip and out-of-sync decisions of `generate` and
  `verify`.
- `traversal_engine.dfy` has the pre-order walk with its skip rules and the
  "directly holds a source file" filter, over a filesystem given as a tree.
- `python_parser.dfy`, `javascript_parser.dfy` and `framework_detection.dfy`
  hold the language scanners: where definitions end, the code handed to
  the model, the description fallbacks, line-by-line API extraction and
  framework detection.
- `analysis_orchestrator.dfy` and `semantic_orchestrator.dfy` hold parser
  selection, file-type counting and aggregation, including the rule that
  the model's APIs take priority.
- `config.dfy` holds the `.semanticsrc` exclude patterns, path exclusion
  and the output format.
- `llm_usage_metrics.dfy` is the usage collector, as a class with running
  totals.
- `llm_client.dfy` holds the client's pure parts: `.env` lines, prompt
  packing under a character budget, skillset answer parsing, description
  truncation and the fallbacks. The model call is an input.

Where the code works by updating state step by step, the model is a method
with loop invariants, proved equal to a specification function. The
properties are then proved about that function. Examples are
`CalculateTableOfContents`, `FindEndLine`, `FindFunctionEndLine`,
`CombineFiles`, `ParseSkillsets`, `LoadEnvLines` and the
`Orchestrator`/`UsageCollector` classes.

Some behaviour of the code as written is kept on purpose. For example, the
source-extension set lists `.R`, but it is compared with the lower-cased
suffix, so a `.R` file is recognised only as `.r`.

## Model

| member | source | states |
|---|---|---|
| Text.LStrip | src/parsers/python_parser.py:359 | `lstrip()` removes exactly the leading whitespace: the result is a suffix starting with a non-space after a blank prefix |
| Text.RStrip | src/parsers/javascript_parser.py:298 | `rstrip()` removes exactly the trailing whitespace: the result is a prefix ending with a non-space before a blank suffix |
| Text.Strip | src/parsers/javascript_parser.py:164 | `strip()` leaves no whitespace at either end |
| Text.StripSurrounded | src/services/llm_client.py:47 | whitespace around a text does not change its strip |
| Text.BlankIffStripEmpty | src/parsers/python_parser.py:369 | `not line.strip()` holds exactly for an all-whitespace line |
| Text.IndentLStrip | src/parsers/python_parser.py:359 | `len(line) - len(line.lstrip())` is the number of leading whitespace characters |
| Text.StripCharEnds | src/services/llm_client.py:51 | `strip(c)` leaves no `c` at either end and adds no character |
| Text.Lower | src/services/analysis_orchestrator.py:64 | `lower()` keeps the length and lowers every character on its own |
| Text.LowerIdempotent | src/services/analysis_orchestrator.py:64 | lowering twice is lowering once |
| Text.Replace | src/parsers/python_parser.py:347 | `replace(a, b)` on one character changes exactly the occurrences of `a` |
| Text.Split | src/services/llm_client.py:234 | `split(sep)` gives at least one part and no part contains the separator |
| Text.SplitJoin | src/parsers/javascript_parser.py:143 | joining separator-free parts and splitting again gives the parts back |
| Text.JoinSplit | src/parsers/javascript_parser.py:143 | splitting and joining again gives the text back |
| Text.Suffix | src/services/analysis_orchestrator.py:64 | `Path.suffix` is empty or a dot followed by a dot-free ending of the name, shorter than the name |
| Text.BaseName | src/parsers/python_parser.py:120 | `Path.name` contains no `/` |
| Text.PathParts | src/services/traversal_engine.py:45-71 | the components of a path are non-empty, not `.` and free of `/` |
| Order.SortBy | src/services/analysis_orchestrator.py:203 | sorting gives a permutation of the input |
| Order.SortBySorted | src/services/analysis_orchestrator.py:203 | sorting by a total preorder gives a sorted list |
| Order.SortedSet | src/services/analysis_orchestrator.py:206 | `sorted(set(xs))` is strictly sorted and has exactly the members of `xs` |
| Order.Dedup | src/services/analysis_orchestrator.py:195-200 | the set of a list has the same members, each once |
| Order.StrLeIsTotalPreorder | src/services/analysis_orchestrator.py:124 | Python's string order is total and transitive |
| Model.ApiLeIsTotalPreorder | src/services/analysis_orchestrator.py:203 | the sort key `(source_file, start_line)` is a total preorder |
| Model.ItemLeIsTotalPreorder | src/services/summary_generator.py:111 | the order of `(str, int)` items is a total preorder |
| SummaryGenerator.GenerateFileTypesSummary | src/services/summary_generator.py:105-114 | the summary is the `- ext: count` lines of the items, joined with newlines |
| SummaryGenerator.SortedItemsStrict | src/services/summary_generator.py:111 | sorting the items of a dict gives strictly increasing extensions |
| SummaryGenerator.FileTypesSummaryShape | src/services/summary_generator.py:105-114 | the summary is empty exactly for an empty map; otherwise its lines are one `- ext: count` line per item of a permutation of the map, in strictly increasing extension order |
| SummaryGenerator.GenerateSkillsetsSummary | src/services/summary_generator.py:116-125 | the summary is the `- skillset` lines of the sorted list, joined with newlines |
| SummaryGenerator.SortStringsSorted | src/services/summary_generator.py:122 | `sorted` of a list of strings is sorted |
| SummaryGenerator.SkillsetsSummaryShape | src/services/summary_generator.py:116-125 | the summary is empty exactly for no skillsets; otherwise its lines list a sorted permutation of the skillsets, one per occurrence |
| SummaryGenerator.SourceFilesOf | src/services/summary_generator.py:134-137 | the source file of each API, position by position |
| SummaryGenerator.FilterIn | src/services/summary_generator.py:133-137 | keeps at most the given APIs (the APIs of a set of files, in their order) |
| SummaryGenerator.GroupByFile | src/services/summary_generator.py:133-137 | the keys of `apis_by_file` are the distinct source files in first-seen order, and each key's list is the APIs of that file in their order |
| SummaryGenerator.GroupingAdvances | src/services/summary_generator.py:135-137 | one `setdefault`/`append` step keeps the grouping invariant for one more API |
| SummaryGenerator.GroupKeysAdvance | src/services/summary_generator.py:135-136 | the keys after one more API are the distinct files of the longer prefix |
| SummaryGenerator.GroupListsAdvance | src/services/summary_generator.py:137 | each list after one more API is the group of its file in the longer prefix |
| SummaryGenerator.SourceFilesStep | src/services/summary_generator.py:134 | one more API appends its source file |
| SummaryGenerator.GroupStep | src/services/summary_generator.py:137 | one more API extends its own file's group and no other |
| SummaryGenerator.GroupAbsent | src/services/summary_generator.py:135 | a file no API comes from has an empty group |
| SummaryGenerator.AppendApiLines | src/services/summary_generator.py:144-145 | appends one entry line per API, in order |
| SummaryGenerator.GenerateApisSummary | src/services/summary_generator.py:127-153 | the summary is the file blocks, the trailing blank line removed, joined with newlines |
| SummaryGenerator.AppendSections | src/services/summary_generator.py:140-147 | the lines are the blocks of the files in the order given, each followed by a blank line |
| SummaryGenerator.AppendSection | src/services/summary_generator.py:141-147 | one block: the `### name` header, the file's entries sorted by start line, a blank line |
| SummaryGenerator.FilterInUnion | src/services/summary_generator.py:133-137 | the APIs of two disjoint lists of files are, as a multiset, the union of the APIs of each |
| SummaryGenerator.FilterInAll | src/services/summary_generator.py:133-137 | when every API's file is listed, all APIs are kept in order |
| SummaryGenerator.FilterInAbsent | src/services/summary_generator.py:133-137 | no API of a file outside the list is kept |
| SummaryGenerator.FilterInKeeps | src/services/summary_generator.py:133-137 | every API of a listed file is kept |
| SummaryGenerator.GroupedMultiset | src/services/summary_generator.py:140-145 | grouping by distinct files takes, as a multiset, exactly the APIs of those files |
| SummaryGenerator.ApisSummaryFiles | src/services/summary_generator.py:140 | the blocks are those of the distinct source files, in strictly increasing order, each the file of some API |
| SummaryGenerator.ApisSummaryBlocksSorted | src/services/summary_generator.py:144 | each block lists its file's entries sorted by start line |
| SummaryGenerator.ApisSummaryListsEveryApi | src/services/summary_generator.py:133-147 | together the blocks list every API exactly once (a multiset equality) |
| SummaryGenerator.ApisSummaryEndsWithEntry | src/services/summary_generator.py:149-151 | only the final blank line is removed, so a non-empty summary ends with an entry line |
| SummaryGenerator.GroupNonEmpty | src/services/summary_generator.py:135-137 | the file of any API has a non-empty group |
| SummaryGenerator.LastBlockEndsWithEntry | src/services/summary_generator.py:144-147 | the last block ends with an entry line followed by one blank line |
| SummaryGenerator.ContentLineCount | src/services/summary_generator.py:194 | a section body occupies at least one line |
| SummaryGenerator.CalculateTableOfContents | src/services/summary_generator.py:155-218 | four entries, Metadata at lines 10-13, each section starting on the line after the previous one ends and spanning header, content and a blank line (none for APIs); the TOC line count is 6 |
| SummaryGenerator.SectionBody | src/services/summary_generator.py:82-85 | a section's body has as many lines as the table of contents counts for it |
| SummaryGenerator.ExtendWithSummary | src/services/summary_generator.py:82-85 | appends the summary's lines, or the placeholder line when the summary is empty |
| SummaryGenerator.AppendTocEntries | src/services/summary_generator.py:68-69 | appends one `- name: start-end` line per entry, in order |
| SummaryGenerator.BuildTocBlock | src/services/summary_generator.py:61-72 | the header line, a blank line, `[TOC]`, the entry lines, `[/TOC]` and a blank line |
| SummaryGenerator.AppendMetadataSection | src/services/summary_generator.py:74-78 | appends `## Metadata`, one `- key: value` line per item in order, and a blank line |
| SummaryGenerator.SerializeToMarkdown | src/services/summary_generator.py:49-103 | the document is the blocks in order, joined with newlines |
| SummaryGenerator.CreateMetadata | src/services/summary_generator.py:237-250 | two distinct keys: `last_generated_utc` (the timestamp with `Z`) and then `commit_hash` |
| SummaryGenerator.GenerateAgentsMdContent | src/services/summary_generator.py:19-47 | each summary is the one its generator gives, the metadata is kept, and the table of contents has the layout above with 6 TOC lines |
| SummaryGenerator.DocLinesHaveNoNewline | src/services/summary_generator.py:59-101 | no line of the document holds a newline when no metadata line does |
| SummaryGenerator.DocLinesSplitBack | src/services/summary_generator.py:103 | splitting the serialised document at newlines gives back its lines |
| SummaryGenerator.DocLinesLayout | src/services/summary_generator.py:59-101 | where each block of the document starts and which header or separator is on which line |
| SummaryGenerator.TocLineNumbers | src/services/summary_generator.py:185-213 | the start and end lines recorded, in terms of the line counts of the summaries |
| SummaryGenerator.TocStartLinesMatch | src/services/summary_generator.py:186-213 | each section's `## name` header is on its recorded start line |
| SummaryGenerator.TocEndLinesMatch | src/services/summary_generator.py:188-204 | each section but the last ends on a blank line at its recorded end line |
| SummaryGenerator.TocCoversDocLines | src/services/summary_generator.py:209-213 | the last section's end line is the document's last line |
| SummaryGenerator.TocIsAccurate | src/services/summary_generator.py:155-218 | for a document with two metadata items, the table of contents is accurate for the serialised text: headers on start lines, blank lines on end lines, the last end line is the last line, and the TOC block sits where its header line says |
| SummaryGenerator.TocStartLineMatches | src/services/summary_generator.py:186-213 | for each of the four entries, the line at its recorded start line is that section's `## name` header |
| SummaryGenerator.TocEndLineMatches | src/services/summary_generator.py:188-204 | for each of the first three entries, the line at its recorded end line is the blank line closing the section |
| Commands.MapFilter | src/codebase_summarizer/main.py:237-245 | the kept lines are never more than the input lines |
| Commands.FilterMetadataLines | src/codebase_summarizer/main.py:233-245 | the loop's result is every line stripped with the `- last_generated_utc:` and `- commit_hash:` lines removed |
| Commands.ContentMatchesEquivalence | src/codebase_summarizer/main.py:215-230 | matching is reflexive, symmetric and transitive |
| Commands.MapFilterAppend | src/codebase_summarizer/main.py:238-244 | filtering a concatenation filters each part |
| Commands.MapFilterKept | src/codebase_summarizer/main.py:238-244 | a kept line is not dropped and is the normal form of some input line |
| Commands.MapFilterKeeps | src/codebase_summarizer/main.py:238-244 | the normal form of an input line that is not dropped is kept |
| Commands.MapFilterSameNorm | src/codebase_summarizer/main.py:238-244 | inputs with the same normal forms filter alike |
| Commands.FilteredLinesAppend | src/codebase_summarizer/main.py:238-244 | filtering works line by line, so kept lines stay in order |
| Commands.FilteredLinesMembers | src/codebase_summarizer/main.py:238-244 | a line is kept exactly when it is the stripped form of an input line that is not a metadata line |
| Commands.FilteredLinesStripped | src/codebase_summarizer/main.py:239 | every kept line has no whitespace at either end |
| Commands.FilteredLinesIgnoreIndentation | src/codebase_summarizer/main.py:239 | lines that differ only in surrounding whitespace filter alike |
| Commands.FilteredLinesIgnoreMetadata | src/codebase_summarizer/main.py:241-243 | a metadata line anywhere makes no difference to the result |
| Commands.MatchesIgnoringSurroundingWhitespace | src/codebase_summarizer/main.py:222-223 | whitespace around the whole text makes no difference to the match |
| Commands.StripKeepsPrefix | src/codebase_summarizer/main.py:239-242 | stripping keeps a prefix that begins and ends with non-space characters |
| Commands.TimestampLineDropped | src/codebase_summarizer/main.py:241 | the timestamp line `create_metadata` produces is a metadata line, whatever the timestamp |
| Commands.CommitLineDropped | src/codebase_summarizer/main.py:242 | the commit line `create_metadata` produces is a metadata line, whatever the hash |
| Commands.MetadataLinesFiltered | src/codebase_summarizer/main.py:241-243 | both lines of `create_metadata` are dropped by the filter |
| Commands.MetadataLinesNoNewline | src/services/summary_generator.py:76-77 | the metadata lines hold no newline when the hash and timestamp hold none |
| Commands.DocLinesAroundMetadata | src/services/summary_generator.py:59-101 | the document's lines are a head, the metadata lines and a tail |
| Commands.DocTextAroundMetadata | src/services/summary_generator.py:103 | the serialised text is the head, the metadata lines and the tail joined at newlines |
| Commands.StripDocText | src/codebase_summarizer/main.py:222-223 | stripping the serialised text only touches the end of its tail |
| Commands.LinesAround | src/codebase_summarizer/main.py:222-223 | lines joined into the middle of a text come back out of `split('\n')` unchanged |
| Commands.FilteredAround | src/codebase_summarizer/main.py:226-227 | filtering drops the metadata lines and nothing around them |
| Commands.FilteredDocument | src/codebase_summarizer/main.py:222-227 | what `_content_matches` compares for a generated document: the filtered head and tail, without the metadata |
| Commands.RegeneratedDocumentMatches | src/codebase_summarizer/main.py:215-230 | a document regenerated at another time or commit matches the committed one |
| Commands.Generate | src/codebase_summarizer/main.py:77-99 | the directories written are those visited without an agents.md or with `--force`, in walk order, and the count is their number |
| Commands.WrittenMembers | src/codebase_summarizer/main.py:81-99 | a directory is written exactly when one of its visits finds no agents.md or the run is forced |
| Commands.ExistingFileUntouched | src/codebase_summarizer/main.py:83-85 | without `--force`, a directory visited once whose agents.md exists is not written |
| Commands.CheckedCount | src/codebase_summarizer/main.py:193 | never more directories checked than visited |
| Commands.VerifyStep | src/codebase_summarizer/main.py:162-193 | one more directory adds its path when out of sync and one to the count when it was read |
| Commands.Verify | src/codebase_summarizer/main.py:158-204 | the out-of-sync paths in walk order, the number of directories compared, and exit code 1 exactly when some path is reported |
| Commands.ReportedNonEmpty | src/codebase_summarizer/main.py:196-202 | something is reported exactly when some directory fails the test |
| Commands.ReportedIncludes | src/codebase_summarizer/main.py:189-191 | a directory that fails the test is reported |
| Commands.VerifyFailsIffSomeOutOfSync | src/codebase_summarizer/main.py:196-204 | verification fails exactly when some agents.md is missing, unreadable or stale |
| Commands.MissingIsReported | src/codebase_summarizer/main.py:166-169 | a missing agents.md is always reported |
| Commands.FilteredLines | src/codebase_summarizer/main.py:233-245 | filtering never gives more lines than it is given |
| Commands.Written | src/codebase_summarizer/main.py:82-99 | no more directories are written than visited |
| Commands.OutOfSync | src/codebase_summarizer/main.py:166-196 | no more paths are reported than directories visited |
| TraversalEngine.HasSourceFilesScan | src/services/traversal_engine.py:102-109 | the scan, which stops at the first source file, answers whether some entry of the directory is a source file (false when the listing fails) |
| TraversalEngine.EntryLeIsTotalPreorder | src/services/traversal_engine.py:64 | comparing entries by name is a total preorder, as `sorted` needs |
| TraversalEngine.Listing | src/services/traversal_engine.py:64 | `sorted(iterdir())` is a permutation of the directory's entries |
| TraversalEngine.ListingStrict | src/services/traversal_engine.py:64 | in a directory with distinct names the listing is strictly increasing by name |
| TraversalEngine.ReachableBelow | src/services/traversal_engine.py:52-69 | a reachable directory's path extends the parent's path through unskipped directories and ends with its name |
| TraversalEngine.SubwalksFrom | src/services/traversal_engine.py:64-66 | a path yielded by the loop over the entries comes from the walk of one entry |
| TraversalEngine.SubwalksInclude | src/services/traversal_engine.py:64-66 | everything the walk of one entry yields is yielded by the loop |
| TraversalEngine.WalkSound | src/services/traversal_engine.py:52-69 | every yielded path is that of a reachable directory the test accepts |
| TraversalEngine.WalkComplete | src/services/traversal_engine.py:52-69 | every reachable directory the test accepts is yielded |
| TraversalEngine.WalkBelow | src/services/traversal_engine.py:52-66 | every yielded path lies below the starting entry through unskipped directories |
| TraversalEngine.WalkOrdered | src/services/traversal_engine.py:52-69 | the walk of a tree with distinct names is strictly increasing in path order |
| TraversalEngine.EarlierSubwalkFirst | src/services/traversal_engine.py:64-66 | what the walks of earlier entries yield comes before what a later entry's walk yields |
| TraversalEngine.SubwalksOrdered | src/services/traversal_engine.py:64-66 | the loop over sorted entries yields in strictly increasing path order |
| TraversalEngine.TraverseYields | src/services/traversal_engine.py:45-71 | a path is yielded exactly when it names a reachable directory that directly holds a source file |
| TraversalEngine.SkippedNeverYielded | src/services/traversal_engine.py:23-43 | a directory with a skipped name, and everything below it, is never yielded |
| TraversalEngine.TraverseOrdered | src/services/traversal_engine.py:45-71 | the directories come strictly increasing in path order |
| TraversalEngine.PrefixNotAfter | src/services/traversal_engine.py:59-66 | a path never comes after one of its extensions |
| TraversalEngine.TraverseUnique | src/services/traversal_engine.py:45-71 | each directory is yielded at most once |
| TraversalEngine.TraversePreOrder | src/services/traversal_engine.py:57-66 | a directory is yielded before every directory below it |
| TraversalEngine.KeptNames | src/services/traversal_engine.py:124-126 | never more names than entries looked at |
| TraversalEngine.SourceFilesInDirectory | src/services/traversal_engine.py:111-130 | the loop returns the source files of the sorted listing, in that order (none when the listing fails) |
| TraversalEngine.KeptNamesMembers | src/services/traversal_engine.py:124-126 | a name is kept exactly when some entry looked at passes the test and has that name |
| TraversalEngine.KeptNamesStrict | src/services/traversal_engine.py:124-126 | keeping some entries of a strictly increasing listing keeps the names strictly increasing |
| TraversalEngine.SourceFilesMembers | src/services/traversal_engine.py:111-153 | a name is returned exactly when the directory can be listed and holds a source file of that name |
| TraversalEngine.SourceFilesSorted | src/services/traversal_engine.py:124 | the source files come back strictly sorted, so without repeats |
| TraversalEngine.HasSourceFilesIffSomeSourceFile | src/services/traversal_engine.py:73-130 | `_has_source_files` holds exactly when `get_source_files_in_directory` finds something |
| FrameworkDetection.Detected | src/parsers/python_parser.py:390-394 | the frameworks found are at most as many as the table has |
| FrameworkDetection.CollectSkillsets | src/parsers/python_parser.py:386-396 | the loop that adds a framework on the first matching pattern (then breaks) returns the sorted set of the base skillsets and the detected frameworks |
| FrameworkDetection.DetectedMembers | src/parsers/python_parser.py:390-394 | a name is detected exactly when the table lists it with a pattern that matches the text |
| FrameworkDetection.CollectedMembers | src/parsers/javascript_parser.py:315-331 | the collected skillsets are exactly the base skillsets plus the frameworks with a matching pattern |
| PythonParser.SupportsExtensionIgnoresCase | src/parsers/python_parser.py:95-97 | whether an extension is supported depends only on its lower-cased form |
| PythonParser.ScanEnd | src/parsers/python_parser.py:362-384 | the scan's result lies after the last line taken so far and within the file |
| PythonParser.EndLine | src/parsers/python_parser.py:350-384 | the end line is at least the definition line, and within the file when the definition line is |
| PythonParser.FindEndLine | src/parsers/python_parser.py:350-384 | the while loop that skips blank lines and stops at the first line indented no deeper computes `EndLine` |
| PythonParser.ScanEndInside | src/parsers/python_parser.py:365-382 | every line the scan takes in is blank or indented deeper than the definition |
| PythonParser.ScanEndLast | src/parsers/python_parser.py:381-384 | the scan ends on the last line found so far or on a non-blank line it took in |
| PythonParser.ScanEndStops | src/parsers/python_parser.py:376-379 | after the block come only blank lines, up to the end of the file or up to a non-blank line indented no deeper |
| PythonParser.EndLineBeyondFile | src/parsers/python_parser.py:354-355 | a definition line past the end of the file is its own end line |
| PythonParser.EndLineBlock | src/parsers/python_parser.py:365-382 | every line after the definition line up to the end line is blank or indented strictly deeper than the definition line |
| PythonParser.EndLineNoTrailingBlank | src/parsers/python_parser.py:368-371 | the block never ends on a blank line unless it is the definition line alone |
| PythonParser.EndLineMaximal | src/parsers/python_parser.py:376-379 | the block is as long as possible: only blank lines follow it before the end of the file or a dedented line |
| PythonParser.FunctionCode | src/parsers/python_parser.py:298-322 | a definition line past the end of the file gives empty code |
| PythonParser.ClassCode | src/parsers/python_parser.py:324-342 | a class line past the end of the file gives empty code |
| PythonParser.FunctionCodeLines | src/parsers/python_parser.py:304-306 | the code's lines are exactly the file's lines from the definition line to its end line |
| PythonParser.ClassCodeTruncated | src/parsers/python_parser.py:334-337 | a class of more than 50 lines is its first 50 lines followed by the truncation marker line |
| PythonParser.ClassCodeShort | src/parsers/python_parser.py:330-339 | a class of at most 50 lines is extracted as a function is |
| PythonParser.Describe | src/parsers/python_parser.py:193-213 | the description is the fallback, the model's answer or the docstring's first line |
| PythonParser.DocstringWins | src/parsers/python_parser.py:195-203 | a non-empty first docstring line wins over the model and the fallback |
| PythonParser.DescribeNeverPlaceholder | src/parsers/python_parser.py:205-213 | given a fallback that is neither empty nor the placeholder, the description is neither |
| PythonParser.DescribeUnavailable | src/parsers/python_parser.py:205-236 | without a docstring and without the model the fallback is used |
| PythonParser.NameDescription | src/parsers/python_parser.py:344-348 | the description starts with `Function that handles ` and contains no underscore |
| PythonParser.FunctionFallback | src/parsers/python_parser.py:215-236 | the fallback for a plain function is never empty |
| PythonParser.FunctionFallbackOrder | src/parsers/python_parser.py:218-236 | the prefixes `test_`, `get_`, `set_`, `create_`, `delete_`, `update_` are tried in that order, then `__init__`, then dunder names, then the name's words |
| PythonParser.FunctionFallbackNoUnderscore | src/parsers/python_parser.py:218-236 | apart from dunder names the fallback contains no underscore |
| PythonParser.LabelledNoUnderscore | src/parsers/python_parser.py:220 | a label without underscores followed by the rest with underscores replaced by spaces has no underscore |
| PythonParser.AsyncFallback | src/parsers/python_parser.py:261 | the async fallback starts with `Async function that handles ` and has no underscore |
| PythonParser.ClassFallback | src/parsers/python_parser.py:284-296 | the class fallback is never empty |
| PythonParser.ClassFallbackTestClass | src/parsers/python_parser.py:289-290 | a `Test class for X` description names the class `XTest` |
| PythonParser.ClassFallbackExceptionFirst | src/parsers/python_parser.py:285-286 | a base whose name contains `Exception` makes the description `Custom exception class` whatever the name |
| PythonParser.ApiName | src/parsers/python_parser.py:160-186 | the recorded name ends with the node's name |
| PythonParser.CreateApiInfo | src/parsers/python_parser.py:154-191 | the record carries the node's name, the file, the node's line as start, an end line no earlier and within the file, and a non-empty description |
| PythonParser.Skillsets | src/parsers/python_parser.py:386-396 | `Python` is always among the skillsets and they are strictly sorted |
| PythonParser.IdentifySkillsets | src/parsers/python_parser.py:386-396 | the loop over the framework table computes `Skillsets` |
| PythonParser.SkillsetsMembers | src/parsers/python_parser.py:386-396 | the skillsets are `Python` and exactly the frameworks with a matching pattern |
| PythonParser.Parse | src/parsers/python_parser.py:103-152 | the fragment has the file's path and suffix, contains `Python`, and one API per definition node in walk order with that node's line |
| PythonParser.ParseSyntaxError | src/parsers/python_parser.py:126-133 | a file that does not parse gives no APIs and exactly the skillset `Python` |
| JavaScriptParser.SupportsExtensionIgnoresCase | src/parsers/javascript_parser.py:111-113 | an extension is supported exactly when its lower-cased form is one of the listed extensions, so the answer ignores case |
| JavaScriptParser.ScanLine | src/parsers/javascript_parser.py:284-293 | a line that does not close the definition leaves the counter raised by the line's brace balance and `found_opening` set once a `{` has been seen |
| JavaScriptParser.ScanLineClosesAt | src/parsers/javascript_parser.py:288-293 | a line that closes the definition has a `}` at which the count returns to zero after an opening brace |
| JavaScriptParser.ClosesAtScanLine | src/parsers/javascript_parser.py:288-293 | a `}` at which the count returns to zero after an opening brace closes the definition |
| JavaScriptParser.ScanLineCloses | src/parsers/javascript_parser.py:284-293 | a line closes the definition exactly when some `}` in it brings the count to zero after an opening brace |
| JavaScriptParser.FunctionEndFrom | src/parsers/javascript_parser.py:280-301 | the line loop ends after the start line, on a line of the file or on the fallback `start_index + 1` |
| JavaScriptParser.FunctionEndLine | src/parsers/javascript_parser.py:275-301 | the end line follows the start index and is a line of the file or the fallback `start_index + 1` |
| JavaScriptParser.ScanChars | src/parsers/javascript_parser.py:284-293 | the character loop over one line computes `ScanLine` |
| JavaScriptParser.FindFunctionEndLine | src/parsers/javascript_parser.py:275-301 | the nested loops, with the early returns for a closing brace and for an arrow function without braces, compute `FunctionEndLine` |
| JavaScriptParser.FindClassEndLine | src/parsers/javascript_parser.py:303-305 | a class ends where a function starting on the same line would |
| JavaScriptParser.FunctionEndAfter | src/parsers/javascript_parser.py:280-299 | lines that do not end the definition can be skipped with the counter they leave behind |
| JavaScriptParser.FunctionEndFirst | src/parsers/javascript_parser.py:292-299 | the end line is the first line (1-based) that closes the braces or ends a brace-less arrow function |
| JavaScriptParser.FunctionEndFallback | src/parsers/javascript_parser.py:301 | when no line ends the definition, the end line is `start_index + 1` |
| JavaScriptParser.EndFrom | src/parsers/javascript_parser.py:309-313 | the search for the first ending line gives the fallback or a line after the current index within the file |
| JavaScriptParser.EndFromAfter | src/parsers/javascript_parser.py:309-313 | lines that do not end the search can be skipped |
| JavaScriptParser.EndFromFirst | src/parsers/javascript_parser.py:311-312 | the search returns the line after the first ending line |
| JavaScriptParser.TypeEndLine | src/parsers/javascript_parser.py:307-313 | the end line of a type follows the start index and is a line of the file or `start_index + 1` |
| JavaScriptParser.FindTypeEndLine | src/parsers/javascript_parser.py:307-313 | the loop over the lines computes `TypeEndLine` |
| JavaScriptParser.CloserRejects | src/parsers/javascript_parser.py:310-311 | a line the type-end test rejects is rejected by the search's ending predicate |
| JavaScriptParser.CloserAccepts | src/parsers/javascript_parser.py:310-311 | a line the type-end test accepts is accepted by the search's ending predicate |
| JavaScriptParser.TypeEndFirst | src/parsers/javascript_parser.py:309-312 | the end line is the first line whose stripped text ends with `;`, or with `}` when the start line has a `{` |
| JavaScriptParser.TypeEndFallback | src/parsers/javascript_parser.py:313 | when no line ends the type, the end line is `start_index + 1` |
| JavaScriptParser.DocGroup | src/parsers/javascript_parser.py:227 | a match of `\*\s*(.+)` is a non-empty tail of the line that starts with a non-space, or is the single last character |
| JavaScriptParser.DocGroupMatches | src/parsers/javascript_parser.py:225-227 | every line containing `* ` matches the JSDoc pattern |
| JavaScriptParser.Window | src/parsers/javascript_parser.py:223 | the window is at most the four lines just above the declaration line |
| JavaScriptParser.JsDocEmptyDescription | src/parsers/javascript_parser.py:224-229 | as written, a ` * ` line just above the function gives the empty description |
| JavaScriptParser.JsDocAsWrittenBlank | src/parsers/javascript_parser.py:224-229 | as written, a candidate line whose group is one space gives the empty description |
| JavaScriptParser.BlankStarIsDocLine | src/parsers/javascript_parser.py:225 | the line ` * ` is a JSDoc candidate |
| JavaScriptParser.BlankStarGroup | src/parsers/javascript_parser.py:227 | the JSDoc pattern's group on ` * ` is a single space |
| JavaScriptParser.JsDoc | src/parsers/javascript_parser.py:224-229 | a JSDoc description found by the corrected search is never empty |
| JavaScriptParser.JsDocFound | src/parsers/javascript_parser.py:228-229 | a description found starts with neither `@` nor whitespace |
| JavaScriptParser.JsDocAgrees | src/parsers/javascript_parser.py:224-229 | the corrected search agrees with the search as written whenever the latter does not give the empty description |
| JavaScriptParser.PrefixAffixed | src/parsers/javascript_parser.py:234-248 | dropping a matched name prefix leaves a stem of the name |
| JavaScriptParser.SuffixAffixed | src/parsers/javascript_parser.py:249-252 | dropping a matched `Handler`/`Callback` suffix leaves a stem of the name |
| JavaScriptParser.NameLabelStem | src/parsers/javascript_parser.py:232-254 | the part of the name each pattern-based description lower-cases is the whole name or the name minus the prefix or suffix it matched |
| JavaScriptParser.FunctionDescriptionAgrees | src/parsers/javascript_parser.py:219-254 | the modelled function description equals the description as written unless the as-written JSDoc search gives the empty string |
| JavaScriptParser.ClassDescriptionName | src/parsers/javascript_parser.py:256-273 | the `extends` description and the default description embed the lower-cased class name |
| JavaScriptParser.ClassDescriptionComponent | src/parsers/javascript_parser.py:260-261 | a `Component` description embeds the lower-cased name without its `Component` suffix |
| JavaScriptParser.FirstMatchFirst | src/parsers/javascript_parser.py:169-183 | a name is found exactly when some pattern matches, and it is the first matching pattern's |
| JavaScriptParser.FunctionEntry | src/parsers/javascript_parser.py:169-183 | a line gives at most one function, starting on that line and ending on a line of the file |
| JavaScriptParser.ClassEntry | src/parsers/javascript_parser.py:186-198 | a line gives at most one class, starting on that line and ending on a line of the file |
| JavaScriptParser.TypeEntry | src/parsers/javascript_parser.py:201-215 | a line gives at most one interface or type, starting on that line and ending on a line of the file |
| JavaScriptParser.LineApis | src/parsers/javascript_parser.py:163-215 | a line gives at most three APIs, each starting on it, and a blank or comment line gives none |
| JavaScriptParser.LineApisEntries | src/parsers/javascript_parser.py:163-215 | every API from a line starts on that line, which is not skipped, and ends within the file |
| JavaScriptParser.CollectPrefix | src/parsers/javascript_parser.py:163 | what the first lines contribute is a prefix of what more lines contribute |
| JavaScriptParser.CollectLines | src/parsers/javascript_parser.py:163-215 | entries gathered line by line start on lines `1..n` and come out ordered by start line |
| JavaScriptParser.ExtractedApisFromLines | src/parsers/javascript_parser.py:140-217 | every extracted API starts on a non-skipped line of the file, ends within it, and the list is ordered by start line |
| JavaScriptParser.ExtractedApisStep | src/parsers/javascript_parser.py:163-215 | one more line appends exactly that line's APIs |
| JavaScriptParser.ExtractedApisPrefix | src/parsers/javascript_parser.py:163-215 | the APIs of a prefix of the lines are a prefix of the APIs |
| JavaScriptParser.FindFirstMatch | src/parsers/javascript_parser.py:169-183 | the loop over the patterns, breaking at the first match, computes `FirstMatch` |
| JavaScriptParser.ApisOfLine | src/parsers/javascript_parser.py:164-215 | the body of the line loop computes `LineApis` |
| JavaScriptParser.ExtractApis | src/parsers/javascript_parser.py:140-217 | the APIs of the content split on newlines are `ExtractedApis` of all its lines |
| JavaScriptParser.ExtractLines | src/parsers/javascript_parser.py:163-217 | the loop over the lines computes `ExtractedApis` |
| JavaScriptParser.Skillsets | src/parsers/javascript_parser.py:315-331 | `JavaScript` is always among the skillsets and they are strictly sorted |
| JavaScriptParser.IdentifySkillsets | src/parsers/javascript_parser.py:315-331 | the loop over the framework table computes `Skillsets` |
| JavaScriptParser.SkillsetsMembers | src/parsers/javascript_parser.py:315-331 | the skillsets are `JavaScript`, `TypeScript` for a `.ts`/`.tsx` path, and exactly the frameworks with a matching pattern |
| JavaScriptParser.Parse | src/parsers/javascript_parser.py:119-138 | the fragment has the path's suffix, the APIs of every line in order, the file's skillsets and the path |
| AnalysisOrchestrator.PythonParserInfoAgrees | src/parsers/python_parser.py:95-97 | the registry entry of the Python parser supports exactly the extensions the Python parser does |
| AnalysisOrchestrator.JavaScriptParserInfoAgrees | src/parsers/javascript_parser.py:111-113 | the registry entry of the JavaScript parser supports exactly the extensions the JavaScript parser does |
| AnalysisOrchestrator.FirstSupporting | src/services/analysis_orchestrator.py:159-175 | a parser found is an index into the registered parsers |
| AnalysisOrchestrator.FirstSupportingFirst | src/services/analysis_orchestrator.py:169-175 | the parser found is the first registered one that supports the lower-cased suffix, and none is found only when no parser supports it |
| AnalysisOrchestrator.FirstSupportingAppend | src/services/analysis_orchestrator.py:32-40 | registering a parser never changes which earlier parser handles an extension; the new one is used only where none did |
| AnalysisOrchestrator.AllExtensionsMembers | src/services/analysis_orchestrator.py:228-230 | the collected extensions are exactly those some registered parser lists |
| AnalysisOrchestrator.SupportedExtensionsUnion | src/services/analysis_orchestrator.py:221-231 | the supported extensions are strictly sorted and are exactly those some registered parser lists |
| AnalysisOrchestrator.Kept | src/services/analysis_orchestrator.py:115-120 | filtering the listing never gives more names than items |
| AnalysisOrchestrator.KeptMembers | src/services/analysis_orchestrator.py:116-120 | a name is kept exactly when some item of the listing with that name passes the test |
| AnalysisOrchestrator.SortedKeptSpec | src/services/analysis_orchestrator.py:115-124 | the file names are sorted and are exactly the names of listed items that pass the test; an unreadable directory gives none |
| AnalysisOrchestrator.SelectFiles | src/services/analysis_orchestrator.py:115-124 | the loop over the directory listing computes `SortedKept` |
| AnalysisOrchestrator.GetSourceFiles | src/services/analysis_orchestrator.py:79-124 | `_get_source_files` computes `SourceFiles` |
| AnalysisOrchestrator.SourceFilesSpec | src/services/analysis_orchestrator.py:79-124 | the source files are sorted and are exactly the non-hidden files whose lower-cased suffix is a source extension |
| AnalysisOrchestrator.BumpCount | src/services/analysis_orchestrator.py:65 | `file_type_counts[ext] += 1` raises the count of `ext` by one and leaves every other count alone |
| AnalysisOrchestrator.BumpTotal | src/services/analysis_orchestrator.py:65 | one increment raises the sum of the counts by one |
| AnalysisOrchestrator.BumpKeys | src/services/analysis_orchestrator.py:65 | after an increment the keys are the old keys and the incremented key |
| AnalysisOrchestrator.BumpDistinct | src/services/analysis_orchestrator.py:60-65 | an increment keeps the keys distinct |
| AnalysisOrchestrator.Keys | src/services/analysis_orchestrator.py:76 | the keys are the first components of the entries, in order |
| AnalysisOrchestrator.CountByCount | src/services/analysis_orchestrator.py:62-65 | the count of a key is the number of items with that key |
| AnalysisOrchestrator.CountByTotal | src/services/analysis_orchestrator.py:62-65 | the counts add up to the number of items |
| AnalysisOrchestrator.CountByDistinct | src/services/analysis_orchestrator.py:60-65 | the counted keys are distinct |
| AnalysisOrchestrator.CountByKeys | src/services/analysis_orchestrator.py:62-65 | a key is counted exactly when some item has it |
| AnalysisOrchestrator.CountByStep | src/services/analysis_orchestrator.py:62-65 | counting one more item increments that item's key |
| AnalysisOrchestrator.FileTypeCountsSpec | src/services/analysis_orchestrator.py:60-65 | the file-type counts have distinct keys, add up to the number of files, count each lower-cased suffix by its occurrences, and list exactly the suffixes that occur |
| AnalysisOrchestrator.AllSkillsetsMembers | src/services/analysis_orchestrator.py:198-200 | the gathered skillsets are exactly those of some fragment |
| AnalysisOrchestrator.AggregateApis | src/services/analysis_orchestrator.py:194-203 | the aggregated APIs are a permutation of all fragments' APIs, sorted by source file and start line |
| AnalysisOrchestrator.AggregateSkillsets | src/services/analysis_orchestrator.py:195-206 | the required skillsets are strictly sorted and are exactly the skillsets of some fragment |
| AnalysisOrchestrator.AggregateAnalysisResults | src/services/analysis_orchestrator.py:177-219 | the loop over the fragments followed by the sorts computes `Aggregate` |
| AnalysisOrchestrator.Fragments | src/services/analysis_orchestrator.py:62-70 | there are never more fragments than files |
| AnalysisOrchestrator.FragmentsStep | src/services/analysis_orchestrator.py:68-70 | one more file appends its fragment when it has a parser and could be read and parsed, and nothing otherwise |
| AnalysisOrchestrator.FragmentsUnsupported | src/services/analysis_orchestrator.py:137-140 | when no parser supports any file there are no fragments |
| AnalysisOrchestrator.AnalyzeDirectoryCounts | src/services/analysis_orchestrator.py:42-77 | every source file is counted under its lower-cased suffix, whether or not it parses: the counts add up to the number of source files |
| AnalysisOrchestrator.Orchestrator.constructor | src/services/analysis_orchestrator.py:22-30 | a new orchestrator has exactly the Python parser registered |
| AnalysisOrchestrator.Orchestrator.RegisterParser | src/services/analysis_orchestrator.py:32-40 | registering appends the parser to the list |
| AnalysisOrchestrator.Orchestrator.FindParserForFile | src/services/analysis_orchestrator.py:159-175 | the loop over the parsers computes `FirstSupporting` of the file's lower-cased suffix |
| AnalysisOrchestrator.Orchestrator.AnalyzeFileWith | src/services/analysis_orchestrator.py:126-157 | `_analyze_file` computes `AnalyzeFile`: no parser, an unreadable file or a parser error give no fragment |
| AnalysisOrchestrator.Orchestrator.AnalyzeDirectoryIn | src/services/analysis_orchestrator.py:42-77 | the loop over the source files computes `AnalyzeDirectory` |
| AnalysisOrchestrator.Orchestrator.GetSupportedExtensions | src/services/analysis_orchestrator.py:221-231 | the loop over the parsers computes `SupportedExtensions` |
| SemanticOrchestrator.SelectedFilesSpec | semantic/src/services/analysis_orchestrator.py:89-141 | the files are sorted and are exactly the non-hidden source files of the listing that the configuration does not exclude |
| SemanticOrchestrator.GetSourceFiles | semantic/src/services/analysis_orchestrator.py:126-141 | the loop over the listing with the exclusion check computes `SelectedFiles` |
| SemanticOrchestrator.AggregateWithModelApis | semantic/src/services/analysis_orchestrator.py:169-190 | the model's APIs, when there are any, replace the fragments' APIs; the result is a permutation of the chosen APIs sorted by file and line |
| SemanticOrchestrator.AggregateWithModelSkillsets | semantic/src/services/analysis_orchestrator.py:174-193 | the required skillsets are strictly sorted and are exactly the model's skillsets and those of some fragment |
| SemanticOrchestrator.AggregateAnalysisResults | semantic/src/services/analysis_orchestrator.py:145-206 | the two branches over the fragments followed by the sorts compute `AggregateWithModel` |
| SemanticOrchestrator.ModelResultsUnavailable | semantic/src/services/analysis_orchestrator.py:62 | when the model is unavailable no APIs and no skillsets are reported |
| SemanticOrchestrator.ModelResultsStep | semantic/src/services/analysis_orchestrator.py:56-76 | one more file adds the model's APIs and skillsets for it when it could be read and the model is available, and nothing otherwise |
| SemanticOrchestrator.AnalyzeDirectoryCounts | semantic/src/services/analysis_orchestrator.py:51-54 | every selected file is counted under its lower-cased suffix, whether or not it could be read |
| SemanticOrchestrator.AnalyzeDirectoryWith | semantic/src/services/analysis_orchestrator.py:26-87 | the loop over the selected files computes `AnalyzeDirectory` |
| Config.Get | src/services/config.py:59 | a key is found exactly when the mapping has an entry for it, and the value found is one of that key's values |
| Config.StringsMembers | src/services/config.py:65-70 | the kept patterns are exactly the string items of the list |
| Config.StringsConcat | src/services/config.py:66-70 | filtering a concatenation filters each part |
| Config.ExcludePatternsCases | src/services/config.py:52-73 | a missing or non-list `exclude` gives no patterns; otherwise the patterns are exactly the list's strings |
| Config.GetExcludePatterns | src/services/config.py:52-73 | the loop over the list, skipping non-strings, computes `ExcludePatterns` |
| Config.RelativeTo | src/services/config.py:90-94 | the relative path exists exactly when the path lies under the root, and root plus relative path give the path back |
| Config.NotExcluded | src/services/config.py:85-94 | without patterns, or outside the root, nothing is excluded |
| Config.DirectoryPatternExcludes | src/services/config.py:101-106 | a `name/` pattern excludes every path under the root with a component `name` below the root |
| Config.ShouldExcludePath | src/services/config.py:75-118 | the loop over the patterns, returning at the first match, computes `Excluded` |
| Config.OutputFormatListRaises | src/services/config.py:127-130 | as written, a list as `output_format` makes the membership test raise instead of falling back |
| Config.OutputFormat | src/services/config.py:120-134 | the format is always `agents` or `claude` |
| Config.OutputFormatCases | src/services/config.py:127-134 | the format is `claude` exactly when the configuration says `claude`; a missing setting gives `agents` |
| Config.OutputFormatAgrees | src/services/config.py:127-134 | wherever the code as written returns a format it returns the corrected one, and it raises exactly for a list or mapping value |
| Config.FormatToFilename | src/services/config.py:136-150 | the file name is `claude.md` exactly for the `claude` format and `agents.md` for everything else |
| Config.FormatFilename | src/services/config.py:120-150 | the configured format names its own file, `<format>.md` |
| LlmUsageMetrics.Lookup | src/services/llm_usage_metrics.py:95-104 | a value found is the key's entry in the table, and nothing is found only when the key is missing |
| LlmUsageMetrics.PricesNonNegative | src/services/llm_usage_metrics.py:54-66 | every listed price is non-negative |
| LlmUsageMetrics.EstimateCost | src/services/llm_usage_metrics.py:76-108 | an unknown provider or model costs `0.0` |
| LlmUsageMetrics.EstimateCostNonNegative | src/services/llm_usage_metrics.py:104-108 | a call with non-negative token counts never costs less than nothing |
| LlmUsageMetrics.EstimateCostAdditive | src/services/llm_usage_metrics.py:105-108 | the estimate is additive in the token counts: two calls to one model cost what one call with all their tokens costs |
| LlmUsageMetrics.UsageCollector.constructor | src/services/llm_usage_metrics.py:68-74 | a new collector has all totals zero and has logged no call |
| LlmUsageMetrics.UsageCollector.LogUsage | src/services/llm_usage_metrics.py:110-155 | the call is recorded with its total tokens and estimated cost, and each running total grows by the call's share, so the totals stay the sums over the logged calls |
| LlmUsageMetrics.UsageCollector.GetSessionSummary | src/services/llm_usage_metrics.py:157-171 | the total tokens are input plus output tokens, and the average cost times the number of calls is the total cost (zero without calls) |
| LlmUsageMetrics.SessionCost | src/services/llm_usage_metrics.py:104-150 | the session cost of logged calls is non-negative and, for calls to one model, equals the cost of all their tokens at once |
| LlmClient.FindChar | src/services/llm_client.py:49 | the index found is the first occurrence of the character, and `-1` exactly when it does not occur |
| LlmClient.ParseEnvLineSkips | src/services/llm_client.py:47-48 | a line is skipped exactly when its stripped text is empty, starts with `#` or has no `=` |
| LlmClient.ParseEnvLineKey | src/services/llm_client.py:49-50 | a parsed key has no `=` and no surrounding whitespace |
| LlmClient.ParseEnvLineValue | src/services/llm_client.py:51 | a parsed value neither starts nor ends with `'` |
| LlmClient.UnquoteEnds | src/services/llm_client.py:51 | after the strip chain the value neither starts nor ends with `'` |
| LlmClient.StripInside | src/services/llm_client.py:47 | stripping never adds a character |
| LlmClient.RStripNoop | src/services/llm_client.py:47 | a text that does not end in whitespace is its own right-strip |
| LlmClient.StripNoop | src/services/llm_client.py:47 | a text without whitespace at either end is its own strip |
| LlmClient.StripCharNoop | src/services/llm_client.py:51 | stripping a character a text does not start or end with leaves it alone |
| LlmClient.UnquoteNoop | src/services/llm_client.py:51 | a clean value (no quotes or whitespace at its ends) survives the strip chain unchanged |
| LlmClient.FindCharAfter | src/services/llm_client.py:49 | in `key=rest` with no `=` in the key, the first `=` is right after the key |
| LlmClient.StripCleanLine | src/services/llm_client.py:47 | surrounding whitespace is stripped from a `key=value` line |
| LlmClient.ParseEnvLineAt | src/services/llm_client.py:47-51 | a kept line splits at its first `=` into the stripped key and the unquoted value |
| LlmClient.CleanLineParts | src/services/llm_client.py:48-49 | a `key=value` line with a clean key is kept and splits back into that key and value |
| LlmClient.ParseCleanLine | src/services/llm_client.py:47-51 | a line that strips to `key=value` for a clean key and value parses to exactly that pair |
| LlmClient.EnvLineRoundTrip | src/services/llm_client.py:46-51 | writing a clean pair as `key=value` with any blank padding and parsing it gives the pair back |
| LlmClient.EnvAfterLast | src/services/llm_client.py:52 | after one more line, a key it sets has that line's value and every other key keeps its value |
| LlmClient.EnvAfterKeys | src/services/llm_client.py:46-52 | after the lines, a key is set exactly when it was set before or some line sets it |
| LlmClient.EnvAfterLastWins | src/services/llm_client.py:46-52 | a key set by several lines has the value of the last of them |
| LlmClient.EnvAfterStep | src/services/llm_client.py:46-52 | one more line updates the environment with its pair when it parses, and leaves it alone otherwise |
| LlmClient.FirstFailure | src/services/llm_client.py:52-55 | the index found is the first line whose assignment the environment refuses, or the number of lines when none is refused |
| LlmClient.ApplyEnvLines | src/services/llm_client.py:46-55 | the loop sets each parsed pair in order and stops at the first refused assignment, computing `Applied` |
| LlmClient.LoadEnvLines | src/services/llm_client.py:40-57 | loading the lines of the file computes `LoadedEnv` |
| LlmClient.AppliedWhole | src/services/llm_client.py:46-52 | when no assignment is refused, every line is applied |
| LlmClient.AppliedStops | src/services/llm_client.py:54-55 | once an assignment is refused, lines after it change nothing |
| LlmClient.EmptyKeyStops | src/services/llm_client.py:49-55 | a line `=value` (empty key) is refused and ends the loading: later lines are not applied |
| LlmClient.FitCount | src/services/llm_client.py:176-178 | at most all the contents fit whole |
| LlmClient.BlocksFirst | src/services/llm_client.py:178 | the blocks of a non-empty prefix are the first block followed by the blocks of the rest |
| LlmClient.PieceShift | src/services/llm_client.py:180-183 | the truncated piece at index `k` is the piece at `k - 1` of the contents without their first element |
| LlmClient.WholeStep | src/services/llm_client.py:177-178 | a content that fits is added whole before the rest is combined |
| LlmClient.TailStep | src/services/llm_client.py:176-184 | a content that fits does not change which content is truncated |
| LlmClient.StopStep | src/services/llm_client.py:179-184 | the first content that does not fit ends the loop, added truncated only when more than 500 characters remain |
| LlmClient.CombineShape | src/services/llm_client.py:173-186 | the combined text is the blocks of the contents that fit whole, followed by at most one truncated block |
| LlmClient.CombineBound | src/services/llm_client.py:176-184 | starting below the limit, the combined text stays below the limit |
| LlmClient.CombineFileContentsBound | src/services/llm_client.py:162-186 | the combined text is shorter than `max_tokens * 4` characters |
| LlmClient.CombineFiles | src/services/llm_client.py:162-186 | the loop with its early `break` computes `CombineFileContents` |
| LlmClient.CleanedStep | src/services/llm_client.py:238-244 | one more part appends its cleaned tag when the tag has 2 to 50 characters, and nothing otherwise |
| LlmClient.ParseSkillsetsResponse | src/services/llm_client.py:220-247 | an empty response gives no tags, and never more than ten tags |
| LlmClient.FirstTen | src/services/llm_client.py:247 | the first ten tags are a prefix of at most ten, and all of them when there are at most ten |
| LlmClient.ParseSkillsetsWellFormed | src/services/llm_client.py:230-247 | every tag has 2 to 50 characters, no comma and no whitespace at its ends |
| LlmClient.FirstTenWellFormed | src/services/llm_client.py:247 | cutting to ten keeps every tag well formed |
| LlmClient.CleanTagInside | src/services/llm_client.py:240 | cleaning a tag adds no character and leaves no whitespace at its ends |
| LlmClient.CleanTagWellFormed | src/services/llm_client.py:234-240 | a cleaned comma-free part has no comma and no whitespace at its ends |
| LlmClient.CleanedWellFormed | src/services/llm_client.py:238-244 | the kept tags of comma-free parts are well formed |
| LlmClient.CleanedConcat | src/services/llm_client.py:238-244 | cleaning a concatenation cleans each part |
| LlmClient.CleanTagNoop | src/services/llm_client.py:240 | a clean skillset name survives cleaning unchanged |
| LlmClient.CleanedNoop | src/services/llm_client.py:238-244 | parts that are already clean and of valid length are all kept unchanged |
| LlmClient.CleanTagsNoop | src/services/llm_client.py:238-244 | clean skillset names are all kept unchanged |
| LlmClient.ParseSkillsetsOf | src/services/llm_client.py:230-247 | a non-empty response gives the first ten cleaned and kept parts of its comma split |
| LlmClient.SplitJoinCommas | src/services/llm_client.py:234 | splitting comma-joined clean names at commas gives the names back |
| LlmClient.SkillsetsRoundTrip | src/services/llm_client.py:220-247 | parsing the comma-joined list of clean skillset names gives back the first ten of them |
| LlmClient.JoinNonEmpty | src/services/llm_client.py:230-234 | joining parts whose first part is not empty gives a non-empty text |
| LlmClient.ParseSkillsets | src/services/llm_client.py:220-247 | the loop over the split parts computes `ParseSkillsetsResponse` |
| LlmClient.TruncateDescription | src/services/llm_client.py:152-153 | a description is at most 200 characters: short ones are unchanged, longer ones keep their first 197 characters and end with `...` |
| LlmClient.TruncateIdempotent | src/services/llm_client.py:152-153 | truncating twice is truncating once |
| LlmClient.ApiDescription | src/services/llm_client.py:112-160 | without the client, a failed call or no content, the description is `Function <name> in <file>`; otherwise it is at most 200 characters |
| LlmClient.ApiDescriptionAnswer | src/services/llm_client.py:150-156 | an answer is stripped and kept whole up to 200 characters, and otherwise cut to its first 197 characters and `...` |
| LlmClient.Skillsets | src/services/llm_client.py:63-110 | without the client or after a failed call there are no skillsets, and never more than ten |
| LlmClient.GenerateSkillsets | src/services/llm_client.py:63-110 | returns `Skillsets`; a completed call logs exactly one `gpt-3.5-turbo` `skillset_detection` entry with the reply's token counts, and otherwise nothing is logged |
| LlmClient.GenerateApiDescription | src/services/llm_client.py:112-160 | returns `ApiDescription`; a completed call logs exactly one `gpt-3.5-turbo` `api_description` entry with the reply's token counts, and otherwise nothing is logged |

## Left out

- `JavaScriptParser.FunctionDescription` uses the corrected JSDoc search `JsDoc`, not `JsDocAsWritten`. So the descriptions of extracted JavaScript APIs (`FunctionEntry`, `LineApis`, `ExtractApis`, `Parse`) are those of the intended program. The program as written gives an empty description when a blank ` * ` line is the JSDoc line nearest the declaration (see Findings). `FunctionDescriptionAsWritten` models the code as written, and `FunctionDescriptionAgrees` proves the two equal whenever the search as written does not give the empty string.
- `Text.Lower` lower-cases ASCII letters only, while Python's `str.lower()` follows Unicode. For example, `Ärger` lowers to `ärger` in the program but stays `Ärger` here. A suffix written with the Kelvin sign, `.Kt`, lowers to `.kt` in the program, which then counts the file as Kotlin source; the model does not. This affects the source-suffix tests (`TraversalEngine.IsSourceFile`, `AnalysisOrchestrator.IsSource`, `AnalysisOrchestrator.Extension`), both `SupportsExtension` predicates and the lower-cased words in the description fallbacks. It matters only for names with non-ASCII letters.
- `Config.Get` takes the loaded `.semanticsrc` document as a list of key/value pairs, so the document is always a mapping. A file whose top level is a list or a scalar makes `self._config_data.get` raise `AttributeError` (src/services/config.py:59, 127). In the model-based orchestrator that exception is not caught by the `PermissionError`/`OSError` handler (semantic/src/services/analysis_orchestrator.py:138), so it escapes `analyze_directory`. The model has no such document and no such exception.
- `Config.GetExcludePatterns` and the other configuration members: loading the file (`_load_config`, the YAML parser, `has_config_file`, `create_example_config`) is file I/O and is left out. The parsed document is an input.
- `LlmUsageMetrics.EstimateCost`, `LlmUsageMetrics.EstimateCostAdditive`, `LlmUsageMetrics.SessionCost` and `LlmUsageMetrics.UsageCollector.GetSessionSummary` compute costs with exact `real` numbers. The program uses binary floating point, so the additivity and the "average times calls is the total" equalities hold for the model but may be off by rounding in the program.
- `LlmClient.LoadEnvLines` models `os.environ[key] = value` refusing only two kinds of assignment: an empty name (a line `=x`) and a NUL character in the name or the value. A refusal raises inside the `try`, so the `except` at src/services/llm_client.py:54 drops that line and every line after it; the model stops in the same way. Other platform-specific refusals are not modelled. Opening and reading `.env` from the working directory is I/O: the file's lines are an input.
- `LlmClient.ParseEnvLineValue` states only that no `'` is left at either end of a value. That is what the strip chain `strip().strip('"').strip("'")` guarantees. A `"` can survive, for example in `'"x"'`.
- `LlmClient.GenerateSkillsets` and `LlmClient.GenerateApiDescription` take the outcome of the network call as an input (`None` when the request raised). The request itself, the prompt builders `_build_skillsets_prompt` and `_build_api_description_prompt` (whose text only goes into that request), the provider modules and the asynchronous client of the `semantic` package are foreign calls and are left out. The global client and usage collector are passed explicitly.
- `SemanticOrchestrator.AnalyzeDirectoryWith` takes the model's per-file analysis (`analyze_file_comprehensively`) and the file reads as inputs. It roots the configuration at the directory's parent without checking that the parent exists, since the parent of a listed directory always does.
- `AnalysisOrchestrator.Orchestrator.AnalyzeFileWith` takes reading and parsing a file as the input `parse`, which gives `None` for a read error or a parser exception. The parsers themselves are modelled in their own modules.
- `PythonParser.Parse` takes the definition nodes in `ast.walk` order, or `None` for a syntax error, instead of running `ast`. Regular expressions (`re.search`, the JavaScript declaration patterns) and `fnmatch` are abstract parameters.
- `TraversalEngine.Traverse` takes the filesystem as a tree value. Directory listings that fail are marked unreadable. Symbolic links, `resolve()` and paths with `..` are not modelled.
- `AnalysisOrchestrator.Orchestrator.GetSupportedExtensions` takes each parser's extensions as a list. The parsers return `list(set)`, whose order Python does not fix; the result is sorted either way.
- `SummaryGenerator.CreateMetadata` takes the timestamp as an input instead of reading the clock. `write_to_file`, the CLI, logging and the git calls of the VCS interface are left out as I/O.

## Findings

| source | as written | input that shows it | evidently intended | confidence | as-written member | corrected member |
|---|---|---|---|---|---|---|
| src/parsers/javascript_parser.py:224-229 | the JSDoc search returns the stripped group of the nearest line containing `* `. For a blank ` * ` line the group is a single space, so the description is `""` | the lines `/**`, ` * Adds two numbers`, ` * ` directly above `function add(a, b) {`: the nearest candidate is the blank ` * `, so `add` gets the empty description | skip candidates whose description strips to nothing and use `Adds two numbers`, or fall back to the name-based description | not executed | `JavaScriptParser.JsDocEmptyDescription` (on `JsDocAsWritten`) | `JavaScriptParser.JsDocFound` and `JavaScriptParser.JsDocAgrees` (on `JsDoc`) |
| src/services/config.py:127-134 | `format_value not in {'agents', 'claude'}` raises `TypeError` when the configured value is a list or a mapping, since such values are unhashable | a `.semanticsrc` with `output_format: [claude]` | log the invalid value and fall back to `agents`, as for any other invalid value | not executed | `Config.OutputFormatListRaises` (on `OutputFormatAsWritten`) | `Config.OutputFormatCases` and `Config.OutputFormatAgrees` (on `OutputFormat`) |
