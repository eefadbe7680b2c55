/**
 * The agents.md document builder: the three section summaries, the table of
 * contents with its line ranges, and the markdown serialisation.
 *
 * The central property is that the table of contents is accurate: every
 * `start_line` it records is the line of that section's `## ...` header in the
 * serialised document, and the last section ends on the document's last line.
 */
module SummaryGenerator {
  import opened Text
  import opened Order
  import opened Model

  // ---------------------------------------------------------------------
  // File types

  function FileTypeLine(item: (string, int)): string {
    "- " + item.0 + ": " + IntToString(item.1)
  }

  /** The lines of the file-types summary, one per item, items in tuple order. */
  function FileTypeLines(fileTypes: seq<(string, int)>): (r: seq<string>)
    ensures |r| == |fileTypes|
  {
    MapSeq(FileTypeLine, SortBy(fileTypes, ItemLe))
  }

  method GenerateFileTypesSummary(fileTypes: seq<(string, int)>) returns (summary: string)
    ensures summary == Join(FileTypeLines(fileTypes), "\n")
  {
    if |fileTypes| == 0 {
      return "";
    }
    var items := SortBy(fileTypes, ItemLe);
    var lines: seq<string> := [];
    for i := 0 to |items|
      invariant lines == MapSeq(FileTypeLine, items[..i])
    {
      assert items[..i + 1][..i] == items[..i];
      lines := lines + [FileTypeLine(items[i])];
    }
    assert items[..|items|] == items;
    summary := Join(lines, "\n");
  }

  /** Sorting the items of a dict orders them by strictly increasing key. */
  lemma SortedItemsStrict(fileTypes: seq<(string, int)>)
    requires DistinctKeys(fileTypes)
    ensures var items := SortBy(fileTypes, ItemLe);
      forall i, j :: 0 <= i < j < |items| ==> StrLt(items[i].0, items[j].0)
  {
    var items := SortBy(fileTypes, ItemLe);
    ItemLeIsTotalPreorder();
    forall i, j | 0 <= i < j < |fileTypes|
      ensures !(ItemLe(fileTypes[i], fileTypes[j]) && ItemLe(fileTypes[j], fileTypes[i]))
    {
      if ItemLe(fileTypes[i], fileTypes[j]) && ItemLe(fileTypes[j], fileTypes[i]) {
        StrLeAntisym(fileTypes[i].0, fileTypes[j].0);
      }
    }
    SortByStrict(fileTypes, ItemLe);
    forall i, j | 0 <= i < j < |items| ensures StrLt(items[i].0, items[j].0) {
      assert items[i] in multiset(fileTypes) && items[j] in multiset(fileTypes);
    }
  }

  /** Joining one or more lines gives a non-empty text. */
  lemma JoinNonEmpty(lines: seq<string>)
    requires |lines| >= 1 && lines[0] != ""
    ensures Join(lines, "\n") != ""
  {
    if |lines| > 1 {
      assert Join(lines, "\n") == lines[0] + "\n" + Join(lines[1..], "\n");
    }
  }

  /**
   * The file-types summary is empty exactly for an empty map; otherwise its
   * lines are one `- ext: count` line per item of the map, with the
   * extensions strictly increasing.
   */
  lemma FileTypesSummaryShape(fileTypes: seq<(string, int)>)
    requires DistinctKeys(fileTypes)
    requires forall i :: 0 <= i < |fileTypes| ==> NoNewline(fileTypes[i].0)
    ensures var summary := Join(FileTypeLines(fileTypes), "\n");
      && (summary == "" <==> fileTypes == [])
      && (fileTypes != [] ==>
            var items := SortBy(fileTypes, ItemLe);
            && multiset(items) == multiset(fileTypes)
            && (forall i, j :: 0 <= i < j < |items| ==> StrLt(items[i].0, items[j].0))
            && Lines(summary) == MapSeq(FileTypeLine, items))
  {
    if fileTypes != [] {
      var items := SortBy(fileTypes, ItemLe);
      var lines := FileTypeLines(fileTypes);
      SortedItemsStrict(fileTypes);
      forall k | 0 <= k < |lines| ensures NoNewline(lines[k]) {
        assert items[k] in multiset(fileTypes);
      }
      JoinNoNewline(lines);
      JoinNonEmpty(lines);
    }
  }

  // ---------------------------------------------------------------------
  // Required skillsets

  function SkillsetLine(skillset: string): string {
    "- " + skillset
  }

  function SkillsetLines(skillsets: seq<string>): (r: seq<string>)
    ensures |r| == |skillsets|
  {
    MapSeq(SkillsetLine, SortBy(skillsets, StrLe))
  }

  method GenerateSkillsetsSummary(skillsets: seq<string>) returns (summary: string)
    ensures summary == Join(SkillsetLines(skillsets), "\n")
  {
    if |skillsets| == 0 {
      return "";
    }
    var sorted := SortBy(skillsets, StrLe);
    var lines: seq<string> := [];
    for i := 0 to |sorted|
      invariant lines == MapSeq(SkillsetLine, sorted[..i])
    {
      assert sorted[..i + 1][..i] == sorted[..i];
      lines := lines + ["- " + sorted[i]];
    }
    assert sorted[..|sorted|] == sorted;
    summary := Join(lines, "\n");
  }

  lemma SortStringsSorted(xs: seq<string>)
    ensures Sorted(SortBy(xs, StrLe), StrLe)
  {
    StrLeIsTotalPreorder();
    SortBySorted(xs, StrLe);
  }

  lemma SkillsetLinesNoNewline(skillsets: seq<string>)
    requires forall i :: 0 <= i < |skillsets| ==> NoNewline(skillsets[i])
    ensures var lines := SkillsetLines(skillsets);
      forall k :: 0 <= k < |lines| ==> NoNewline(lines[k])
  {
    var lines := SkillsetLines(skillsets);
    var sorted := SortBy(skillsets, StrLe);
    forall k | 0 <= k < |lines| ensures NoNewline(lines[k]) {
      assert sorted[k] in multiset(skillsets);
      assert lines[k] == "- " + sorted[k];
    }
  }

  /** The skillsets summary lists every skillset once per occurrence, in sorted order. */
  lemma SkillsetsSummaryShape(skillsets: seq<string>)
    requires forall i :: 0 <= i < |skillsets| ==> NoNewline(skillsets[i])
    ensures var summary := Join(SkillsetLines(skillsets), "\n");
      && (summary == "" <==> skillsets == [])
      && (skillsets != [] ==>
            var sorted := SortBy(skillsets, StrLe);
            && multiset(sorted) == multiset(skillsets)
            && Sorted(sorted, StrLe)
            && Lines(summary) == MapSeq(SkillsetLine, sorted))
  {
    var lines := SkillsetLines(skillsets);
    if skillsets != [] {
      SortStringsSorted(skillsets);
      SkillsetLinesNoNewline(skillsets);
      JoinNoNewline(lines);
      JoinNonEmpty(lines);
    }
  }

  // ---------------------------------------------------------------------
  // APIs, grouped by source file

  /** The source file of every API, in order. */
  function SourceFilesOf(apis: seq<ApiInfo>): (r: seq<string>)
    ensures |r| == |apis| && forall i :: 0 <= i < |apis| ==> r[i] == apis[i].sourceFile
  {
    seq(|apis|, i requires 0 <= i < |apis| => apis[i].sourceFile)
  }

  /** The APIs whose source file is one of `files`, in their original order. */
  function FilterIn(apis: seq<ApiInfo>, files: seq<string>): (r: seq<ApiInfo>)
    ensures |r| <= |apis|
  {
    if apis == [] then []
    else
      var init := apis[..|apis| - 1];
      var last := apis[|apis| - 1];
      FilterIn(init, files) + (if last.sourceFile in files then [last] else [])
  }

  /** The list `apis_by_file[f]`: the APIs of one source file, in their original order. */
  function Group(apis: seq<ApiInfo>, f: string): seq<ApiInfo> {
    FilterIn(apis, [f])
  }

  function FileHeader(sourceFile: string): string {
    "### `" + BaseName(sourceFile) + "`"
  }

  function ApiLine(api: ApiInfo): string {
    "- **" + api.name + "** (lines " + IntToString(api.startLine) + "-" + IntToString(api.endLine) + "): "
    + api.semanticDescription
  }

  function ApiLines(apis: seq<ApiInfo>): (r: seq<string>)
    ensures |r| == |apis|
  {
    MapSeq(ApiLine, apis)
  }

  /** The entries of one file's group, sorted by start line. */
  function SortedGroup(apis: seq<ApiInfo>, f: string): seq<ApiInfo> {
    SortBy(Group(apis, f), StartLineLe)
  }

  /** One file's block: its header followed by its entries. */
  function Section(apis: seq<ApiInfo>, f: string): seq<string> {
    [FileHeader(f)] + ApiLines(SortedGroup(apis, f))
  }

  /** The blocks of `files` in order, each followed by a blank line. */
  function SectionsLines(apis: seq<ApiInfo>, files: seq<string>): seq<string> {
    if files == [] then []
    else SectionsLines(apis, files[..|files| - 1]) + Section(apis, files[|files| - 1]) + [""]
  }

  /** The source files, each once, in sorted order. */
  function SummaryFiles(apis: seq<ApiInfo>): seq<string> {
    SortedSet(SourceFilesOf(apis))
  }

  /** The lines of the APIs summary: the file blocks, with the final blank line removed. */
  function ApiSummaryLines(apis: seq<ApiInfo>): seq<string> {
    var all := SectionsLines(apis, SummaryFiles(apis));
    if |all| > 0 && all[|all| - 1] == "" then all[..|all| - 1] else all
  }

  /** After the first `i` APIs: the keys in insertion order and each key's list. */
  ghost predicate Grouping(apis: seq<ApiInfo>, i: int, files: seq<string>, byFile: map<string, seq<ApiInfo>>)
    requires 0 <= i <= |apis|
  {
    && files == Dedup(SourceFilesOf(apis[..i]))
    && (forall f :: f in byFile <==> f in files)
    && (forall f :: f in byFile ==> byFile[f] == Group(apis[..i], f))
  }

  /** The grouping loop: `apis_by_file` as its keys in insertion order and the list of each key. */
  method GroupByFile(apis: seq<ApiInfo>) returns (files: seq<string>, byFile: map<string, seq<ApiInfo>>)
    ensures files == Dedup(SourceFilesOf(apis))
    ensures forall f :: f in byFile <==> f in files
    ensures forall f :: f in byFile ==> byFile[f] == Group(apis, f)
  {
    files := [];
    byFile := map[];
    for i := 0 to |apis|
      invariant Grouping(apis, i, files, byFile)
    {
      files, byFile := AddToGroup(apis, i, files, byFile);
    }
    assert apis[..|apis|] == apis;
  }

  /** One iteration: `apis_by_file.setdefault(api.source_file, []).append(api)`. */
  method AddToGroup(apis: seq<ApiInfo>, i: int, files: seq<string>, byFile: map<string, seq<ApiInfo>>)
    returns (files': seq<string>, byFile': map<string, seq<ApiInfo>>)
    requires 0 <= i < |apis| && Grouping(apis, i, files, byFile)
    ensures Grouping(apis, i + 1, files', byFile')
  {
    var api := apis[i];
    files', byFile' := files, byFile;
    if api.sourceFile !in byFile' {
      files' := files' + [api.sourceFile];
      byFile' := byFile'[api.sourceFile := []];
    }
    byFile' := byFile'[api.sourceFile := byFile'[api.sourceFile] + [api]];
    GroupingAdvances(apis, i, files, byFile, files', byFile');
  }

  /** The keys and lists after one more `setdefault(...).append(...)`. */
  lemma GroupingAdvances(apis: seq<ApiInfo>, i: int, files: seq<string>, byFile: map<string, seq<ApiInfo>>,
                         files': seq<string>, byFile': map<string, seq<ApiInfo>>)
    requires 0 <= i < |apis| && Grouping(apis, i, files, byFile)
    requires var f0 := apis[i].sourceFile;
      && files' == (if f0 in byFile then files else files + [f0])
      && byFile' == byFile[f0 := (if f0 in byFile then byFile[f0] else []) + [apis[i]]]
    ensures Grouping(apis, i + 1, files', byFile')
  {
    GroupKeysAdvance(apis, i, files, byFile, files', byFile');
    GroupListsAdvance(apis, i, byFile, byFile');
  }

  lemma GroupKeysAdvance(apis: seq<ApiInfo>, i: int, files: seq<string>, byFile: map<string, seq<ApiInfo>>,
                         files': seq<string>, byFile': map<string, seq<ApiInfo>>)
    requires 0 <= i < |apis| && files == Dedup(SourceFilesOf(apis[..i]))
    requires forall f :: f in byFile <==> f in files
    requires var f0 := apis[i].sourceFile;
      && files' == (if f0 in byFile then files else files + [f0])
      && byFile'.Keys == byFile.Keys + {f0}
    ensures files' == Dedup(SourceFilesOf(apis[..i + 1]))
    ensures forall f :: f in byFile' <==> f in files'
  {
    SourceFilesStep(apis, i);
    DedupAppend(SourceFilesOf(apis[..i]), apis[i].sourceFile);
  }

  lemma GroupListsAdvance(apis: seq<ApiInfo>, i: int, byFile: map<string, seq<ApiInfo>>, byFile': map<string, seq<ApiInfo>>)
    requires 0 <= i < |apis|
    requires forall f :: f in byFile ==> byFile[f] == Group(apis[..i], f)
    requires forall f :: f in SourceFilesOf(apis[..i]) ==> f in byFile
    requires var f0 := apis[i].sourceFile;
      byFile' == byFile[f0 := (if f0 in byFile then byFile[f0] else []) + [apis[i]]]
    ensures forall f :: f in byFile' ==> byFile'[f] == Group(apis[..i + 1], f)
  {
    var f0 := apis[i].sourceFile;
    forall f | f in byFile' ensures byFile'[f] == Group(apis[..i + 1], f) {
      GroupStep(apis, i, f);
      if f == f0 && f0 !in byFile {
        GroupAbsent(apis[..i], f0);
      }
    }
  }

  /** Taking one more API appends its source file. */
  lemma SourceFilesStep(apis: seq<ApiInfo>, i: int)
    requires 0 <= i < |apis|
    ensures SourceFilesOf(apis[..i + 1]) == SourceFilesOf(apis[..i]) + [apis[i].sourceFile]
  {
  }

  /** Taking one more API extends its own file's group and no other. */
  lemma GroupStep(apis: seq<ApiInfo>, i: int, f: string)
    requires 0 <= i < |apis|
    ensures Group(apis[..i + 1], f) == Group(apis[..i], f) + (if apis[i].sourceFile == f then [apis[i]] else [])
  {
    assert apis[..i + 1][..i] == apis[..i];
  }

  /** A file no API comes from has an empty group. */
  lemma GroupAbsent(apis: seq<ApiInfo>, f: string)
    requires f !in SourceFilesOf(apis)
    ensures Group(apis, f) == []
  {
    forall i | 0 <= i < |apis| ensures apis[i].sourceFile !in [f] {
      assert SourceFilesOf(apis)[i] == apis[i].sourceFile;
    }
    FilterInAbsent(apis, [f]);
  }

  /** Appends one entry line per API. */
  method AppendApiLines(before: seq<string>, entries: seq<ApiInfo>) returns (lines: seq<string>)
    ensures lines == before + ApiLines(entries)
  {
    lines := before;
    for m := 0 to |entries|
      invariant lines == before + ApiLines(entries[..m])
    {
      assert entries[..m + 1][..m] == entries[..m];
      lines := lines + [ApiLine(entries[m])];
    }
    assert entries[..|entries|] == entries;
  }

  /** The source text's `_generate_apis_summary`: one block per file, the trailing blank line dropped. */
  method GenerateApisSummary(apis: seq<ApiInfo>) returns (summary: string)
    ensures summary == Join(ApiSummaryLines(apis), "\n")
  {
    if |apis| == 0 {
      return "";
    }
    var files, byFile := GroupByFile(apis);
    var sortedFiles := SortBy(files, StrLe);
    assert sortedFiles == SummaryFiles(apis);
    forall f | f in sortedFiles ensures f in byFile {
      assert f in multiset(files);
    }
    var lines := AppendSections(apis, sortedFiles, byFile);
    if |lines| > 0 && lines[|lines| - 1] == "" {
      lines := lines[..|lines| - 1];
    }
    summary := Join(lines, "\n");
  }

  /** The loop over the sorted files, writing one block per file. */
  method AppendSections(apis: seq<ApiInfo>, files: seq<string>, byFile: map<string, seq<ApiInfo>>)
    returns (lines: seq<string>)
    requires forall f :: f in files ==> f in byFile && byFile[f] == Group(apis, f)
    ensures lines == SectionsLines(apis, files)
  {
    lines := [];
    for k := 0 to |files|
      invariant lines == SectionsLines(apis, files[..k])
    {
      var f := files[k];
      lines := AppendSection(apis, lines, f, byFile[f]);
      assert files[..k + 1][..k] == files[..k];
    }
    assert files[..|files|] == files;
  }

  /** One file's block: the header, the entries sorted by start line, a blank line. */
  method AppendSection(apis: seq<ApiInfo>, before: seq<string>, f: string, group: seq<ApiInfo>)
    returns (lines: seq<string>)
    requires group == Group(apis, f)
    ensures lines == before + Section(apis, f) + [""]
  {
    lines := before + [FileHeader(f)];
    lines := AppendApiLines(lines, SortBy(group, StartLineLe));
    lines := lines + [""];
  }

  /** The concatenation of the sorted groups of `files`: the entries the blocks list, in order. */
  function Grouped(apis: seq<ApiInfo>, files: seq<string>): seq<ApiInfo> {
    if files == [] then []
    else Grouped(apis, files[..|files| - 1]) + SortedGroup(apis, files[|files| - 1])
  }

  lemma {:induction false} FilterInUnion(apis: seq<ApiInfo>, a: seq<string>, b: seq<string>)
    requires forall f :: f in a ==> f !in b
    ensures multiset(FilterIn(apis, a + b)) == multiset(FilterIn(apis, a)) + multiset(FilterIn(apis, b))
  {
    if apis != [] {
      FilterInUnion(apis[..|apis| - 1], a, b);
    }
  }

  lemma {:induction false} FilterInAll(apis: seq<ApiInfo>, files: seq<string>)
    requires forall i :: 0 <= i < |apis| ==> apis[i].sourceFile in files
    ensures FilterIn(apis, files) == apis
  {
    if apis != [] {
      FilterInAll(apis[..|apis| - 1], files);
      assert apis == apis[..|apis| - 1] + [apis[|apis| - 1]];
    }
  }

  /** No API of a file outside `files` is kept. */
  lemma {:induction false} FilterInAbsent(apis: seq<ApiInfo>, files: seq<string>)
    requires forall i :: 0 <= i < |apis| ==> apis[i].sourceFile !in files
    ensures FilterIn(apis, files) == []
  {
    if apis != [] {
      FilterInAbsent(apis[..|apis| - 1], files);
    }
  }

  /** Every API of a file in `files` is kept. */
  lemma {:induction false} FilterInKeeps(apis: seq<ApiInfo>, files: seq<string>, i: int)
    requires 0 <= i < |apis| && apis[i].sourceFile in files
    ensures apis[i] in FilterIn(apis, files)
  {
    if i < |apis| - 1 {
      FilterInKeeps(apis[..|apis| - 1], files, i);
    }
  }

  /** Grouping by a list of distinct files takes exactly the APIs of those files. */
  lemma {:induction false} GroupedMultiset(apis: seq<ApiInfo>, files: seq<string>)
    requires forall i, j :: 0 <= i < j < |files| ==> files[i] != files[j]
    ensures multiset(Grouped(apis, files)) == multiset(FilterIn(apis, files))
  {
    if files != [] {
      var init := files[..|files| - 1];
      var last := files[|files| - 1];
      GroupedMultiset(apis, init);
      assert last !in init by {
        forall k | 0 <= k < |init| ensures init[k] != last {
          assert init[k] == files[k];
        }
      }
      assert files == init + [last];
      FilterInUnion(apis, init, [last]);
      assert Grouped(apis, files) == Grouped(apis, init) + SortedGroup(apis, last);
      assert multiset(SortedGroup(apis, last)) == multiset(FilterIn(apis, [last]));
    } else {
      FilterInAbsent(apis, []);
    }
  }

  /** The blocks are those of the distinct source files, in strictly increasing order. */
  lemma ApisSummaryFiles(apis: seq<ApiInfo>)
    ensures var files := SummaryFiles(apis);
      && StrictlySorted(files, StrLe)
      && (forall i :: 0 <= i < |apis| ==> apis[i].sourceFile in files)
      && (forall f :: f in files ==> exists i :: 0 <= i < |apis| && apis[i].sourceFile == f)
  {
    var files := SummaryFiles(apis);
    var srcs := SourceFilesOf(apis);
    forall i | 0 <= i < |apis| ensures apis[i].sourceFile in files {
      assert srcs[i] in srcs;
    }
    forall f | f in files ensures exists i :: 0 <= i < |apis| && apis[i].sourceFile == f {
      var i :| 0 <= i < |srcs| && srcs[i] == f;
      assert apis[i].sourceFile == f;
    }
  }

  /** Each block lists its file's entries sorted by start line. */
  lemma ApisSummaryBlocksSorted(apis: seq<ApiInfo>)
    ensures var files := SummaryFiles(apis);
      forall k :: 0 <= k < |files| ==> Sorted(SortedGroup(apis, files[k]), StartLineLe)
  {
    var files := SummaryFiles(apis);
    StartLineLeIsTotalPreorder();
    forall k | 0 <= k < |files| ensures Sorted(SortedGroup(apis, files[k]), StartLineLe) {
      SortBySorted(Group(apis, files[k]), StartLineLe);
    }
  }

  /** Together the blocks list every API exactly once. */
  lemma ApisSummaryListsEveryApi(apis: seq<ApiInfo>)
    ensures multiset(Grouped(apis, SummaryFiles(apis))) == multiset(apis)
  {
    var files := SummaryFiles(apis);
    ApisSummaryFiles(apis);
    StrictlySortedDistinct(files);
    GroupedMultiset(apis, files);
    FilterInAll(apis, files);
  }

  /** Only the trailing blank line is dropped, so a non-empty summary ends with an entry line. */
  lemma ApisSummaryEndsWithEntry(apis: seq<ApiInfo>)
    requires apis != []
    ensures ApiSummaryLines(apis) + [""] == SectionsLines(apis, SummaryFiles(apis))
    ensures var lines := ApiSummaryLines(apis);
      |lines| > 0 && lines[|lines| - 1] != ""
  {
    var files := SummaryFiles(apis);
    ApisSummaryFiles(apis);
    assert apis[0].sourceFile in files;
    var last := files[|files| - 1];
    assert last in files;
    var i :| 0 <= i < |apis| && apis[i].sourceFile == last;
    LastBlockEndsWithEntry(apis, files, i);
  }

  /** The file of any API has a non-empty block. */
  lemma GroupNonEmpty(apis: seq<ApiInfo>, i: int)
    requires 0 <= i < |apis|
    ensures |SortedGroup(apis, apis[i].sourceFile)| > 0
  {
    FilterInKeeps(apis, [apis[i].sourceFile], i);
    assert apis[i] in multiset(SortedGroup(apis, apis[i].sourceFile));
  }

  lemma EndsWithBlock(before: seq<string>, header: string, entries: seq<string>)
    requires |entries| > 0
    ensures var all := before + ([header] + entries) + [""];
      |all| >= 2 && all[|all| - 1] == "" && all[|all| - 2] == entries[|entries| - 1]
  {
  }

  lemma LastBlockEndsWithEntry(apis: seq<ApiInfo>, files: seq<string>, i: int)
    requires files != [] && 0 <= i < |apis| && apis[i].sourceFile == files[|files| - 1]
    ensures var all := SectionsLines(apis, files);
      |all| >= 2 && all[|all| - 1] == "" && all[|all| - 2] != ""
  {
    var last := files[|files| - 1];
    GroupNonEmpty(apis, i);
    var entries := ApiLines(SortedGroup(apis, last));
    EndsWithBlock(SectionsLines(apis, files[..|files| - 1]), FileHeader(last), entries);
  }

  // ---------------------------------------------------------------------
  // Table of contents

  const SectionNames: seq<string> := ["Metadata", "File Types", "Required Skillsets", "APIs"]

  /** The number of lines a summary occupies in the document (a placeholder if empty). */
  function ContentLineCount(summary: string): (r: int)
    ensures r >= 1
  {
    if summary != "" then |Lines(summary)| else 1
  }

  function SpanOf(e: TocEntry): int {
    e.endLine - e.startLine + 1
  }

  /**
   * The layout the table of contents describes: the four sections in order,
   * Metadata from line 10, each section on the line after the previous one
   * ends, and each spanning its header, its content and (but for the last)
   * one blank line.
   */
  predicate TocLayout(entries: seq<TocEntry>, fileTypes: string, skillsets: string, apis: string) {
    && |entries| == 4
    && (forall k :: 0 <= k < 4 ==> entries[k].sectionName == SectionNames[k])
    && entries[0].startLine == 10
    && (forall k :: 0 <= k < 3 ==> entries[k + 1].startLine == entries[k].endLine + 1)
    && SpanOf(entries[0]) == 1 + 2 + 1
    && SpanOf(entries[1]) == 1 + ContentLineCount(fileTypes) + 1
    && SpanOf(entries[2]) == 1 + ContentLineCount(skillsets) + 1
    && SpanOf(entries[3]) == 1 + ContentLineCount(apis)
  }

  method CalculateTableOfContents(fileTypes: string, skillsets: string, apis: string)
    returns (entries: seq<TocEntry>, totalTocLines: int)
    ensures TocLayout(entries, fileTypes, skillsets, apis)
    ensures totalTocLines == 6
  {
    entries := [];
    var currentLine := 1;
    currentLine := currentLine + 3;
    var tocEntryCount := 4;
    currentLine := currentLine + tocEntryCount + 2;

    var metadataStart := currentLine;
    var metadataLines := 1 + 2 + 1;
    entries := entries + [TocEntry("Metadata", metadataStart, currentLine + metadataLines - 1)];
    currentLine := currentLine + metadataLines;

    var fileTypesStart := currentLine;
    var fileTypesContentLines := if fileTypes != "" then |Split(fileTypes, '\n')| else 1;
    var fileTypesLines := 1 + fileTypesContentLines + 1;
    entries := entries + [TocEntry("File Types", fileTypesStart, currentLine + fileTypesLines - 1)];
    currentLine := currentLine + fileTypesLines;

    var skillsetsStart := currentLine;
    var skillsetsContentLines := if skillsets != "" then |Split(skillsets, '\n')| else 1;
    var skillsetsLines := 1 + skillsetsContentLines + 1;
    entries := entries + [TocEntry("Required Skillsets", skillsetsStart, currentLine + skillsetsLines - 1)];
    currentLine := currentLine + skillsetsLines;

    var apisStart := currentLine;
    var apisContentLines := if apis != "" then |Split(apis, '\n')| else 1;
    var apisLines := 1 + apisContentLines;
    entries := entries + [TocEntry("APIs", apisStart, currentLine + apisLines - 1)];

    totalTocLines := tocEntryCount + 2;
  }

  // ---------------------------------------------------------------------
  // Serialisation

  function TocHeaderLine(tocLines: int): string {
    "TABLE-OF-CONTENTS: lines 3-" + IntToString(3 + tocLines)
  }

  function TocEntryLine(e: TocEntry): string {
    "- " + e.sectionName + ": " + IntToString(e.startLine) + "-" + IntToString(e.endLine)
  }

  function TocEntryLines(entries: seq<TocEntry>): (r: seq<string>)
    ensures |r| == |entries|
  {
    MapSeq(TocEntryLine, entries)
  }

  function MetadataLine(item: (string, string)): string {
    "- " + item.0 + ": " + item.1
  }

  function MetadataLines(metadata: seq<(string, string)>): (r: seq<string>)
    ensures |r| == |metadata|
  {
    MapSeq(MetadataLine, metadata)
  }

  /** The lines a summary contributes: its own lines, or the placeholder when it is empty. */
  function SectionBody(summary: string, placeholder: string): (r: seq<string>)
    ensures |r| == ContentLineCount(summary)
  {
    if summary != "" then Lines(summary) else [placeholder]
  }

  function TocBlock(c: AgentsMdContent): seq<string> {
    [TocHeaderLine(c.tocLines)] + [""] + ["[TOC]"] + TocEntryLines(c.tableOfContents) + ["[/TOC]"] + [""]
  }

  function MetadataSection(c: AgentsMdContent): seq<string> {
    ["## Metadata"] + MetadataLines(c.metadata) + [""]
  }

  function FileTypesSection(c: AgentsMdContent): seq<string> {
    ["## File Types"] + SectionBody(c.fileTypesSummary, "No source files found.") + [""]
  }

  function SkillsetsSection(c: AgentsMdContent): seq<string> {
    ["## Required Skillsets"] + SectionBody(c.requiredSkillsetsSummary, "No specific skillsets identified.") + [""]
  }

  function ApisSection(c: AgentsMdContent): seq<string> {
    ["## APIs"] + SectionBody(c.apisSummary, "No APIs found.")
  }

  /** The lines of the serialised document, before they are joined with newlines. */
  function DocLines(c: AgentsMdContent): seq<string> {
    TocBlock(c) + MetadataSection(c) + FileTypesSection(c) + SkillsetsSection(c) + ApisSection(c)
  }

  /** Appending a block line by line is appending the block. */
  lemma AppendBlock(before: seq<string>, header: string, body: seq<string>, closing: seq<string>)
    ensures before + [header] + body + closing == before + ([header] + body + closing)
  {
  }

  /** `lines.extend(summary.split('\n'))`, or the placeholder line when the summary is empty. */
  method ExtendWithSummary(lines: seq<string>, summary: string, placeholder: string) returns (r: seq<string>)
    ensures r == lines + SectionBody(summary, placeholder)
  {
    if summary != "" {
      r := lines + Split(summary, '\n');
    } else {
      r := lines + [placeholder];
    }
  }

  /** Appends one `- name: start-end` line per table-of-contents entry. */
  method AppendTocEntries(before: seq<string>, toc: seq<TocEntry>) returns (lines: seq<string>)
    ensures lines == before + TocEntryLines(toc)
  {
    lines := before;
    for i := 0 to |toc|
      invariant lines == before + TocEntryLines(toc[..i])
    {
      assert toc[..i + 1][..i] == toc[..i];
      lines := lines + [TocEntryLine(toc[i])];
    }
    assert toc[..|toc|] == toc;
  }

  /** The TOC header, the `[TOC]` block with one line per entry, and the blank line after it. */
  method BuildTocBlock(content: AgentsMdContent) returns (lines: seq<string>)
    ensures lines == TocBlock(content)
  {
    lines := [];
    var tocEndLine := 3 + content.tocLines;
    lines := lines + ["TABLE-OF-CONTENTS: lines 3-" + IntToString(tocEndLine)];
    lines := lines + [""];
    lines := lines + ["[TOC]"];
    ghost var opening := lines;
    assert opening == [TocHeaderLine(content.tocLines)] + [""] + ["[TOC]"];
    lines := AppendTocEntries(lines, content.tableOfContents);
    lines := lines + ["[/TOC]"];
    lines := lines + [""];
  }

  /** Appends the Metadata section: its header, one `- key: value` line per item, a blank line. */
  method AppendMetadataSection(before: seq<string>, metadata: seq<(string, string)>) returns (lines: seq<string>)
    ensures lines == before + (["## Metadata"] + MetadataLines(metadata) + [""])
  {
    lines := before + ["## Metadata"];
    for i := 0 to |metadata|
      invariant lines == before + ["## Metadata"] + MetadataLines(metadata[..i])
    {
      assert metadata[..i + 1][..i] == metadata[..i];
      lines := lines + [MetadataLine(metadata[i])];
    }
    assert metadata[..|metadata|] == metadata;
    lines := lines + [""];
  }

  method SerializeToMarkdown(content: AgentsMdContent) returns (doc: string)
    ensures doc == Join(DocLines(content), "\n")
  {
    var lines := BuildTocBlock(content);
    lines := AppendMetadataSection(lines, content.metadata);
    ghost var upToMetadata := lines;

    lines := lines + ["## File Types"];
    lines := ExtendWithSummary(lines, content.fileTypesSummary, "No source files found.");
    lines := lines + [""];
    AppendBlock(upToMetadata, "## File Types", SectionBody(content.fileTypesSummary, "No source files found."), [""]);
    ghost var upToFileTypes := lines;
    assert upToFileTypes == upToMetadata + FileTypesSection(content);

    lines := lines + ["## Required Skillsets"];
    lines := ExtendWithSummary(lines, content.requiredSkillsetsSummary, "No specific skillsets identified.");
    lines := lines + [""];
    AppendBlock(upToFileTypes, "## Required Skillsets",
      SectionBody(content.requiredSkillsetsSummary, "No specific skillsets identified."), [""]);
    ghost var upToSkillsets := lines;
    assert upToSkillsets == upToFileTypes + SkillsetsSection(content);

    lines := lines + ["## APIs"];
    lines := ExtendWithSummary(lines, content.apisSummary, "No APIs found.");
    AppendBlock(upToSkillsets, "## APIs", SectionBody(content.apisSummary, "No APIs found."), []);
    assert lines == upToSkillsets + ["## APIs"] + SectionBody(content.apisSummary, "No APIs found.") + [];
    assert lines == upToSkillsets + ApisSection(content);
    doc := Join(lines, "\n");
  }

  /** `create_metadata`, with the ISO timestamp passed in. */
  function CreateMetadata(commitHash: string, timestamp: string): (r: seq<(string, string)>)
    ensures |r| == 2 && DistinctKeys(r)
    ensures r[0] == ("last_generated_utc", timestamp + "Z") && r[1] == ("commit_hash", commitHash)
  {
    [("last_generated_utc", timestamp + "Z"), ("commit_hash", commitHash)]
  }

  method GenerateAgentsMdContent(analysis: DirectoryAnalysis, metadata: seq<(string, string)>)
    returns (content: AgentsMdContent)
    ensures content.fileTypesSummary == Join(FileTypeLines(analysis.fileTypes), "\n")
    ensures content.requiredSkillsetsSummary == Join(SkillsetLines(analysis.requiredSkillsets), "\n")
    ensures content.apisSummary == Join(ApiSummaryLines(analysis.apis), "\n")
    ensures content.metadata == metadata
    ensures TocLayout(content.tableOfContents, content.fileTypesSummary,
                      content.requiredSkillsetsSummary, content.apisSummary)
    ensures content.tocLines == 6
  {
    var fileTypesSummary := GenerateFileTypesSummary(analysis.fileTypes);
    var skillsetsSummary := GenerateSkillsetsSummary(analysis.requiredSkillsets);
    var apisSummary := GenerateApisSummary(analysis.apis);
    var tocEntries, tocLines := CalculateTableOfContents(fileTypesSummary, skillsetsSummary, apisSummary);
    content := AgentsMdContent(tocLines, tocEntries, metadata, fileTypesSummary, skillsetsSummary, apisSummary);
  }

  // ---------------------------------------------------------------------
  // The table of contents is accurate

  /** No line of `lines` contains a newline. */
  predicate NoNewlines(lines: seq<string>) {
    forall line :: line in lines ==> NoNewline(line)
  }

  lemma NoNewlinesConcat(a: seq<string>, b: seq<string>)
    requires NoNewlines(a) && NoNewlines(b)
    ensures NoNewlines(a + b)
  {
  }

  lemma SectionBodyNoNewlines(summary: string, placeholder: string)
    requires NoNewline(placeholder)
    ensures NoNewlines(SectionBody(summary, placeholder))
  {
  }

  lemma SectionNamesNoNewline()
    ensures NoNewlines(SectionNames)
  {
    assert NoNewline(SectionNames[0]) && NoNewline(SectionNames[1]);
    assert NoNewline(SectionNames[2]) && NoNewline(SectionNames[3]);
  }

  lemma TocNamesNoNewline(c: AgentsMdContent)
    requires TocLayout(c.tableOfContents, c.fileTypesSummary, c.requiredSkillsetsSummary, c.apisSummary)
    ensures forall k :: 0 <= k < |c.tableOfContents| ==> NoNewline(c.tableOfContents[k].sectionName)
  {
    SectionNamesNoNewline();
  }

  lemma TocEntryLinesNoNewlines(entries: seq<TocEntry>)
    requires forall k :: 0 <= k < |entries| ==> NoNewline(entries[k].sectionName)
    ensures NoNewlines(TocEntryLines(entries))
  {
    var lines := TocEntryLines(entries);
    forall line | line in lines ensures NoNewline(line) {
      var k :| 0 <= k < |lines| && lines[k] == line;
      TocEntryLineNoNewline(entries[k]);
    }
  }

  lemma TocEntryLineNoNewline(e: TocEntry)
    requires NoNewline(e.sectionName)
    ensures NoNewline(TocEntryLine(e))
  {
    var a := IntToString(e.startLine);
    var b := IntToString(e.endLine);
    assert TocEntryLine(e) == "- " + e.sectionName + ": " + a + "-" + b;
  }

  lemma TocHeaderNoNewline(tocLines: int)
    ensures NoNewline(TocHeaderLine(tocLines))
  {
    assert TocHeaderLine(tocLines) == "TABLE-OF-CONTENTS: lines 3-" + IntToString(3 + tocLines);
  }

  lemma TocBlockNoNewlines(c: AgentsMdContent)
    requires forall k :: 0 <= k < |c.tableOfContents| ==> NoNewline(c.tableOfContents[k].sectionName)
    ensures NoNewlines(TocBlock(c))
  {
    TocEntryLinesNoNewlines(c.tableOfContents);
    TocOpeningNoNewlines(c.tocLines);
    var opening := [TocHeaderLine(c.tocLines)] + [""] + ["[TOC]"];
    var entries := TocEntryLines(c.tableOfContents);
    NoNewlinesConcat(opening, entries);
    NoNewlinesConcat(opening + entries, ["[/TOC]"]);
    NoNewlinesConcat(opening + entries + ["[/TOC]"], [""]);
  }

  lemma TocOpeningNoNewlines(tocLines: int)
    ensures NoNewlines([TocHeaderLine(tocLines)] + [""] + ["[TOC]"])
  {
    TocHeaderNoNewline(tocLines);
    var opening := [TocHeaderLine(tocLines)] + [""] + ["[TOC]"];
    forall line | line in opening ensures NoNewline(line) {
      assert line == opening[0] || line == opening[1] || line == opening[2];
    }
  }

  lemma MetadataSectionNoNewlines(c: AgentsMdContent)
    requires forall i :: 0 <= i < |c.metadata| ==> NoNewline(MetadataLine(c.metadata[i]))
    ensures NoNewlines(MetadataSection(c))
  {
    NoNewlinesConcat(["## Metadata"], MetadataLines(c.metadata));
    NoNewlinesConcat(["## Metadata"] + MetadataLines(c.metadata), [""]);
  }

  /** A section made of a header, a body and optionally a closing blank line has no newline in any line. */
  lemma BlockNoNewlines(header: string, summary: string, placeholder: string, closing: seq<string>)
    requires NoNewline(header) && NoNewline(placeholder) && NoNewlines(closing)
    ensures NoNewlines([header] + SectionBody(summary, placeholder) + closing)
  {
    SectionBodyNoNewlines(summary, placeholder);
    NoNewlinesConcat([header], SectionBody(summary, placeholder));
    NoNewlinesConcat([header] + SectionBody(summary, placeholder), closing);
  }

  lemma HeadNoNewlines(c: AgentsMdContent)
    requires forall k :: 0 <= k < |c.tableOfContents| ==> NoNewline(c.tableOfContents[k].sectionName)
    requires forall i :: 0 <= i < |c.metadata| ==> NoNewline(MetadataLine(c.metadata[i]))
    ensures NoNewlines(TocBlock(c) + MetadataSection(c))
  {
    TocBlockNoNewlines(c);
    MetadataSectionNoNewlines(c);
    NoNewlinesConcat(TocBlock(c), MetadataSection(c));
  }

  lemma FileTypesSectionNoNewlines(c: AgentsMdContent)
    ensures NoNewlines(FileTypesSection(c))
  {
    BlockNoNewlines("## File Types", c.fileTypesSummary, "No source files found.", [""]);
  }

  lemma SkillsetsSectionNoNewlines(c: AgentsMdContent)
    ensures NoNewlines(SkillsetsSection(c))
  {
    BlockNoNewlines("## Required Skillsets", c.requiredSkillsetsSummary, "No specific skillsets identified.", [""]);
  }

  lemma ApisSectionNoNewlines(c: AgentsMdContent)
    ensures NoNewlines(ApisSection(c))
  {
    BlockNoNewlines("## APIs", c.apisSummary, "No APIs found.", []);
    assert ApisSection(c) == ["## APIs"] + SectionBody(c.apisSummary, "No APIs found.") + [];
  }

  lemma DocLinesHaveNoNewline(c: AgentsMdContent)
    requires TocLayout(c.tableOfContents, c.fileTypesSummary, c.requiredSkillsetsSummary, c.apisSummary)
    requires forall i :: 0 <= i < |c.metadata| ==> NoNewline(MetadataLine(c.metadata[i]))
    ensures NoNewlines(DocLines(c))
  {
    TocNamesNoNewline(c);
    HeadNoNewlines(c);
    FileTypesSectionNoNewlines(c);
    SkillsetsSectionNoNewlines(c);
    ApisSectionNoNewlines(c);
    var head := TocBlock(c) + MetadataSection(c);
    NoNewlinesConcat(head, FileTypesSection(c));
    NoNewlinesConcat(head + FileTypesSection(c), SkillsetsSection(c));
    NoNewlinesConcat(head + FileTypesSection(c) + SkillsetsSection(c), ApisSection(c));
  }

  /** Splitting the serialised document at newlines gives back its lines. */
  lemma DocLinesSplitBack(c: AgentsMdContent)
    requires TocLayout(c.tableOfContents, c.fileTypesSummary, c.requiredSkillsetsSummary, c.apisSummary)
    requires forall i :: 0 <= i < |c.metadata| ==> NoNewline(MetadataLine(c.metadata[i]))
    ensures Lines(Join(DocLines(c), "\n")) == DocLines(c)
  {
    DocLinesHaveNoNewline(c);
    NoNewlinesAt(DocLines(c));
    JoinNoNewline(DocLines(c));
  }

  lemma NoNewlinesAt(lines: seq<string>)
    requires NoNewlines(lines)
    ensures forall i :: 0 <= i < |lines| ==> NoNewline(lines[i])
  {
    forall i | 0 <= i < |lines| ensures NoNewline(lines[i]) {
      assert lines[i] in lines;
    }
  }

  /** Where each block of the document starts, as 0-based indexes into its lines. */
  lemma DocLinesLayout(c: AgentsMdContent)
    requires |c.tableOfContents| == 4 && |c.metadata| == 2
    ensures var d := DocLines(c);
      var nf := |FileTypesSection(c)|;
      var ns := |SkillsetsSection(c)|;
      && nf == 2 + ContentLineCount(c.fileTypesSummary)
      && ns == 2 + ContentLineCount(c.requiredSkillsetsSummary)
      && |d| == 13 + nf + ns + 1 + ContentLineCount(c.apisSummary)
      && d[0] == TocHeaderLine(c.tocLines) && d[1] == "" && d[2] == "[TOC]"
      && (forall k :: 0 <= k < 4 ==> d[3 + k] == TocEntryLine(c.tableOfContents[k]))
      && d[7] == "[/TOC]" && d[8] == ""
      && d[9] == "## Metadata" && d[12] == ""
      && d[13] == "## File Types" && d[12 + nf] == ""
      && d[13 + nf] == "## Required Skillsets" && d[12 + nf + ns] == ""
      && d[13 + nf + ns] == "## APIs"
  {
    var a := TocBlock(c);
    var m := MetadataSection(c);
    var f := FileTypesSection(c);
    var s := SkillsetsSection(c);
    var p := ApisSection(c);
    var d := DocLines(c);
    assert |a| == 9 && |m| == 4;
    assert d == (a + m) + (f + s + p);
    assert (a + m)[9] == "## Metadata" && (a + m)[12] == "";
    assert (f + s + p)[0] == "## File Types";
    assert (f + s + p)[|f| - 1] == "";
    assert (f + s + p)[|f|] == "## Required Skillsets";
    assert (f + s + p)[|f| + |s| - 1] == "";
    assert (f + s + p)[|f| + |s|] == "## APIs";
  }

  /** The line numbers the table of contents records, in terms of the summaries. */
  lemma TocLineNumbers(c: AgentsMdContent)
    requires TocLayout(c.tableOfContents, c.fileTypesSummary, c.requiredSkillsetsSummary, c.apisSummary)
    ensures var toc := c.tableOfContents;
      var nf := 2 + ContentLineCount(c.fileTypesSummary);
      var ns := 2 + ContentLineCount(c.requiredSkillsetsSummary);
      && toc[0].startLine == 10 && toc[0].endLine == 13
      && toc[1].startLine == 14 && toc[1].endLine == 13 + nf
      && toc[2].startLine == 14 + nf && toc[2].endLine == 13 + nf + ns
      && toc[3].startLine == 14 + nf + ns && toc[3].endLine == 13 + nf + ns + 1 + ContentLineCount(c.apisSummary)
      && toc[0].sectionName == "Metadata" && toc[1].sectionName == "File Types"
      && toc[2].sectionName == "Required Skillsets" && toc[3].sectionName == "APIs"
  {
  }

  lemma SectionHeaders()
    ensures "## " + "Metadata" == "## Metadata"
    ensures "## " + "File Types" == "## File Types"
    ensures "## " + "Required Skillsets" == "## Required Skillsets"
    ensures "## " + "APIs" == "## APIs"
  {
  }

  /** Each section's header sits on its `start_line` of the document's lines, before they are joined. */
  lemma TocStartLinesMatch(c: AgentsMdContent)
    requires TocLayout(c.tableOfContents, c.fileTypesSummary, c.requiredSkillsetsSummary, c.apisSummary)
    requires |c.metadata| == 2
    ensures var d := DocLines(c);
      var toc := c.tableOfContents;
      forall k :: 0 <= k < 4 ==>
        1 <= toc[k].startLine <= |d| && d[toc[k].startLine - 1] == "## " + toc[k].sectionName
  {
    forall k | 0 <= k < 4 {
      TocStartLineMatches(c, k);
    }
  }

  lemma TocStartLineMatches(c: AgentsMdContent, k: int)
    requires TocLayout(c.tableOfContents, c.fileTypesSummary, c.requiredSkillsetsSummary, c.apisSummary)
    requires |c.metadata| == 2 && 0 <= k < 4
    ensures var d := DocLines(c);
      var e := c.tableOfContents[k];
      1 <= e.startLine <= |d| && d[e.startLine - 1] == "## " + e.sectionName
  {
    DocLinesLayout(c);
    TocLineNumbers(c);
    SectionHeaders();
  }

  /** Every section but the last ends on a blank line at its `end_line`. */
  lemma TocEndLinesMatch(c: AgentsMdContent)
    requires TocLayout(c.tableOfContents, c.fileTypesSummary, c.requiredSkillsetsSummary, c.apisSummary)
    requires |c.metadata| == 2
    ensures var d := DocLines(c);
      var toc := c.tableOfContents;
      forall k :: 0 <= k < 3 ==> 1 <= toc[k].endLine <= |d| && d[toc[k].endLine - 1] == ""
  {
    forall k | 0 <= k < 3 {
      TocEndLineMatches(c, k);
    }
  }

  lemma TocEndLineMatches(c: AgentsMdContent, k: int)
    requires TocLayout(c.tableOfContents, c.fileTypesSummary, c.requiredSkillsetsSummary, c.apisSummary)
    requires |c.metadata| == 2 && 0 <= k < 3
    ensures var d := DocLines(c);
      var e := c.tableOfContents[k];
      1 <= e.endLine <= |d| && d[e.endLine - 1] == ""
  {
    DocLinesLayout(c);
    TocLineNumbers(c);
  }

  /** The last section's `end_line` is the document's last line. */
  lemma TocCoversDocLines(c: AgentsMdContent)
    requires TocLayout(c.tableOfContents, c.fileTypesSummary, c.requiredSkillsetsSummary, c.apisSummary)
    requires |c.metadata| == 2
    ensures |DocLines(c)| == c.tableOfContents[3].endLine
  {
    DocLinesLayout(c);
    TocLineNumbers(c);
  }

  /**
   * With exactly two metadata entries, the table of contents computed for a
   * document's summaries is accurate for the serialised document: the header
   * of each section is on its `start_line`, every section but the last ends on
   * a blank line at its `end_line`, the document has exactly as many lines as
   * the APIs section's `end_line`, and the header's range `3-{3+toc_lines}`
   * runs from `[TOC]` to the blank line after `[/TOC]`.
   */
  lemma TocIsAccurate(c: AgentsMdContent)
    requires TocLayout(c.tableOfContents, c.fileTypesSummary, c.requiredSkillsetsSummary, c.apisSummary)
    requires c.tocLines == 6
    requires |c.metadata| == 2
    requires forall i :: 0 <= i < |c.metadata| ==> NoNewline(MetadataLine(c.metadata[i]))
    ensures var lines := Lines(Join(DocLines(c), "\n"));
      var toc := c.tableOfContents;
      && (forall k :: 0 <= k < 4 ==>
            1 <= toc[k].startLine <= |lines| && lines[toc[k].startLine - 1] == "## " + toc[k].sectionName)
      && (forall k :: 0 <= k < 3 ==> 1 <= toc[k].endLine <= |lines| && lines[toc[k].endLine - 1] == "")
      && |lines| == toc[3].endLine
      && lines[0] == TocHeaderLine(c.tocLines)
      && lines[2] == "[TOC]"
      && (forall k :: 0 <= k < 4 ==> lines[3 + k] == TocEntryLine(toc[k]))
      && lines[3 + c.tocLines - 2] == "[/TOC]"
      && lines[3 + c.tocLines - 1] == ""
  {
    DocLinesSplitBack(c);
    TocStartLinesMatch(c);
    TocEndLinesMatch(c);
    TocCoversDocLines(c);
    DocLinesLayout(c);
  }
}
