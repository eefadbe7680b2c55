/**
 * The model-based orchestrator of the `semantic` package: it lists the source
 * files of one directory that the configuration does not exclude, counts
 * them by extension, asks the language model for the APIs and skillsets of
 * each file it can read, and merges the answers, letting the model's APIs
 * take the place of any parser-extracted ones.
 *
 * A directory is the sequence of its path components; reading a file is the
 * parameter `read` (`None` for `IOError`/`UnicodeDecodeError`), and the
 * model's analysis of one file is the parameter `analyze`.
 */
module SemanticOrchestrator {
  import opened Text
  import opened Order
  import opened Model
  import opened AnalysisOrchestrator
  import opened Config

  // ---------------------------------------------------------------------
  // Source files

  /** A source file of the listing that the configuration does not exclude (it is a file, so not a directory). */
  predicate Selected(c: SemanticConfig, directory: seq<string>, glob: (string, string) -> bool, item: Item) {
    IsSource(item) && !Excluded(c, directory + [item.name], false, glob)
  }

  /** What `_get_source_files` returns. */
  function SelectedFiles(c: SemanticConfig, directory: seq<string>, glob: (string, string) -> bool, listing: Option<seq<Item>>): seq<string> {
    SortedKept(listing, (item: Item) => Selected(c, directory, glob, item))
  }

  /** The files are the non-hidden source files the configuration does not exclude, in sorted order. */
  lemma SelectedFilesSpec(c: SemanticConfig, directory: seq<string>, glob: (string, string) -> bool, listing: Option<seq<Item>>, x: string)
    ensures Sorted(SelectedFiles(c, directory, glob, listing), StrLe)
    ensures x in SelectedFiles(c, directory, glob, listing) <==>
      listing.Some? &&
      exists i :: 0 <= i < |listing.value| && listing.value[i].name == x && IsSource(listing.value[i]) && !Excluded(c, directory + [x], false, glob)
  {
    SortedKeptSpec(listing, (item: Item) => Selected(c, directory, glob, item), x);
  }

  /** `_get_source_files(directory_path, config)` */
  method GetSourceFiles(c: SemanticConfig, directory: seq<string>, glob: (string, string) -> bool, listing: Option<seq<Item>>)
    returns (files: seq<string>)
    ensures files == SelectedFiles(c, directory, glob, listing)
  {
    files := SelectFiles(listing, (item: Item) => Selected(c, directory, glob, item));
  }

  // ---------------------------------------------------------------------
  // Aggregation with the model's results

  /** The APIs the aggregation sorts: the model's when it found any, the fragments' otherwise. */
  function ChosenApis(fragments: seq<AnalysisFragment>, llmApis: seq<ApiInfo>): seq<ApiInfo> {
    if llmApis != [] then llmApis else AllApis(fragments)
  }

  /** What `_aggregate_analysis_results` returns; an absent list counts as empty. */
  function AggregateWithModel(directoryPath: string, fragments: seq<AnalysisFragment>, counts: seq<(string, int)>,
                              llmSkillsets: seq<string>, llmApis: seq<ApiInfo>): DirectoryAnalysis
  {
    DirectoryAnalysis(directoryPath, counts, SortedSet(AllSkillsets(fragments) + llmSkillsets),
                      SortBy(ChosenApis(fragments, llmApis), ApiLe))
  }

  /** The model's APIs, when there are any, replace the fragments' APIs; the result is sorted by file and line. */
  lemma AggregateWithModelApis(directoryPath: string, fragments: seq<AnalysisFragment>, counts: seq<(string, int)>,
                               llmSkillsets: seq<string>, llmApis: seq<ApiInfo>)
    ensures var r := AggregateWithModel(directoryPath, fragments, counts, llmSkillsets, llmApis);
      && Sorted(r.apis, ApiLe)
      && (llmApis != [] ==> multiset(r.apis) == multiset(llmApis))
      && (llmApis == [] ==> multiset(r.apis) == multiset(AllApis(fragments)))
  {
    ApiLeIsTotalPreorder();
    SortBySorted(ChosenApis(fragments, llmApis), ApiLe);
  }

  /** The skillsets are the sorted, duplicate-free union of the fragments' and the model's skillsets. */
  lemma AggregateWithModelSkillsets(directoryPath: string, fragments: seq<AnalysisFragment>, counts: seq<(string, int)>,
                                    llmSkillsets: seq<string>, llmApis: seq<ApiInfo>, x: string)
    ensures var r := AggregateWithModel(directoryPath, fragments, counts, llmSkillsets, llmApis);
      && StrictlySorted(r.requiredSkillsets, StrLe)
      && (x in r.requiredSkillsets <==> x in llmSkillsets || exists i :: 0 <= i < |fragments| && x in fragments[i].skillsets)
  {
    AllSkillsetsMembers(fragments, x);
  }

  /** `_aggregate_analysis_results` with the model's skillsets and APIs. */
  method AggregateAnalysisResults(directoryPath: string, fragments: seq<AnalysisFragment>, counts: seq<(string, int)>,
                                  llmSkillsets: seq<string>, llmApis: seq<ApiInfo>)
    returns (r: DirectoryAnalysis)
    ensures r == AggregateWithModel(directoryPath, fragments, counts, llmSkillsets, llmApis)
  {
    var allApis := [];
    var skillsets := [];
    if llmApis != [] {
      allApis := llmApis;
      for i := 0 to |fragments|
        invariant skillsets == AllSkillsets(fragments[..i])
      {
        assert fragments[..i + 1][..i] == fragments[..i];
        skillsets := skillsets + fragments[i].skillsets;
      }
    } else {
      for i := 0 to |fragments|
        invariant allApis == AllApis(fragments[..i])
        invariant skillsets == AllSkillsets(fragments[..i])
      {
        assert fragments[..i + 1][..i] == fragments[..i];
        allApis := allApis + fragments[i].apis;
        skillsets := skillsets + fragments[i].skillsets;
      }
    }
    assert fragments[..|fragments|] == fragments;
    skillsets := skillsets + llmSkillsets;
    r := DirectoryAnalysis(directoryPath, counts, SortedSet(skillsets), SortBy(allApis, ApiLe));
  }

  // ---------------------------------------------------------------------
  // Analysing a directory

  /** The APIs and skillsets the model reports for the files it could read, in file order. */
  function ModelResults(directory: seq<string>, files: seq<string>, read: seq<string> -> Option<string>, available: bool,
                        analyze: (string, seq<string>) -> (seq<ApiInfo>, seq<string>)): (seq<ApiInfo>, seq<string>)
  {
    if files == [] then ([], [])
    else
      var before := ModelResults(directory, files[..|files| - 1], read, available, analyze);
      var path := directory + [files[|files| - 1]];
      var content := read(path);
      if content.Some? && available then
        var found := analyze(content.value, path);
        (before.0 + found.0, before.1 + found.1)
      else before
  }

  /** Without the model nothing is reported, whatever the files hold. */
  lemma {:induction false} ModelResultsUnavailable(directory: seq<string>, files: seq<string>, read: seq<string> -> Option<string>,
                                                   analyze: (string, seq<string>) -> (seq<ApiInfo>, seq<string>))
    ensures ModelResults(directory, files, read, false, analyze) == ([], [])
  {
    if files != [] {
      ModelResultsUnavailable(directory, files[..|files| - 1], read, analyze);
    }
  }

  lemma ModelResultsStep(directory: seq<string>, files: seq<string>, i: nat, read: seq<string> -> Option<string>, available: bool,
                         analyze: (string, seq<string>) -> (seq<ApiInfo>, seq<string>))
    requires i < |files|
    ensures var before := ModelResults(directory, files[..i], read, available, analyze);
      var path := directory + [files[i]];
      ModelResults(directory, files[..i + 1], read, available, analyze) ==
        if read(path).Some? && available then
          (before.0 + analyze(read(path).value, path).0, before.1 + analyze(read(path).value, path).1)
        else before
  {
    assert files[..i + 1][..i] == files[..i];
  }

  /** The configuration `analyze_directory` uses: rooted at the parent of the directory. */
  function ConfigFor(directory: seq<string>, data: seq<(string, Yaml)>): SemanticConfig {
    SemanticConfig(if directory == [] then [] else directory[..|directory| - 1], data)
  }

  /** What `analyze_directory` returns: no parser fragments, the model's results and the counts of every listed file. */
  function AnalyzeDirectory(directory: seq<string>, data: seq<(string, Yaml)>, glob: (string, string) -> bool,
                            listing: Option<seq<Item>>, read: seq<string> -> Option<string>, available: bool,
                            analyze: (string, seq<string>) -> (seq<ApiInfo>, seq<string>)): DirectoryAnalysis
  {
    var files := SelectedFiles(ConfigFor(directory, data), directory, glob, listing);
    var found := ModelResults(directory, files, read, available, analyze);
    AggregateWithModel(PathString(directory), [], FileTypeCounts(files), found.1, found.0)
  }

  /** Every selected file is counted under its suffix, whether or not it could be read. */
  lemma AnalyzeDirectoryCounts(directory: seq<string>, data: seq<(string, Yaml)>, glob: (string, string) -> bool,
                               listing: Option<seq<Item>>, read: seq<string> -> Option<string>, available: bool,
                               analyze: (string, seq<string>) -> (seq<ApiInfo>, seq<string>), x: string)
    ensures var files := SelectedFiles(ConfigFor(directory, data), directory, glob, listing);
      var r := AnalyzeDirectory(directory, data, glob, listing, read, available, analyze);
      Total(r.fileTypes) == |files| && CountOf(r.fileTypes, x) == Occurrences(files, Extension, x)
  {
    FileTypeCountsSpec(SelectedFiles(ConfigFor(directory, data), directory, glob, listing), x);
  }

  /** `analyze_directory` */
  method AnalyzeDirectoryWith(directory: seq<string>, data: seq<(string, Yaml)>, glob: (string, string) -> bool,
                              listing: Option<seq<Item>>, read: seq<string> -> Option<string>, available: bool,
                              analyze: (string, seq<string>) -> (seq<ApiInfo>, seq<string>))
    returns (r: DirectoryAnalysis)
    ensures r == AnalyzeDirectory(directory, data, glob, listing, read, available, analyze)
  {
    var config := ConfigFor(directory, data);
    var files := GetSourceFiles(config, directory, glob, listing);
    var counts := [];
    var llmApis := [];
    var llmSkillsets := [];
    for i := 0 to |files|
      invariant counts == FileTypeCounts(files[..i])
      invariant (llmApis, llmSkillsets) == ModelResults(directory, files[..i], read, available, analyze)
    {
      CountByStep(files, Extension, i);
      ModelResultsStep(directory, files, i, read, available, analyze);
      counts := Bump(counts, Extension(files[i]));
      var path := directory + [files[i]];
      var content := read(path);
      if content.Some? && available {
        var found := analyze(content.value, path);
        llmApis := llmApis + found.0;
        llmSkillsets := llmSkillsets + found.1;
      }
    }
    assert files[..|files|] == files;
    r := AggregateAnalysisResults(PathString(directory), [], counts, llmSkillsets, llmApis);
  }
}
