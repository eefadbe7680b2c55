/**
 * The parser-based orchestrator: it keeps the registered language parsers,
 * lists the source files of one directory, counts them by extension, hands
 * each file to the first parser that accepts its extension and merges the
 * per-file fragments into one directory analysis.
 *
 * A directory listing is a value (`None` when `iterdir` fails); reading and
 * parsing a file is the parameter `parse`, which gives `None` when the file
 * cannot be read or the parser raises.  Files are named by their names in the
 * directory: paths of one directory compare as their names do.
 */
module AnalysisOrchestrator {
  import opened Text
  import opened Order
  import opened Model
  import PythonParser
  import JavaScriptParser

  // ---------------------------------------------------------------------
  // Parsers

  /** A language parser as the orchestrator uses it: its class name and its `supported_extensions`. */
  datatype Parser = Parser(name: string, extensions: seq<string>)

  /** `supports_extension`: every parser tests `ext.lower() in self.supported_extensions`. */
  predicate Supports(p: Parser, ext: string) {
    Lower(ext) in p.extensions
  }

  const PythonParserInfo: Parser := Parser("PythonParser", [".py", ".pyi"])
  const JavaScriptParserInfo: Parser := Parser("JavaScriptParser", JavaScriptParser.SupportedExtensions)

  /** The Python parser's entry accepts what the Python parser accepts. */
  lemma PythonParserInfoAgrees(ext: string)
    ensures Supports(PythonParserInfo, ext) <==> PythonParser.SupportsExtension(ext)
  {
  }

  /** The JavaScript parser's entry accepts what the JavaScript parser accepts. */
  lemma JavaScriptParserInfoAgrees(ext: string)
    ensures Supports(JavaScriptParserInfo, ext) <==> JavaScriptParser.SupportsExtension(ext)
  {
    JavaScriptParser.SupportsExtensionIgnoresCase(ext);
  }

  /** The index of the first parser that supports `ext`. */
  function FirstSupporting(parsers: seq<Parser>, ext: string): (r: Option<nat>)
    ensures r.Some? ==> r.value < |parsers|
    decreases |parsers|
  {
    if parsers == [] then None
    else if Supports(parsers[0], ext) then Some(0)
    else match FirstSupporting(parsers[1..], ext)
      case None => None
      case Some(k) => Some(k + 1)
  }

  /** `_find_parser_for_file` picks the first supporting parser, and finds none only when no parser supports the extension. */
  lemma {:induction false} FirstSupportingFirst(parsers: seq<Parser>, ext: string)
    ensures var r := FirstSupporting(parsers, ext);
      && (r.Some? ==> Supports(parsers[r.value], ext) && forall k :: 0 <= k < r.value ==> !Supports(parsers[k], ext))
      && (r.None? ==> forall k :: 0 <= k < |parsers| ==> !Supports(parsers[k], ext))
    decreases |parsers|
  {
    if parsers != [] && !Supports(parsers[0], ext) {
      FirstSupportingFirst(parsers[1..], ext);
      assert forall k :: 1 <= k < |parsers| ==> parsers[k] == parsers[1..][k - 1];
    }
  }

  /** A parser registered later is never chosen over one registered earlier. */
  lemma {:induction false} FirstSupportingAppend(parsers: seq<Parser>, p: Parser, ext: string)
    ensures FirstSupporting(parsers + [p], ext) ==
      (if FirstSupporting(parsers, ext).Some? then FirstSupporting(parsers, ext)
       else if Supports(p, ext) then Some(|parsers|) else None)
    decreases |parsers|
  {
    if parsers != [] {
      assert (parsers + [p])[1..] == parsers[1..] + [p];
      FirstSupportingAppend(parsers[1..], p, ext);
    }
  }

  /** The set of extensions the parsers support, listed with repeats. */
  function AllExtensions(parsers: seq<Parser>): seq<string> {
    if parsers == [] then [] else AllExtensions(parsers[..|parsers| - 1]) + parsers[|parsers| - 1].extensions
  }

  lemma {:induction false} AllExtensionsMembers(parsers: seq<Parser>, x: string)
    ensures x in AllExtensions(parsers) <==> exists i :: 0 <= i < |parsers| && x in parsers[i].extensions
  {
    if parsers != [] {
      var init := parsers[..|parsers| - 1];
      AllExtensionsMembers(init, x);
      assert forall i :: 0 <= i < |init| ==> init[i] == parsers[i];
    }
  }

  /** What `get_supported_extensions` returns. */
  function SupportedExtensions(parsers: seq<Parser>): seq<string> {
    SortedSet(AllExtensions(parsers))
  }

  /** The supported extensions are the sorted, duplicate-free union of every parser's extensions. */
  lemma SupportedExtensionsUnion(parsers: seq<Parser>, x: string)
    ensures StrictlySorted(SupportedExtensions(parsers), StrLe)
    ensures x in SupportedExtensions(parsers) <==> exists i :: 0 <= i < |parsers| && x in parsers[i].extensions
  {
    AllExtensionsMembers(parsers, x);
  }

  // ---------------------------------------------------------------------
  // Source files of a directory

  /** An entry of a directory listing. */
  datatype Item = Item(name: string, isFile: bool)

  /** The extensions `_get_source_files` recognises, compared with the lower-cased suffix. */
  const SourceExtensions: seq<string> := [
    ".py", ".pyi", ".js", ".jsx", ".ts", ".tsx", ".mjs", ".java", ".kt", ".scala",
    ".c", ".cpp", ".cc", ".cxx", ".h", ".hpp", ".hxx", ".rs", ".go", ".rb", ".php",
    ".cs", ".swift", ".m", ".mm", ".r", ".R", ".sql", ".sh", ".bash", ".zsh", ".ps1",
    ".yaml", ".yml", ".json", ".toml", ".ini", ".cfg", ".conf", ".md", ".rst"
  ]

  /** `Path(name).suffix.lower()` */
  function Extension(name: string): string {
    Lower(Suffix(name))
  }

  /** A non-hidden file whose lower-cased suffix is a source extension. */
  predicate IsSource(item: Item) {
    item.isFile && InList(Extension(item.name), SourceExtensions) && !StartsWith(item.name, ".")
  }

  /** The names of the items `keep` selects, in listing order. */
  function Kept(items: seq<Item>, keep: Item -> bool): (r: seq<string>)
    ensures |r| <= |items|
  {
    if items == [] then []
    else
      var last := items[|items| - 1];
      Kept(items[..|items| - 1], keep) + (if keep(last) then [last.name] else [])
  }

  lemma {:induction false} KeptMembers(items: seq<Item>, keep: Item -> bool, x: string)
    ensures x in Kept(items, keep) <==> exists i :: 0 <= i < |items| && keep(items[i]) && items[i].name == x
  {
    if items != [] {
      var init := items[..|items| - 1];
      KeptMembers(init, keep, x);
      assert forall i :: 0 <= i < |init| ==> init[i] == items[i];
    }
  }

  /** The selected names, sorted; nothing when the directory cannot be listed. */
  function SortedKept(listing: Option<seq<Item>>, keep: Item -> bool): seq<string> {
    match listing
    case None => []
    case Some(items) => SortBy(Kept(items, keep), StrLe)
  }

  /** A name is returned exactly when the listing holds a selected item of that name, and the names come sorted. */
  lemma SortedKeptSpec(listing: Option<seq<Item>>, keep: Item -> bool, x: string)
    ensures Sorted(SortedKept(listing, keep), StrLe)
    ensures x in SortedKept(listing, keep) <==>
      listing.Some? && exists i :: 0 <= i < |listing.value| && keep(listing.value[i]) && listing.value[i].name == x
  {
    StrLeIsTotalPreorder();
    if listing.Some? {
      var k := Kept(listing.value, keep);
      SortBySorted(k, StrLe);
      KeptMembers(listing.value, keep, x);
      assert x in SortBy(k, StrLe) <==> x in multiset(SortBy(k, StrLe));
    }
  }

  /** The loop of `_get_source_files` over a listing, followed by `sorted`. */
  method SelectFiles(listing: Option<seq<Item>>, keep: Item -> bool) returns (files: seq<string>)
    ensures files == SortedKept(listing, keep)
  {
    if listing.None? {
      // `iterdir` raised: the error is logged and nothing is found
      return [];
    }
    var items := listing.value;
    var found := [];
    for i := 0 to |items|
      invariant found == Kept(items[..i], keep)
    {
      assert items[..i + 1][..i] == items[..i];
      if keep(items[i]) {
        found := found + [items[i].name];
      }
    }
    assert items[..|items|] == items;
    files := SortBy(found, StrLe);
  }

  /** What `_get_source_files` returns. */
  function SourceFiles(listing: Option<seq<Item>>): seq<string> {
    SortedKept(listing, IsSource)
  }

  /** `_get_source_files` */
  method GetSourceFiles(listing: Option<seq<Item>>) returns (files: seq<string>)
    ensures files == SourceFiles(listing)
  {
    files := SelectFiles(listing, IsSource);
  }

  /** The source files are exactly the non-hidden files with a recognised suffix, in sorted order. */
  lemma SourceFilesSpec(listing: Option<seq<Item>>, x: string)
    ensures Sorted(SourceFiles(listing), StrLe)
    ensures x in SourceFiles(listing) <==>
      listing.Some? && exists i :: 0 <= i < |listing.value| && IsSource(listing.value[i]) && listing.value[i].name == x
  {
    SortedKeptSpec(listing, IsSource, x);
  }

  // ---------------------------------------------------------------------
  // Counting files by type

  /** `counts[key] += 1` on a `defaultdict(int)`, kept as its items in insertion order. */
  function Bump(counts: seq<(string, int)>, key: string): (r: seq<(string, int)>)
    decreases |counts|
  {
    if counts == [] then [(key, 1)]
    else if counts[0].0 == key then [(key, counts[0].1 + 1)] + counts[1..]
    else [counts[0]] + Bump(counts[1..], key)
  }

  /** `counts.get(key, 0)` */
  function CountOf(counts: seq<(string, int)>, key: string): int
    decreases |counts|
  {
    if counts == [] then 0
    else if counts[0].0 == key then counts[0].1
    else CountOf(counts[1..], key)
  }

  /** `sum(counts.values())` */
  function Total(counts: seq<(string, int)>): int
    decreases |counts|
  {
    if counts == [] then 0 else counts[0].1 + Total(counts[1..])
  }

  lemma {:induction false} BumpCount(counts: seq<(string, int)>, key: string, x: string)
    ensures CountOf(Bump(counts, key), x) == CountOf(counts, x) + (if x == key then 1 else 0)
    decreases |counts|
  {
    if counts != [] && counts[0].0 != key {
      BumpCount(counts[1..], key, x);
    }
  }

  lemma {:induction false} BumpTotal(counts: seq<(string, int)>, key: string)
    ensures Total(Bump(counts, key)) == Total(counts) + 1
    decreases |counts|
  {
    if counts != [] && counts[0].0 != key {
      BumpTotal(counts[1..], key);
      assert Bump(counts, key)[1..] == Bump(counts[1..], key);
    } else if counts != [] {
      assert Bump(counts, key)[1..] == counts[1..];
    }
  }

  lemma {:induction false} BumpKeys(counts: seq<(string, int)>, key: string, x: string)
    ensures x in Keys(Bump(counts, key)) <==> x in Keys(counts) || x == key
    decreases |counts|
  {
    if counts != [] && counts[0].0 != key {
      BumpKeys(counts[1..], key, x);
      assert Keys(counts) == [counts[0].0] + Keys(counts[1..]);
      assert Keys(Bump(counts, key)) == [counts[0].0] + Keys(Bump(counts[1..], key));
    } else if counts != [] {
      assert Keys(Bump(counts, key)) == Keys(counts);
    }
  }

  lemma {:induction false} BumpDistinct(counts: seq<(string, int)>, key: string)
    requires DistinctKeys(counts)
    ensures DistinctKeys(Bump(counts, key))
    decreases |counts|
  {
    if counts != [] && counts[0].0 != key {
      var rest := Bump(counts[1..], key);
      BumpDistinct(counts[1..], key);
      BumpKeys(counts[1..], key, counts[0].0);
      assert counts[0].0 !in Keys(counts[1..]);
      assert counts[0].0 !in Keys(rest);
      var b := Bump(counts, key);
      assert b == [counts[0]] + rest;
      forall i, j | 0 <= i < j < |b| ensures b[i].0 != b[j].0 {
        if i == 0 {
          assert b[j].0 == Keys(rest)[j - 1];
        } else {
          assert b[i] == rest[i - 1] && b[j] == rest[j - 1];
        }
      }
    }
  }

  /** The keys of a dict, in insertion order. */
  function Keys(counts: seq<(string, int)>): (r: seq<string>)
    ensures |r| == |counts| && forall i :: 0 <= i < |counts| ==> r[i] == counts[i].0
  {
    if counts == [] then [] else [counts[0].0] + Keys(counts[1..])
  }

  /** The counts a loop of `counts[key(x)] += 1` over `xs` builds. */
  function CountBy(xs: seq<string>, key: string -> string): seq<(string, int)> {
    if xs == [] then [] else Bump(CountBy(xs[..|xs| - 1], key), key(xs[|xs| - 1]))
  }

  /** The number of elements of `xs` whose key is `k`. */
  function Occurrences(xs: seq<string>, key: string -> string, k: string): nat {
    if xs == [] then 0
    else Occurrences(xs[..|xs| - 1], key, k) + (if key(xs[|xs| - 1]) == k then 1 else 0)
  }

  lemma {:induction false} CountByCount(xs: seq<string>, key: string -> string, k: string)
    ensures CountOf(CountBy(xs, key), k) == Occurrences(xs, key, k)
  {
    if xs != [] {
      CountByCount(xs[..|xs| - 1], key, k);
      BumpCount(CountBy(xs[..|xs| - 1], key), key(xs[|xs| - 1]), k);
    }
  }

  lemma {:induction false} CountByTotal(xs: seq<string>, key: string -> string)
    ensures Total(CountBy(xs, key)) == |xs|
  {
    if xs != [] {
      CountByTotal(xs[..|xs| - 1], key);
      BumpTotal(CountBy(xs[..|xs| - 1], key), key(xs[|xs| - 1]));
    }
  }

  lemma {:induction false} CountByDistinct(xs: seq<string>, key: string -> string)
    ensures DistinctKeys(CountBy(xs, key))
  {
    if xs != [] {
      CountByDistinct(xs[..|xs| - 1], key);
      BumpDistinct(CountBy(xs[..|xs| - 1], key), key(xs[|xs| - 1]));
    }
  }

  lemma {:induction false} CountByKeys(xs: seq<string>, key: string -> string, k: string)
    ensures k in Keys(CountBy(xs, key)) <==> exists i :: 0 <= i < |xs| && key(xs[i]) == k
  {
    if xs != [] {
      var n := |xs| - 1;
      var init := xs[..n];
      CountByKeys(init, key, k);
      BumpKeys(CountBy(init, key), key(xs[n]), k);
      if key(xs[n]) != k && exists i :: 0 <= i < |xs| && key(xs[i]) == k {
        var i :| 0 <= i < |xs| && key(xs[i]) == k;
        assert init[i] == xs[i];
      }
      if exists i :: 0 <= i < n && key(init[i]) == k {
        var i :| 0 <= i < n && key(init[i]) == k;
        assert xs[i] == init[i];
      }
    }
  }

  lemma CountByStep(xs: seq<string>, key: string -> string, i: nat)
    requires i < |xs|
    ensures CountBy(xs[..i + 1], key) == Bump(CountBy(xs[..i], key), key(xs[i]))
  {
    assert xs[..i + 1][..i] == xs[..i];
  }

  /** The `file_type_counts` the loop of `analyze_directory` builds. */
  function FileTypeCounts(files: seq<string>): seq<(string, int)> {
    CountBy(files, Extension)
  }

  /**
   * The file-type counts have distinct keys, the lower-cased suffixes of the
   * files; each counts the files with that suffix, and together they count
   * every file once.
   */
  lemma FileTypeCountsSpec(files: seq<string>, x: string)
    ensures var r := FileTypeCounts(files);
      && DistinctKeys(r)
      && Total(r) == |files|
      && CountOf(r, x) == Occurrences(files, Extension, x)
      && (x in Keys(r) <==> exists i :: 0 <= i < |files| && Extension(files[i]) == x)
  {
    CountByDistinct(files, Extension);
    CountByTotal(files, Extension);
    CountByCount(files, Extension, x);
    CountByKeys(files, Extension, x);
  }

  // ---------------------------------------------------------------------
  // Aggregation

  /** `all_apis` after extending it with every fragment's APIs. */
  function AllApis(fragments: seq<AnalysisFragment>): seq<ApiInfo> {
    if fragments == [] then [] else AllApis(fragments[..|fragments| - 1]) + fragments[|fragments| - 1].apis
  }

  /** The skillsets of every fragment, in order, with repeats. */
  function AllSkillsets(fragments: seq<AnalysisFragment>): seq<string> {
    if fragments == [] then [] else AllSkillsets(fragments[..|fragments| - 1]) + fragments[|fragments| - 1].skillsets
  }

  lemma {:induction false} AllSkillsetsMembers(fragments: seq<AnalysisFragment>, x: string)
    ensures x in AllSkillsets(fragments) <==> exists i :: 0 <= i < |fragments| && x in fragments[i].skillsets
  {
    if fragments != [] {
      var init := fragments[..|fragments| - 1];
      AllSkillsetsMembers(init, x);
      assert forall i :: 0 <= i < |init| ==> init[i] == fragments[i];
    }
  }

  /** What `_aggregate_analysis_results` returns. */
  function Aggregate(directoryPath: string, fragments: seq<AnalysisFragment>, counts: seq<(string, int)>): DirectoryAnalysis {
    DirectoryAnalysis(directoryPath, counts, SortedSet(AllSkillsets(fragments)), SortBy(AllApis(fragments), ApiLe))
  }

  /** The APIs are a permutation of the fragments' APIs, sorted by source file and then line. */
  lemma AggregateApis(directoryPath: string, fragments: seq<AnalysisFragment>, counts: seq<(string, int)>)
    ensures var r := Aggregate(directoryPath, fragments, counts);
      multiset(r.apis) == multiset(AllApis(fragments)) && Sorted(r.apis, ApiLe)
  {
    ApiLeIsTotalPreorder();
    SortBySorted(AllApis(fragments), ApiLe);
  }

  /** The skillsets are the sorted, duplicate-free union of the fragments' skillsets. */
  lemma AggregateSkillsets(directoryPath: string, fragments: seq<AnalysisFragment>, counts: seq<(string, int)>, x: string)
    ensures var r := Aggregate(directoryPath, fragments, counts);
      && StrictlySorted(r.requiredSkillsets, StrLe)
      && (x in r.requiredSkillsets <==> exists i :: 0 <= i < |fragments| && x in fragments[i].skillsets)
  {
    AllSkillsetsMembers(fragments, x);
  }

  /** `_aggregate_analysis_results`: extend and collect in a loop, then sort. */
  method AggregateAnalysisResults(directoryPath: string, fragments: seq<AnalysisFragment>, counts: seq<(string, int)>)
    returns (r: DirectoryAnalysis)
    ensures r == Aggregate(directoryPath, fragments, counts)
  {
    var allApis := [];
    var skillsets := [];
    for i := 0 to |fragments|
      invariant allApis == AllApis(fragments[..i])
      invariant skillsets == AllSkillsets(fragments[..i])
    {
      assert fragments[..i + 1][..i] == fragments[..i];
      allApis := allApis + fragments[i].apis;
      skillsets := skillsets + fragments[i].skillsets;
    }
    assert fragments[..|fragments|] == fragments;
    r := DirectoryAnalysis(directoryPath, counts, SortedSet(skillsets), SortBy(allApis, ApiLe));
  }

  // ---------------------------------------------------------------------
  // Analysing a directory

  /** `_analyze_file`: the first supporting parser's fragment, or `None` without one. */
  function AnalyzeFile(parsers: seq<Parser>, file: string, parse: (Parser, string) -> Option<AnalysisFragment>): Option<AnalysisFragment> {
    match FirstSupporting(parsers, Extension(file))
    case None => None
    case Some(k) => parse(parsers[k], file)
  }

  /** The fragments of the files that were analysed, in file order. */
  function Fragments(parsers: seq<Parser>, files: seq<string>, parse: (Parser, string) -> Option<AnalysisFragment>): (r: seq<AnalysisFragment>)
    ensures |r| <= |files|
  {
    if files == [] then []
    else
      var f := AnalyzeFile(parsers, files[|files| - 1], parse);
      Fragments(parsers, files[..|files| - 1], parse) + (if f.Some? then [f.value] else [])
  }

  /** One more file adds its fragment, when it has one. */
  lemma FragmentsStep(parsers: seq<Parser>, files: seq<string>, i: nat, parse: (Parser, string) -> Option<AnalysisFragment>)
    requires i < |files|
    ensures var f := AnalyzeFile(parsers, files[i], parse);
      Fragments(parsers, files[..i + 1], parse) == Fragments(parsers, files[..i], parse) + (if f.Some? then [f.value] else [])
  {
    assert files[..i + 1][..i] == files[..i];
  }

  /** A file no parser supports contributes no fragment. */
  lemma {:induction false} FragmentsUnsupported(parsers: seq<Parser>, files: seq<string>, parse: (Parser, string) -> Option<AnalysisFragment>)
    requires forall i, k :: 0 <= i < |files| && 0 <= k < |parsers| ==> !Supports(parsers[k], Extension(files[i]))
    ensures Fragments(parsers, files, parse) == []
  {
    if files != [] {
      FirstSupportingFirst(parsers, Extension(files[|files| - 1]));
      FragmentsUnsupported(parsers, files[..|files| - 1], parse);
    }
  }

  /** What `analyze_directory` returns. */
  function AnalyzeDirectory(parsers: seq<Parser>, directoryPath: string, listing: Option<seq<Item>>,
                            parse: (Parser, string) -> Option<AnalysisFragment>): DirectoryAnalysis
  {
    var files := SourceFiles(listing);
    Aggregate(directoryPath, Fragments(parsers, files, parse), FileTypeCounts(files))
  }

  /** The file-type counts of the analysis add up to the number of source files, one per file under its lower-cased suffix. */
  lemma AnalyzeDirectoryCounts(parsers: seq<Parser>, directoryPath: string, listing: Option<seq<Item>>,
                               parse: (Parser, string) -> Option<AnalysisFragment>, x: string)
    ensures var r := AnalyzeDirectory(parsers, directoryPath, listing, parse);
      && Total(r.fileTypes) == |SourceFiles(listing)|
      && DistinctKeys(r.fileTypes)
      && CountOf(r.fileTypes, x) == Occurrences(SourceFiles(listing), Extension, x)
  {
    FileTypeCountsSpec(SourceFiles(listing), x);
  }

  /** The orchestrator and its registered parsers. */
  class Orchestrator {
    var parsers: seq<Parser>

    /** `__init__` registers the Python parser and nothing else. */
    constructor()
      ensures parsers == [PythonParserInfo]
    {
      parsers := [PythonParserInfo];
    }

    /** `register_parser` appends the parser after the ones registered before. */
    method RegisterParser(p: Parser)
      modifies this
      ensures parsers == old(parsers) + [p]
    {
      parsers := parsers + [p];
    }

    /** `_find_parser_for_file`: the index of the parser chosen for the file. */
    method FindParserForFile(file: string) returns (r: Option<nat>)
      ensures r == FirstSupporting(parsers, Extension(file))
    {
      var ext := Extension(file);
      for i := 0 to |parsers|
        invariant FirstSupporting(parsers[i..], ext).Some? ==>
          FirstSupporting(parsers, ext) == Some(i + FirstSupporting(parsers[i..], ext).value)
        invariant FirstSupporting(parsers[i..], ext).None? ==> FirstSupporting(parsers, ext).None?
      {
        assert parsers[i..][1..] == parsers[i + 1..];
        if Supports(parsers[i], ext) {
          return Some(i);
        }
      }
      return None;
    }

    /** `_analyze_file` */
    method AnalyzeFileWith(file: string, parse: (Parser, string) -> Option<AnalysisFragment>) returns (r: Option<AnalysisFragment>)
      ensures r == AnalyzeFile(parsers, file, parse)
    {
      var k := FindParserForFile(file);
      if k.None? {
        return None;
      }
      r := parse(parsers[k.value], file);
    }

    /** `analyze_directory`: count and analyse every source file, then aggregate. */
    method AnalyzeDirectoryIn(directoryPath: string, listing: Option<seq<Item>>, parse: (Parser, string) -> Option<AnalysisFragment>)
      returns (r: DirectoryAnalysis)
      ensures r == AnalyzeDirectory(parsers, directoryPath, listing, parse)
    {
      var files := GetSourceFiles(listing);
      var fragments := [];
      var counts := [];
      for i := 0 to |files|
        invariant fragments == Fragments(parsers, files[..i], parse)
        invariant counts == FileTypeCounts(files[..i])
      {
        CountByStep(files, Extension, i);
        FragmentsStep(parsers, files, i, parse);
        counts := Bump(counts, Extension(files[i]));
        var fragment := AnalyzeFileWith(files[i], parse);
        if fragment.Some? {
          fragments := fragments + [fragment.value];
        }
      }
      assert files[..|files|] == files;
      r := AggregateAnalysisResults(directoryPath, fragments, counts);
    }

    /** `get_supported_extensions` */
    method GetSupportedExtensions() returns (r: seq<string>)
      ensures r == SupportedExtensions(parsers)
    {
      var all := [];
      for i := 0 to |parsers|
        invariant all == AllExtensions(parsers[..i])
      {
        assert parsers[..i + 1][..i] == parsers[..i];
        all := all + parsers[i].extensions;
      }
      assert parsers[..|parsers|] == parsers;
      r := SortedSet(all);
    }
  }
}
