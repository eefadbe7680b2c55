/**
 * The `.semanticsrc` settings: the exclude patterns, the exclusion test
 * applied to files before analysis, and the output format with its file name.
 *
 * The parsed YAML document is a value (an empty mapping when the file is
 * missing or unreadable); the root is the resolved root directory as its path
 * components; glob matching (`fnmatch`) is the parameter `glob(name, pattern)`.
 */
module Config {
  import opened Text
  import opened Model

  /** The YAML values `yaml.safe_load` produces. */
  datatype Yaml =
    | YStr(s: string)
    | YInt(i: int)
    | YBool(b: bool)
    | YNull
    | YList(items: seq<Yaml>)
    | YMap(entries: seq<(string, Yaml)>)

  /** A `SemanticConfig`: its resolved root and the loaded mapping. */
  datatype SemanticConfig = SemanticConfig(root: seq<string>, data: seq<(string, Yaml)>)

  /** `data.get(key)` */
  function Get(data: seq<(string, Yaml)>, key: string): (r: Option<Yaml>)
    ensures r.Some? <==> exists i :: 0 <= i < |data| && data[i].0 == key
    ensures r.Some? ==> exists i :: 0 <= i < |data| && data[i] == (key, r.value)
  {
    if data == [] then None
    else if data[0].0 == key then Some(data[0].1)
    else
      var r := Get(data[1..], key);
      assert forall i :: 1 <= i < |data| ==> data[i] == data[1..][i - 1];
      r
  }

  // ---------------------------------------------------------------------
  // Exclude patterns

  /** The string elements of a YAML list, in order. */
  function Strings(items: seq<Yaml>): seq<string> {
    if items == [] then []
    else Strings(items[..|items| - 1]) + (if items[|items| - 1].YStr? then [items[|items| - 1].s] else [])
  }

  /** The patterns are exactly the string elements. */
  lemma {:induction false} StringsMembers(items: seq<Yaml>, x: string)
    ensures x in Strings(items) <==> YStr(x) in items
  {
    if items != [] {
      var init := items[..|items| - 1];
      StringsMembers(init, x);
      assert items == init + [items[|items| - 1]];
    }
  }

  /** The string elements keep their order: taking them distributes over concatenation. */
  lemma {:induction false} StringsConcat(a: seq<Yaml>, b: seq<Yaml>)
    ensures Strings(a + b) == Strings(a) + Strings(b)
    decreases |b|
  {
    if b != [] {
      var init := b[..|b| - 1];
      assert (a + b)[..|a + b| - 1] == a + init;
      StringsConcat(a, init);
    } else {
      assert a + b == a;
    }
  }

  /** What `get_exclude_patterns` returns. */
  function ExcludePatterns(c: SemanticConfig): seq<string> {
    match Get(c.data, "exclude")
    case Some(YList(items)) => Strings(items)
    case _ => []
  }

  /** A missing `exclude` or one that is not a list gives no patterns; a list gives its string elements. */
  lemma ExcludePatternsCases(c: SemanticConfig, x: string)
    ensures !(Get(c.data, "exclude").Some? && Get(c.data, "exclude").value.YList?) ==> ExcludePatterns(c) == []
    ensures Get(c.data, "exclude").Some? && Get(c.data, "exclude").value.YList? ==>
      (x in ExcludePatterns(c) <==> YStr(x) in Get(c.data, "exclude").value.items)
  {
    if Get(c.data, "exclude").Some? && Get(c.data, "exclude").value.YList? {
      StringsMembers(Get(c.data, "exclude").value.items, x);
    }
  }

  /** `get_exclude_patterns`: the loop that keeps the string elements. */
  method GetExcludePatterns(c: SemanticConfig) returns (patterns: seq<string>)
    ensures patterns == ExcludePatterns(c)
  {
    var value := Get(c.data, "exclude");
    if !(value.Some? && value.value.YList?) {
      // the default `[]`, or a value that is not a list
      return [];
    }
    var items := value.value.items;
    patterns := [];
    for i := 0 to |items|
      invariant patterns == Strings(items[..i])
    {
      assert items[..i + 1][..i] == items[..i];
      if items[i].YStr? {
        patterns := patterns + [items[i].s];
      }
    }
    assert items[..|items|] == items;
  }

  // ---------------------------------------------------------------------
  // Path exclusion

  /** `path.relative_to(root)`: the components after the root, or `None` (a `ValueError`) outside it. */
  function RelativeTo(path: seq<string>, root: seq<string>): (r: Option<seq<string>>)
    ensures r.Some? <==> root <= path
    ensures r.Some? ==> path == root + r.value
  {
    if root <= path then Some(path[|root|..]) else None
  }

  /** `str(relative_path)`: the components joined by `/`, or `.` for none. */
  function PathString(rel: seq<string>): string {
    if rel == [] then "." else Join(rel, "/")
  }

  /** `path.name` */
  function PathName(path: seq<string>): string {
    if path == [] then "" else path[|path| - 1]
  }

  /** One pattern of the loop in `should_exclude_path` matches the path. */
  predicate PatternMatches(pattern: string, rel: seq<string>, path: seq<string>, isDir: bool, glob: (string, string) -> bool) {
    if EndsWith(pattern, "/") then
      var dirPattern := pattern[..|pattern| - 1];
      dirPattern in rel || (isDir && PathName(path) == dirPattern)
    else
      glob(PathString(rel), pattern) || glob(PathName(path), pattern)
  }

  /** What `should_exclude_path` returns. */
  predicate Excluded(c: SemanticConfig, path: seq<string>, isDir: bool, glob: (string, string) -> bool) {
    var patterns := ExcludePatterns(c);
    patterns != [] && RelativeTo(path, c.root).Some? &&
    exists i :: 0 <= i < |patterns| && PatternMatches(patterns[i], path[|c.root|..], path, isDir, glob)
  }

  /** Without patterns, or outside the root, nothing is excluded. */
  lemma NotExcluded(c: SemanticConfig, path: seq<string>, isDir: bool, glob: (string, string) -> bool)
    ensures ExcludePatterns(c) == [] ==> !Excluded(c, path, isDir, glob)
    ensures !(c.root <= path) ==> !Excluded(c, path, isDir, glob)
  {
  }

  /** A `name/` pattern excludes every path under the root that has a component `name` below the root. */
  lemma DirectoryPatternExcludes(c: SemanticConfig, path: seq<string>, isDir: bool, glob: (string, string) -> bool, k: nat)
    requires k < |ExcludePatterns(c)| && EndsWith(ExcludePatterns(c)[k], "/")
    requires c.root <= path
    requires ExcludePatterns(c)[k][..|ExcludePatterns(c)[k]| - 1] in path[|c.root|..]
    ensures Excluded(c, path, isDir, glob)
  {
    assert PatternMatches(ExcludePatterns(c)[k], path[|c.root|..], path, isDir, glob);
  }

  /** `should_exclude_path`: the pattern loop, which stops at the first pattern that matches. */
  method ShouldExcludePath(c: SemanticConfig, path: seq<string>, isDir: bool, glob: (string, string) -> bool) returns (excluded: bool)
    ensures excluded == Excluded(c, path, isDir, glob)
  {
    var patterns := GetExcludePatterns(c);
    if patterns == [] {
      return false;
    }
    var rel := RelativeTo(path, c.root);
    if rel.None? {
      // `relative_to` raised `ValueError`
      return false;
    }
    for i := 0 to |patterns|
      invariant forall k :: 0 <= k < i ==> !PatternMatches(patterns[k], rel.value, path, isDir, glob)
    {
      var pattern := patterns[i];
      if EndsWith(pattern, "/") {
        var dirPattern := pattern[..|pattern| - 1];
        if dirPattern in rel.value {
          return true;
        }
        if isDir && PathName(path) == dirPattern {
          return true;
        }
      } else {
        if glob(PathString(rel.value), pattern) || glob(PathName(path), pattern) {
          return true;
        }
      }
    }
    return false;
  }

  // ---------------------------------------------------------------------
  // Output format

  /** The outcome of `get_output_format` as written: a format, or the `TypeError` of an unhashable value. */
  datatype FormatOutcome = Format(name: string) | TypeError

  /** Lists and mappings are unhashable, so `value in {'agents', 'claude'}` raises for them. */
  predicate Unhashable(v: Yaml) {
    v.YList? || v.YMap?
  }

  /** `get_output_format` as written. */
  function OutputFormatAsWritten(c: SemanticConfig): FormatOutcome {
    var value := Get(c.data, "output_format");
    if value.Some? && Unhashable(value.value) then TypeError
    else if value == Some(YStr("agents")) || value == Some(YStr("claude")) then Format(value.value.s)
    else Format("agents")
  }

  /** A list as the output format makes the check raise instead of falling back to `agents`. */
  lemma OutputFormatListRaises(c: SemanticConfig)
    requires c.data == [("output_format", YList([YStr("claude")]))]
    ensures OutputFormatAsWritten(c) == TypeError
  {
    assert Get(c.data, "output_format") == Some(YList([YStr("claude")]));
  }

  /** `get_output_format` with every value that is not a valid format falling back to `agents`. */
  function OutputFormat(c: SemanticConfig): (r: string)
    ensures r == "agents" || r == "claude"
  {
    var value := Get(c.data, "output_format");
    if value == Some(YStr("claude")) then "claude" else "agents"
  }

  /** The format is `claude` exactly when the configuration says so, and `agents` otherwise, by default included. */
  lemma OutputFormatCases(c: SemanticConfig)
    ensures OutputFormat(c) == "claude" <==> Get(c.data, "output_format") == Some(YStr("claude"))
    ensures Get(c.data, "output_format") == None ==> OutputFormat(c) == "agents"
  {
  }

  /** Wherever the code as written returns a format, it returns the corrected one. */
  lemma OutputFormatAgrees(c: SemanticConfig)
    ensures OutputFormatAsWritten(c).Format? ==> OutputFormatAsWritten(c) == Format(OutputFormat(c))
    ensures OutputFormatAsWritten(c) == TypeError <==> Get(c.data, "output_format").Some? && Unhashable(Get(c.data, "output_format").value)
  {
  }

  /** `format_to_filename` */
  function FormatToFilename(format: string): (r: string)
    ensures r == "agents.md" || r == "claude.md"
    ensures r == "claude.md" <==> format == "claude"
  {
    if format == "claude" then "claude.md" else "agents.md"
  }

  /** The configured format names its own file. */
  lemma FormatFilename(c: SemanticConfig)
    ensures FormatToFilename(OutputFormat(c)) == OutputFormat(c) + ".md"
  {
  }
}
