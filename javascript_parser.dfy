/**
 * The JavaScript/TypeScript parser: which suffixes it claims, where a
 * function, class or type declaration ends (brace counting, or the first
 * line ending in `;`), the descriptions it derives from a JSDoc comment or
 * from a name, the APIs it extracts line by line, and the frameworks a file
 * uses.
 *
 * The regular expressions that recognise a declaration on a line are
 * abstract matchers that return the declared name (group 2 of the source's
 * patterns) or `None`; the framework patterns are searched with the abstract
 * predicate `search(pattern, text)`, which stands for a multi-line,
 * case-insensitive `re.search`.
 */
module JavaScriptParser {
  import opened Text
  import opened Order
  import opened Model
  import opened FrameworkDetection

  // ---------------------------------------------------------------------
  // Supported extensions

  const SupportedExtensions: seq<string> := [".js", ".jsx", ".ts", ".tsx", ".mjs", ".cjs"]

  /** `supports_extension`: the lower-cased extension is one of the six suffixes. */
  predicate SupportsExtension(ext: string) {
    InList(Lower(ext), SupportedExtensions)
  }

  /** The answer depends on the extension's lower-cased form only, and is membership in the list. */
  lemma SupportsExtensionIgnoresCase(ext: string)
    ensures SupportsExtension(ext) <==> Lower(ext) in SupportedExtensions
    ensures SupportsExtension(ext) <==> SupportsExtension(Lower(ext))
  {
    LowerIdempotent(ext);
    InListIsMembership(Lower(ext), SupportedExtensions);
  }

  // ---------------------------------------------------------------------
  // Brace counting

  /** The state `_find_function_end_line` keeps: `brace_count` and `found_opening`. */
  datatype Braces = Braces(count: int, foundOpening: bool)

  /** A line either closes the definition or leaves the counter in a new state. */
  datatype LineScan = Closes | Continues(after: Braces)

  function Delta(c: char): int {
    if c == '{' then 1 else if c == '}' then -1 else 0
  }

  /** Opening minus closing braces. */
  function Balance(s: string): int {
    if s == [] then 0 else Delta(s[0]) + Balance(s[1..])
  }

  /**
   * The character loop of `_find_function_end_line` over one line, from
   * counter `b`: a `}` that brings the count to zero after some `{` has been
   * seen closes the definition.
   */
  function ScanLine(line: string, b: Braces): (r: LineScan)
    ensures r.Continues? ==> r.after == Braces(b.count + Balance(line), b.foundOpening || '{' in line)
  {
    if line == [] then Continues(b)
    else if line[0] == '{' then ScanLine(line[1..], Braces(b.count + 1, true))
    else if line[0] == '}' then
      if b.foundOpening && b.count - 1 == 0 then Closes
      else ScanLine(line[1..], Braces(b.count - 1, b.foundOpening))
    else ScanLine(line[1..], b)
  }

  /** Position `k` of `line` is a `}` that, counted from `b`, balances the braces after an opening one. */
  predicate ClosesAt(line: string, b: Braces, k: int) {
    0 <= k < |line| && line[k] == '}' && (b.foundOpening || '{' in line[..k]) && b.count + Balance(line[..k + 1]) == 0
  }

  /** The counter after the first character of a line. */
  function Step(c: char, b: Braces): Braces {
    if c == '{' then Braces(b.count + 1, true)
    else if c == '}' then Braces(b.count - 1, b.foundOpening) else b
  }

  /** When a line closes the definition, some `}` in it balances the count after an opening brace. */
  lemma {:induction false} ScanLineClosesAt(line: string, b: Braces)
    requires ScanLine(line, b).Closes?
    ensures exists k :: ClosesAt(line, b, k)
    decreases |line|
  {
    var rest := line[1..];
    if line[0] == '}' && b.foundOpening && b.count - 1 == 0 {
      assert line[..1] == [line[0]];
      assert ClosesAt(line, b, 0);
    } else {
      var b' := Step(line[0], b);
      assert ScanLine(line, b) == ScanLine(rest, b');
      ScanLineClosesAt(rest, b');
      var k' :| ClosesAt(rest, b', k');
      assert line[..k' + 2][1..] == rest[..k' + 1];
      assert line[..k' + 1] == [line[0]] + rest[..k'];
      assert ClosesAt(line, b, k' + 1);
    }
  }

  /** A `}` that balances the count after an opening brace closes the definition. */
  lemma {:induction false} ClosesAtScanLine(line: string, b: Braces, k: int)
    requires ClosesAt(line, b, k)
    ensures ScanLine(line, b).Closes?
    decreases |line|
  {
    var rest := line[1..];
    if k == 0 {
      assert line[..1] == [line[0]] && [line[0]][1..] == [];
      assert Balance(line[..1]) == Delta(line[0]);
    } else if !(line[0] == '}' && b.foundOpening && b.count - 1 == 0) {
      var b' := Step(line[0], b);
      assert ScanLine(line, b) == ScanLine(rest, b');
      assert line[..k + 1][1..] == rest[..k];
      assert line[..k] == [line[0]] + rest[..k - 1];
      assert ClosesAt(rest, b', k - 1);
      ClosesAtScanLine(rest, b', k - 1);
    }
  }

  /** A line closes the definition exactly when some `}` in it balances the count after an opening brace. */
  lemma ScanLineCloses(line: string, b: Braces)
    ensures ScanLine(line, b).Closes? <==> exists k :: ClosesAt(line, b, k)
  {
    if ScanLine(line, b).Closes? {
      ScanLineClosesAt(line, b);
    }
    if k :| ClosesAt(line, b, k) {
      ClosesAtScanLine(line, b, k);
    }
  }

  /** `line.rstrip().endswith(';')` or `... .endswith(',')` on a line with `=>`: an arrow function without braces ends. */
  predicate ArrowLineEnds(line: string) {
    Contains(line, "=>") && (EndsWith(RStrip(line), ";") || EndsWith(RStrip(line), ","))
  }

  /** The line loop of `_find_function_end_line` from index `i` on, with counter `b`. */
  function FunctionEndFrom(lines: seq<string>, start: nat, i: nat, b: Braces): (r: int)
    requires start <= i <= |lines|
    ensures start < r && (r == start + 1 || r <= |lines|)
    decreases |lines| - i
  {
    if i == |lines| then start + 1
    else match ScanLine(lines[i], b)
      case Closes => i + 1
      case Continues(after) =>
        if !after.foundOpening && ArrowLineEnds(lines[i]) then i + 1
        else FunctionEndFrom(lines, start, i + 1, after)
  }

  /**
   * `_find_function_end_line`: the 1-based number of the line where the
   * definition starting at index `start` ends, or `start + 1` when no line
   * ends it.
   */
  function FunctionEndLine(lines: seq<string>, start: nat): (r: int)
    ensures start < r && (r == start + 1 || r <= |lines|)
  {
    if start > |lines| then start + 1
    else FunctionEndFrom(lines, start, start, Braces(0, false))
  }

  /** The character loop of `_find_function_end_line` over one line. */
  method ScanChars(line: string, count: int, foundOpening: bool) returns (r: LineScan)
    ensures r == ScanLine(line, Braces(count, foundOpening))
  {
    var braceCount, opening := count, foundOpening;
    var j := 0;
    while j < |line|
      invariant 0 <= j <= |line|
      invariant ScanLine(line[j..], Braces(braceCount, opening)) == ScanLine(line, Braces(count, foundOpening))
      decreases |line| - j
    {
      assert line[j..][1..] == line[j + 1..];
      var c := line[j];
      if c == '{' {
        braceCount := braceCount + 1;
        opening := true;
      } else if c == '}' {
        braceCount := braceCount - 1;
        if opening && braceCount == 0 {
          return Closes;
        }
      }
      j := j + 1;
    }
    assert line[j..] == [];
    return Continues(Braces(braceCount, opening));
  }

  /** `_find_function_end_line`: a loop over lines around the character loop. */
  method FindFunctionEndLine(lines: seq<string>, startIndex: nat) returns (endLine: int)
    ensures endLine == FunctionEndLine(lines, startIndex)
  {
    if startIndex > |lines| {
      // the range of lines to scan is empty
      return startIndex + 1;
    }
    var braceCount := 0;
    var foundOpening := false;
    var i := startIndex;
    while i < |lines|
      invariant startIndex <= i <= |lines|
      invariant FunctionEndFrom(lines, startIndex, i, Braces(braceCount, foundOpening)) == FunctionEndLine(lines, startIndex)
      decreases |lines| - i
    {
      var line := lines[i];
      var scan := ScanChars(line, braceCount, foundOpening);
      if scan.Closes? {
        return i + 1;
      }
      braceCount, foundOpening := scan.after.count, scan.after.foundOpening;
      if !foundOpening && Contains(line, "=>") {
        if EndsWith(RStrip(line), ";") || EndsWith(RStrip(line), ",") {
          return i + 1;
        }
      }
      i := i + 1;
    }
    return startIndex + 1;
  }

  /** `_find_class_end_line`: the same brace counting as for a function. */
  method FindClassEndLine(lines: seq<string>, startIndex: nat) returns (endLine: int)
    ensures endLine == FunctionEndLine(lines, startIndex)
  {
    endLine := FindFunctionEndLine(lines, startIndex);
  }

  /** The counter before line `i`: the brace balance of lines `start..i` and whether any of them has a `{`. */
  function CounterAt(lines: seq<string>, start: nat, i: nat): Braces
    requires start <= i <= |lines|
    decreases i
  {
    if i == start then Braces(0, false)
    else
      var p := CounterAt(lines, start, i - 1);
      Braces(p.count + Balance(lines[i - 1]), p.foundOpening || '{' in lines[i - 1])
  }

  /** Line `i` ends the definition, given the counter the lines before it leave. */
  ghost predicate EndsOn(lines: seq<string>, start: nat, i: nat)
    requires start <= i < |lines|
  {
    var b := CounterAt(lines, start, i);
    (exists k :: ClosesAt(lines[i], b, k)) || (!b.foundOpening && '{' !in lines[i] && ArrowLineEnds(lines[i]))
  }

  lemma {:induction false} FunctionEndAfter(lines: seq<string>, start: nat, m: nat)
    requires start <= m <= |lines|
    requires forall k :: start <= k < m ==> !EndsOn(lines, start, k)
    ensures FunctionEndFrom(lines, start, m, CounterAt(lines, start, m)) == FunctionEndLine(lines, start)
    decreases m
  {
    if m > start {
      FunctionEndAfter(lines, start, m - 1);
      var b := CounterAt(lines, start, m - 1);
      ScanLineCloses(lines[m - 1], b);
      assert !EndsOn(lines, start, m - 1);
    }
  }

  /** The definition ends on the first line that ends it. */
  lemma FunctionEndFirst(lines: seq<string>, start: nat, i: nat)
    requires start <= i < |lines| && EndsOn(lines, start, i)
    requires forall k :: start <= k < i ==> !EndsOn(lines, start, k)
    ensures FunctionEndLine(lines, start) == i + 1
  {
    FunctionEndAfter(lines, start, i);
    ScanLineCloses(lines[i], CounterAt(lines, start, i));
  }

  /** When no line ends the definition, its end is its own line. */
  lemma FunctionEndFallback(lines: seq<string>, start: nat)
    requires forall k :: start <= k < |lines| ==> !EndsOn(lines, start, k)
    ensures FunctionEndLine(lines, start) == start + 1
  {
    if start <= |lines| {
      FunctionEndAfter(lines, start, |lines|);
    }
  }

  // ---------------------------------------------------------------------
  // End of a type or interface

  /** The stripped line ends in `;`, or in `}` when the declaration's own line has a `{`. */
  predicate EndsType(line: string, opening: string) {
    var t := Strip(line);
    EndsWith(t, ";") || (EndsWith(t, "}") && '{' in opening)
  }

  predicate TypeEndsOn(lines: seq<string>, start: nat, i: nat)
    requires start <= i < |lines|
  {
    EndsType(lines[i], lines[start])
  }

  /** One past the first line from `i` on that `ends` accepts, or `fallback` when there is none. */
  function EndFrom(lines: seq<string>, ends: string -> bool, i: nat, fallback: int): (r: int)
    requires i <= |lines|
    ensures r == fallback || i < r <= |lines|
    decreases |lines| - i
  {
    if i == |lines| then fallback
    else if ends(lines[i]) then i + 1
    else EndFrom(lines, ends, i + 1, fallback)
  }

  /** Lines that `ends` rejects are passed over. */
  lemma {:induction false} EndFromAfter(lines: seq<string>, ends: string -> bool, start: nat, m: nat, fallback: int)
    requires start <= m <= |lines|
    requires forall k :: start <= k < m ==> !ends(lines[k])
    ensures EndFrom(lines, ends, m, fallback) == EndFrom(lines, ends, start, fallback)
    decreases m
  {
    if m > start {
      EndFromAfter(lines, ends, start, m - 1, fallback);
    }
  }

  /** The test `_find_type_end_line` applies to each line after the declaration on line `start`. */
  function TypeCloser(lines: seq<string>, start: nat): string -> bool
    requires start < |lines|
  {
    line => EndsType(line, lines[start])
  }

  /** `_find_type_end_line`: the 1-based number of the first line that ends the type, or `start + 1`. */
  function TypeEndLine(lines: seq<string>, start: nat): (r: int)
    ensures start < r && (r == start + 1 || r <= |lines|)
  {
    if start >= |lines| then start + 1 else EndFrom(lines, TypeCloser(lines, start), start, start + 1)
  }

  method FindTypeEndLine(lines: seq<string>, startIndex: nat) returns (endLine: int)
    ensures endLine == TypeEndLine(lines, startIndex)
  {
    if startIndex >= |lines| {
      // the range of lines to scan is empty
      return startIndex + 1;
    }
    var ends := TypeCloser(lines, startIndex);
    var i := startIndex;
    while i < |lines|
      invariant startIndex <= i <= |lines|
      invariant EndFrom(lines, ends, i, startIndex + 1) == TypeEndLine(lines, startIndex)
      decreases |lines| - i
    {
      var line := Strip(lines[i]);
      if EndsWith(line, ";") || (EndsWith(line, "}") && '{' in lines[startIndex]) {
        assert ends(lines[i]);
        return i + 1;
      }
      assert !ends(lines[i]);
      i := i + 1;
    }
    return startIndex + 1;
  }

  /** The lines that do not end the type are the lines its closing test rejects. */
  lemma CloserRejects(lines: seq<string>, start: nat, m: nat)
    requires start < |lines| && m <= |lines|
    requires forall k :: start <= k < m ==> !TypeEndsOn(lines, start, k)
    ensures forall k :: start <= k < m ==> !TypeCloser(lines, start)(lines[k])
  {
    forall k | start <= k < m
      ensures !TypeCloser(lines, start)(lines[k])
    {
      assert !TypeEndsOn(lines, start, k);
    }
  }

  /** The search stops at the first line that `ends` accepts. */
  lemma EndFromFirst(lines: seq<string>, ends: string -> bool, start: nat, i: nat, fallback: int)
    requires start <= i < |lines| && ends(lines[i])
    requires forall k :: start <= k < i ==> !ends(lines[k])
    ensures EndFrom(lines, ends, start, fallback) == i + 1
  {
    EndFromAfter(lines, ends, start, i, fallback);
  }

  /** The line that ends the type is one its closing test accepts. */
  lemma CloserAccepts(lines: seq<string>, start: nat, i: nat)
    requires start <= i < |lines| && TypeEndsOn(lines, start, i)
    ensures TypeCloser(lines, start)(lines[i])
  {
  }

  /** The type ends on the first line that ends it. */
  lemma TypeEndFirst(lines: seq<string>, start: nat, i: nat)
    requires start <= i < |lines| && TypeEndsOn(lines, start, i)
    requires forall k :: start <= k < i ==> !TypeEndsOn(lines, start, k)
    ensures TypeEndLine(lines, start) == i + 1
  {
    var ends := TypeCloser(lines, start);
    assert forall k :: start <= k < i ==> !ends(lines[k]) by {
      CloserRejects(lines, start, i);
    }
    assert ends(lines[i]) by {
      CloserAccepts(lines, start, i);
    }
    EndFromFirst(lines, ends, start, i, start + 1);
  }

  /** When no line ends the type, its end is its own line. */
  lemma TypeEndFallback(lines: seq<string>, start: nat)
    requires forall k :: start <= k < |lines| ==> !TypeEndsOn(lines, start, k)
    ensures TypeEndLine(lines, start) == start + 1
  {
    if start < |lines| {
      var ends := TypeCloser(lines, start);
      assert forall k :: start <= k < |lines| ==> !ends(lines[k]) by {
        CloserRejects(lines, start, |lines|);
      }
      EndFromAfter(lines, ends, start, |lines|, start + 1);
    }
  }

  // ---------------------------------------------------------------------
  // Function descriptions

  /**
   * Group 1 of `re.search(r'\*\s*(.+)', line)`: what follows the first `*`
   * after its leading whitespace, or the last character when only
   * whitespace follows; `None` when no `*` is followed by anything.
   */
  function DocGroup(line: string): (r: Option<string>)
    ensures r.Some? ==> r.value != [] && EndsWith(line, r.value)
    ensures r.Some? && IsSpace(r.value[0]) ==> |r.value| == 1
  {
    if |line| < 2 then None
    else if line[0] == '*' then
      var rest := line[1..];
      var k := Indent(rest);
      IndentStops(rest);
      if k < |rest| then
        assert line[|line| - |rest[k..]|..] == rest[k..];
        Some(rest[k..])
      else
        assert line[|line| - 1..] == [rest[|rest| - 1]];
        Some([rest[|rest| - 1]])
    else
      var r := DocGroup(line[1..]);
      assert r.Some? ==> line[|line| - |r.value|..] == line[1..][|line| - 1 - |r.value|..];
      r
  }

  /** A line that contains `* ` always matches the JSDoc pattern. */
  lemma {:induction false} DocGroupMatches(line: string)
    requires Contains(line, "* ")
    ensures DocGroup(line).Some?
    decreases |line|
  {
    if line[0] != '*' {
      assert !StartsWith(line, "* ");
      DocGroupMatches(line[1..]);
    }
  }

  /** The lines before line `n` (1-based) that are searched for JSDoc: `lines[max(0, n-5):n-1]`. */
  function Window(lines: seq<string>, n: int): (r: seq<string>)
    ensures |r| <= 4
    ensures 1 < n <= |lines| + 1 ==> |r| == (if n - 1 < 4 then n - 1 else 4) && r == lines[n - 1 - |r|..n - 1]
  {
    var hi := if n - 1 < 0 then 0 else if n - 1 > |lines| then |lines| else n - 1;
    var lo := if n - 5 < 0 then 0 else if n - 5 > hi then hi else n - 5;
    lines[lo..hi]
  }

  /** A JSDoc candidate: it contains `* ` and its stripped form is not a `//` comment. */
  predicate DocLine(line: string) {
    Contains(line, "* ") && !StartsWith(Strip(line), "//")
  }

  /**
   * The JSDoc search of `_generate_function_description` as written: the
   * window is read bottom-up and the first candidate line whose group does
   * not start with `@` gives the stripped group.
   */
  function JsDocAsWritten(window: seq<string>): (r: Option<string>)
  {
    if window == [] then None
    else
      var line := window[|window| - 1];
      var g := DocGroup(line);
      if DocLine(line) && g.Some? && !StartsWith(g.value, "@") then Some(Strip(g.value))
      else JsDocAsWritten(window[..|window| - 1])
  }

  /** A blank JSDoc line with a space after its `*`, closest to the function, gives the empty description. */
  lemma JsDocEmptyDescription(window: seq<string>)
    requires window != [] && window[|window| - 1] == " * "
    ensures JsDocAsWritten(window) == Some("")
  {
    var line := window[|window| - 1];
    BlankStarIsDocLine(line);
    BlankStarGroup(line);
    JsDocAsWrittenBlank(window);
  }

  /** The last line of the window, a candidate whose group is one space, gives the empty description. */
  lemma JsDocAsWrittenBlank(window: seq<string>)
    requires window != [] && DocLine(window[|window| - 1]) && DocGroup(window[|window| - 1]) == Some(" ")
    ensures JsDocAsWritten(window) == Some("")
  {
    StripSpace();
    assert !StartsWith(" ", "@");
  }

  lemma BlankStarIsDocLine(line: string)
    requires line == " * "
    ensures DocLine(line)
  {
    assert line[1..] == "* ";
    assert StartsWith("* ", "* ");
    assert Contains(line, "* ");
    assert LStrip(line) == "* " by {
      LStripNoop("* ");
    }
    assert RStrip("* ") == "*" by {
      assert "* "[..1] == "*";
      assert RStrip("*") == "*";
    }
    assert Strip(line) == "*";
  }

  lemma BlankStarGroup(line: string)
    requires line == " * "
    ensures DocGroup(line) == Some(" ")
  {
    assert " * "[1..] == "* " && "* "[1..] == " ";
    assert Indent(" ") == 1 by {
      assert " "[1..] == "";
    }
    assert DocGroup(" * ") == DocGroup("* ");
  }

  lemma StripSpace()
    ensures Strip(" ") == ""
  {
    assert LStrip(" ") == LStrip(" "[1..]);
    assert " "[1..] == "";
  }

  /**
   * The JSDoc search, corrected: a candidate line whose group strips to
   * nothing is passed over like an `@` tag, so a description found is never
   * empty.
   */
  function JsDoc(window: seq<string>): (r: Option<string>)
    ensures r.Some? ==> r.value != ""
  {
    if window == [] then None
    else
      var line := window[|window| - 1];
      var g := DocGroup(line);
      if DocLine(line) && g.Some? && !StartsWith(g.value, "@") && Strip(g.value) != "" then Some(Strip(g.value))
      else JsDoc(window[..|window| - 1])
  }

  /** Stripping a group keeps its first character, unless nothing is left. */
  lemma GroupStripKeepsHead(g: string)
    requires g != [] && (IsSpace(g[0]) ==> |g| == 1)
    ensures Strip(g) == "" || Strip(g)[0] == g[0]
  {
    if IsSpace(g[0]) {
      assert LStrip(g) == LStrip(g[1..]);
      assert g[1..] == [];
    } else {
      LStripNoop(g);
    }
  }

  /** A description found starts with neither `@` nor whitespace. */
  lemma {:induction false} JsDocFound(window: seq<string>)
    ensures JsDoc(window).Some? ==> JsDoc(window).value[0] != '@' && !IsSpace(JsDoc(window).value[0])
    decreases |window|
  {
    if window != [] {
      var line := window[|window| - 1];
      var g := DocGroup(line);
      if DocLine(line) && g.Some? && !StartsWith(g.value, "@") && Strip(g.value) != "" {
        GroupStripKeepsHead(g.value);
      } else {
        JsDocFound(window[..|window| - 1]);
      }
    }
  }

  lemma {:induction false} JsDocAgrees(window: seq<string>)
    requires JsDocAsWritten(window) != Some("")
    ensures JsDoc(window) == JsDocAsWritten(window)
    decreases |window|
  {
    if window != [] {
      var line := window[|window| - 1];
      var g := DocGroup(line);
      if DocLine(line) && g.Some? && !StartsWith(g.value, "@") {
        assert JsDocAsWritten(window) == Some(Strip(g.value));
      } else {
        assert JsDocAsWritten(window) == JsDocAsWritten(window[..|window| - 1]);
        JsDocAgrees(window[..|window| - 1]);
      }
    }
  }

  /**
   * The name-based branch of `_generate_function_description`: the phrase
   * that opens the description and the part of the name it describes.
   */
  function NameLabel(name: string, line: string): (string, string)
  {
    if Contains(line, "async") then ("Async function that handles ", name)
    else if StartsWith(name, "get") then ("Retrieves ", name[3..])
    else if StartsWith(name, "set") then ("Sets ", name[3..])
    else if StartsWith(name, "create") then ("Creates ", name[6..])
    else if StartsWith(name, "delete") || StartsWith(name, "remove") then ("Deletes ", name[6..])
    else if StartsWith(name, "update") then ("Updates ", name[6..])
    else if StartsWith(name, "handle") then ("Handles ", name[6..])
    else if StartsWith(name, "on") then ("Event handler for ", name[2..])
    else if EndsWith(name, "Handler") then ("Handler function for ", name[..|name| - 7])
    else if EndsWith(name, "Callback") then ("Callback function for ", name[..|name| - 8])
    else ("Function that handles ", name)
  }

  /** The opening phrase followed by the described part in lower case, underscores as spaces. */
  function NameDescription(name: string, line: string): string {
    var (head, stem) := NameLabel(name, line);
    head + Words(stem)
  }

  const NamePrefixes: seq<string> := ["get", "set", "create", "delete", "remove", "update", "handle", "on"]
  const NameSuffixes: seq<string> := ["Handler", "Callback"]

  /** `stem` is `name`, or `name` without one of the prefixes or suffixes the descriptions look for. */
  predicate Affixed(name: string, stem: string) {
    name == stem
    || (exists k :: 0 <= k < |NamePrefixes| && name == NamePrefixes[k] + stem)
    || (exists k :: 0 <= k < |NameSuffixes| && name == stem + NameSuffixes[k])
  }

  lemma PrefixAffixed(name: string, k: nat)
    requires k < |NamePrefixes| && StartsWith(name, NamePrefixes[k])
    ensures Affixed(name, name[|NamePrefixes[k]|..])
  {
    assert name == NamePrefixes[k] + name[|NamePrefixes[k]|..];
  }

  lemma SuffixAffixed(name: string, k: nat)
    requires k < |NameSuffixes| && EndsWith(name, NameSuffixes[k])
    ensures Affixed(name, name[..|name| - |NameSuffixes[k]|])
  {
    assert name == name[..|name| - |NameSuffixes[k]|] + NameSuffixes[k];
  }

  /** The described part is the whole name or the name minus its matched prefix or suffix. */
  lemma NameLabelStem(name: string, line: string)
    ensures Affixed(name, NameLabel(name, line).1)
  {
    if !Contains(line, "async") {
      if StartsWith(name, "get") {
        assert NamePrefixes[0] == "get";
        PrefixAffixed(name, 0);
      } else if StartsWith(name, "set") {
        assert NamePrefixes[1] == "set";
        PrefixAffixed(name, 1);
      } else if StartsWith(name, "create") {
        assert NamePrefixes[2] == "create";
        PrefixAffixed(name, 2);
      } else if StartsWith(name, "delete") {
        assert NamePrefixes[3] == "delete";
        PrefixAffixed(name, 3);
      } else if StartsWith(name, "remove") {
        assert NamePrefixes[4] == "remove";
        PrefixAffixed(name, 4);
      } else if StartsWith(name, "update") {
        assert NamePrefixes[5] == "update";
        PrefixAffixed(name, 5);
      } else if StartsWith(name, "handle") {
        assert NamePrefixes[6] == "handle";
        PrefixAffixed(name, 6);
      } else if StartsWith(name, "on") {
        assert NamePrefixes[7] == "on";
        PrefixAffixed(name, 7);
      } else if EndsWith(name, "Handler") {
        assert NameSuffixes[0] == "Handler";
        SuffixAffixed(name, 0);
      } else if EndsWith(name, "Callback") {
        assert NameSuffixes[1] == "Callback";
        SuffixAffixed(name, 1);
      }
    }
  }

  /** `_generate_function_description` for the function `name` declared on line `n` (1-based). */
  function FunctionDescription(name: string, line: string, lines: seq<string>, n: int): string {
    var doc := if n > 1 then JsDoc(Window(lines, n)) else None;
    if doc.Some? then doc.value
    else NameDescription(name, line)
  }

  /** `_generate_function_description` as written, with the JSDoc search that can give an empty description. */
  function FunctionDescriptionAsWritten(name: string, line: string, lines: seq<string>, n: int): string {
    var doc := if n > 1 then JsDocAsWritten(Window(lines, n)) else None;
    if doc.Some? then doc.value
    else NameDescription(name, line)
  }

  /** The two descriptions differ only when the as-written search stops at a candidate whose group strips to nothing. */
  lemma FunctionDescriptionAgrees(name: string, line: string, lines: seq<string>, n: int)
    requires n <= 1 || JsDocAsWritten(Window(lines, n)) != Some("")
    ensures FunctionDescription(name, line, lines, n) == FunctionDescriptionAsWritten(name, line, lines, n)
  {
    if n > 1 {
      JsDocAgrees(Window(lines, n));
    }
  }

  // ---------------------------------------------------------------------
  // Class descriptions

  /** The class name ends in one of the suffixes that name a role. */
  predicate RoleSuffix(name: string) {
    EndsWith(name, "Component") || EndsWith(name, "Service") || EndsWith(name, "Controller") || EndsWith(name, "Model")
    || EndsWith(name, "Manager") || EndsWith(name, "Helper") || EndsWith(name, "Util")
  }

  /** `_generate_class_description` */
  function ClassDescription(name: string, line: string): (r: string)
  {
    if Contains(line, "extends") then "Class extending functionality for " + Lower(name)
    else if EndsWith(name, "Component") then "React component for " + Lower(name[..|name| - 9])
    else if EndsWith(name, "Service") then "Service class providing business logic"
    else if EndsWith(name, "Controller") then "Controller class handling requests"
    else if EndsWith(name, "Model") then "Data model class for " + Lower(name[..|name| - 5])
    else if EndsWith(name, "Manager") then "Manager class for handling operations"
    else if EndsWith(name, "Helper") || EndsWith(name, "Util") then "Utility class providing helper functions"
    else "Class defining " + Lower(name) + " functionality"
  }

  /** The lower-cased class name can be read back from the `extends` and the generic descriptions. */
  lemma ClassDescriptionName(name: string, line: string)
    ensures Contains(line, "extends") ==> ClassDescription(name, line)[34..] == Lower(name)
    ensures !Contains(line, "extends") && !RoleSuffix(name) ==>
      var r := ClassDescription(name, line); r[15..|r| - 14] == Lower(name)
  {
  }

  /** For a component class the lower-cased name is the description's tail followed by `component`. */
  lemma ClassDescriptionComponent(name: string, line: string)
    requires !Contains(line, "extends") && EndsWith(name, "Component")
    ensures Lower(name) == ClassDescription(name, line)[20..] + "component"
  {
    var base := name[..|name| - 9];
    assert name == base + "Component";
    LowerConcat(base, "Component");
    LowerComponent();
    assert ClassDescription(name, line) == "React component for " + Lower(base);
  }

  lemma LowerComponent()
    ensures Lower("Component") == "component"
  {
    var u := Lower("Component");
    forall i | 0 <= i < 9 ensures u[i] == "component"[i] {
      assert u[i] == LowerChar("Component"[i]);
    }
  }

  // ---------------------------------------------------------------------
  // API extraction

  /** A declaration pattern: the declared name when the line matches, otherwise `None`. */
  type Matcher = string -> Option<string>

  /** The function patterns, the class pattern and the interface/type patterns, in the source's order. */
  datatype Patterns = Patterns(functions: seq<Matcher>, cls: Matcher, types: seq<Matcher>)

  /** The name given by the first pattern that matches the line. */
  function FirstMatch(ms: seq<Matcher>, line: string): Option<string>
  {
    if ms == [] then None
    else if ms[0](line).Some? then ms[0](line)
    else FirstMatch(ms[1..], line)
  }

  /** `FirstMatch` finds a name exactly when some pattern matches, and then it is the first one's. */
  lemma {:induction false} FirstMatchFirst(ms: seq<Matcher>, line: string)
    ensures FirstMatch(ms, line).Some? <==> exists k :: 0 <= k < |ms| && ms[k](line).Some?
    ensures FirstMatch(ms, line).Some? ==>
      exists k :: 0 <= k < |ms| && ms[k](line) == FirstMatch(ms, line) && forall l :: 0 <= l < k ==> ms[l](line).None?
  {
    if ms != [] && ms[0](line).None? {
      FirstMatchFirst(ms[1..], line);
      assert forall k :: 0 < k < |ms| ==> ms[k] == ms[1..][k - 1];
      if FirstMatch(ms, line).Some? {
        var k :| 0 <= k < |ms[1..]| && ms[1..][k](line) == FirstMatch(ms, line) && forall l :: 0 <= l < k ==> ms[1..][l](line).None?;
        assert ms[k + 1](line) == FirstMatch(ms, line);
      }
    }
  }

  /** Blank lines and lines whose stripped text opens a line or block comment are skipped. */
  predicate Skipped(line: string) {
    var s := Strip(line);
    s == "" || StartsWith(s, "//") || StartsWith(s, "/*")
  }

  /** An entry extracted from line index `i`: it starts there and ends on a line of the file at or below it. */
  predicate EntryOf(a: ApiInfo, lines: seq<string>, i: nat, filePath: string) {
    a.startLine == i + 1 <= a.endLine <= |lines| && a.sourceFile == filePath
  }

  /** The function declared on line index `i`, by the first function pattern that matches. */
  function FunctionEntry(lines: seq<string>, i: nat, filePath: string, p: Patterns): (r: seq<ApiInfo>)
    requires i < |lines|
    ensures |r| <= 1 && forall k :: 0 <= k < |r| ==> EntryOf(r[k], lines, i, filePath)
  {
    match FirstMatch(p.functions, lines[i])
    case Some(f) => [ApiInfo(f, FunctionDescription(f, lines[i], lines, i + 1), filePath, i + 1, FunctionEndLine(lines, i))]
    case None => []
  }

  /** The class declared on line index `i`. */
  function ClassEntry(lines: seq<string>, i: nat, filePath: string, p: Patterns): (r: seq<ApiInfo>)
    requires i < |lines|
    ensures |r| <= 1 && forall k :: 0 <= k < |r| ==> EntryOf(r[k], lines, i, filePath)
  {
    match p.cls(lines[i])
    case Some(c) => [ApiInfo("class " + c, ClassDescription(c, lines[i]), filePath, i + 1, FunctionEndLine(lines, i))]
    case None => []
  }

  /** The interface or type declared on line index `i`, by the first type pattern that matches. */
  function TypeEntry(lines: seq<string>, i: nat, filePath: string, p: Patterns): (r: seq<ApiInfo>)
    requires i < |lines|
    ensures |r| <= 1 && forall k :: 0 <= k < |r| ==> EntryOf(r[k], lines, i, filePath)
  {
    match FirstMatch(p.types, lines[i])
    case Some(t) => [ApiInfo("type " + t, "Type definition for " + t, filePath, i + 1, TypeEndLine(lines, i))]
    case None => []
  }

  /**
   * The APIs one line (index `i`) contributes: a function, a class and a
   * type, in that order; a skipped line contributes none.
   */
  function LineApis(lines: seq<string>, i: nat, filePath: string, p: Patterns): (r: seq<ApiInfo>)
    requires i < |lines|
    ensures |r| <= 3
    ensures forall k :: 0 <= k < |r| ==> EntryOf(r[k], lines, i, filePath)
    ensures r != [] ==> !Skipped(lines[i])
  {
    if Skipped(lines[i]) then []
    else FunctionEntry(lines, i, filePath, p) + ClassEntry(lines, i, filePath, p) + TypeEntry(lines, i, filePath, p)
  }

  /** Every entry a line contributes starts on that line, which is not skipped, and ends on a line of the file. */
  lemma LineApisEntries(lines: seq<string>, i: nat, filePath: string, p: Patterns)
    requires i < |lines|
    ensures forall a :: a in LineApis(lines, i, filePath, p) ==>
      a.startLine == i + 1 && FromFile(a, lines, filePath)
  {
  }

  /** An entry that starts on a line of the file that is not skipped and ends on a line at or below it. */
  predicate FromFile(a: ApiInfo, lines: seq<string>, filePath: string) {
    1 <= a.startLine <= a.endLine <= |lines| && a.sourceFile == filePath && !Skipped(lines[a.startLine - 1])
  }

  /** `entries(0) + ... + entries(n - 1)`: what a loop over the first `n` lines appends. */
  function Collect(n: nat, entries: nat -> seq<ApiInfo>): seq<ApiInfo> {
    if n == 0 then [] else Collect(n - 1, entries) + entries(n - 1)
  }

  /** What the first `m` lines contribute comes first. */
  lemma {:induction false} CollectPrefix(m: nat, n: nat, entries: nat -> seq<ApiInfo>)
    requires m <= n
    ensures Collect(m, entries) <= Collect(n, entries)
    decreases n
  {
    if m < n {
      CollectPrefix(m, n - 1, entries);
      PrefixExtend(Collect(m, entries), Collect(n - 1, entries), entries(n - 1));
    }
  }

  /** When every line contributes entries that start on it, the collected entries start on lines `1..n`, in order. */
  lemma {:induction false} CollectLines(n: nat, entries: nat -> seq<ApiInfo>, ok: ApiInfo -> bool)
    requires forall i, a :: 0 <= i < n && a in entries(i) ==> a.startLine == i + 1 && ok(a)
    ensures forall a :: a in Collect(n, entries) ==> 1 <= a.startLine <= n && ok(a)
    ensures Sorted(Collect(n, entries), StartLineLe)
  {
    if n > 0 {
      CollectLines(n - 1, entries, ok);
      var e := Collect(n - 1, entries);
      var l := entries(n - 1);
      assert Sorted(l, StartLineLe) by {
        forall a, b | 0 <= a < b < |l| ensures StartLineLe(l[a], l[b]) {
          assert l[a] in l && l[b] in l;
        }
      }
      forall a, b | 0 <= a < |e| && 0 <= b < |l| ensures StartLineLe(e[a], l[b]) {
        assert e[a] in e && l[b] in l;
      }
      SortedConcat(e, l, StartLineLe);
    }
  }

  /** The entries of line index `i`, or none past the end of the file. */
  function LineEntries(lines: seq<string>, filePath: string, p: Patterns): nat -> seq<ApiInfo> {
    (i: nat) => if i < |lines| then LineApis(lines, i, filePath, p) else []
  }

  /** The APIs of the first `n` lines, in line order. */
  function ExtractedApis(lines: seq<string>, n: nat, filePath: string, p: Patterns): seq<ApiInfo>
    requires n <= |lines|
  {
    Collect(n, LineEntries(lines, filePath, p))
  }

  /**
   * Every extracted API starts on one of the first `n` lines, which is not
   * skipped, and ends on a line of the file at or below it; the APIs are in
   * order of their first line.
   */
  lemma ExtractedApisFromLines(lines: seq<string>, n: nat, filePath: string, p: Patterns)
    requires n <= |lines|
    ensures forall a :: a in ExtractedApis(lines, n, filePath, p) ==> a.startLine <= n && FromFile(a, lines, filePath)
    ensures Sorted(ExtractedApis(lines, n, filePath, p), StartLineLe)
  {
    var entries := LineEntries(lines, filePath, p);
    forall i | 0 <= i < n {
      LineApisEntries(lines, i, filePath, p);
    }
    CollectLines(n, entries, a => FromFile(a, lines, filePath));
  }

  /** One more line appends its APIs. */
  lemma ExtractedApisStep(lines: seq<string>, filePath: string, p: Patterns, i: nat)
    requires i < |lines|
    ensures ExtractedApis(lines, i + 1, filePath, p) == ExtractedApis(lines, i, filePath, p) + LineApis(lines, i, filePath, p)
  {
  }

  /** The APIs of the first lines are a prefix of those of more lines. */
  lemma ExtractedApisPrefix(lines: seq<string>, m: nat, n: nat, filePath: string, p: Patterns)
    requires m <= n <= |lines|
    ensures ExtractedApis(lines, m, filePath, p) <= ExtractedApis(lines, n, filePath, p)
  {
    CollectPrefix(m, n, LineEntries(lines, filePath, p));
  }

  /** The loop over patterns that stops at the first match. */
  method FindFirstMatch(ms: seq<Matcher>, line: string) returns (found: Option<string>)
    ensures found == FirstMatch(ms, line)
  {
    var j := 0;
    while j < |ms|
      invariant 0 <= j <= |ms|
      invariant FirstMatch(ms[j..], line) == FirstMatch(ms, line)
      decreases |ms| - j
    {
      assert ms[j..][1..] == ms[j + 1..];
      var m := ms[j](line);
      if m.Some? {
        return m;
      }
      j := j + 1;
    }
    return None;
  }

  /** The body of the loop of `_extract_apis` for the line at index `i`. */
  method ApisOfLine(lines: seq<string>, i: nat, filePath: string, p: Patterns) returns (apis: seq<ApiInfo>)
    requires i < |lines|
    ensures apis == LineApis(lines, i, filePath, p)
  {
    var line := lines[i];
    apis := [];
    if Skipped(line) {
      return;
    }
    var f := FindFirstMatch(p.functions, line);
    if f.Some? {
      var endLine := FindFunctionEndLine(lines, i);
      apis := apis + [ApiInfo(f.value, FunctionDescription(f.value, line, lines, i + 1), filePath, i + 1, endLine)];
    }
    assert apis == FunctionEntry(lines, i, filePath, p);
    var c := p.cls(line);
    if c.Some? {
      var endLine := FindClassEndLine(lines, i);
      apis := apis + [ApiInfo("class " + c.value, ClassDescription(c.value, line), filePath, i + 1, endLine)];
    }
    assert apis == FunctionEntry(lines, i, filePath, p) + ClassEntry(lines, i, filePath, p);
    var t := FindFirstMatch(p.types, line);
    if t.Some? {
      var endLine := FindTypeEndLine(lines, i);
      apis := apis + [ApiInfo("type " + t.value, "Type definition for " + t.value, filePath, i + 1, endLine)];
    }
  }

  /** `_extract_apis` */
  method ExtractApis(content: string, filePath: string, p: Patterns) returns (apis: seq<ApiInfo>)
    ensures apis == ExtractedApis(Lines(content), |Lines(content)|, filePath, p)
  {
    apis := ExtractLines(Lines(content), filePath, p);
  }

  /** The loop of `_extract_apis` over the lines of the file. */
  method ExtractLines(lines: seq<string>, filePath: string, p: Patterns) returns (apis: seq<ApiInfo>)
    ensures apis == ExtractedApis(lines, |lines|, filePath, p)
  {
    apis := [];
    var i := 0;
    while i < |lines|
      invariant 0 <= i <= |lines|
      invariant apis == ExtractedApis(lines, i, filePath, p)
      decreases |lines| - i
    {
      var found := ApisOfLine(lines, i, filePath, p);
      ExtractedApisStep(lines, filePath, p, i);
      apis := apis + found;
      i := i + 1;
    }
  }

  // ---------------------------------------------------------------------
  // Skillsets

  /** `framework_patterns`, in insertion order; each pattern is a regular expression. */
  const FrameworkPatterns: seq<(string, seq<string>)> := [
    ("React", [@"import.*from [\'""]react[\'""]", @"React\.", @"useState", @"useEffect", @"Component", @"JSX\.", @"<[A-Z]\w*"]),
    ("Vue", [@"import.*from [\'""]vue[\'""]", @"Vue\.", @"@Component", @"v-if", @"v-for"]),
    ("Angular", [@"@angular/", @"@Component", @"@Injectable", @"@NgModule", @"Observable"]),
    ("Express", [@"import.*express", @"require\([\'""]express[\'""]", @"app\.(get|post|put|delete)", @"router\."]),
    ("Node.js", [@"require\(", @"module\.exports", @"process\.", @"__dirname", @"__filename"]),
    ("TypeScript", [@"interface\s+\w+", @"type\s+\w+\s*=", @":\s*\w+(\[\])?", @"as\s+\w+", @"implements\s+\w+"]),
    ("Jest", [@"describe\(", @"it\(", @"test\(", @"expect\(", @"jest\."]),
    ("Webpack", [@"webpack", @"module\.exports\s*=\s*{", @"entry:", @"output:"]),
    ("GraphQL", [@"graphql", @"gql`", @"Query", @"Mutation", @"resolver"]),
    ("Redux", [@"redux", @"useSelector", @"useDispatch", @"createStore", @"reducer"]),
    ("Next.js", [@"next/", @"getStaticProps", @"getServerSideProps", @"useRouter"]),
    ("Lodash", [@"lodash", @"_\.", @"import.*_.*from"]),
    ("Axios", [@"axios", @"\.get\(", @"\.post\(", @"\.put\(", @"\.delete\("])
  ]

  /** `TypeScript` for a `.ts`/`.tsx` path, and always `JavaScript`. */
  function BaseSkillsets(filePath: string): seq<string> {
    (if EndsWith(filePath, ".ts") || EndsWith(filePath, ".tsx") then ["TypeScript"] else []) + ["JavaScript"]
  }

  /** `_identify_skillsets`, as a value. */
  function Skillsets(text: string, filePath: string, search: (string, string) -> bool): (r: seq<string>)
    ensures "JavaScript" in r
    ensures StrictlySorted(r, StrLe)
  {
    SortedSet(BaseSkillsets(filePath) + Detected(FrameworkPatterns, text, search))
  }

  /** `_identify_skillsets`: the base skillsets and each framework with a matching pattern. */
  method IdentifySkillsets(text: string, filePath: string, search: (string, string) -> bool) returns (skillsets: seq<string>)
    ensures skillsets == Skillsets(text, filePath, search)
  {
    skillsets := CollectSkillsets(BaseSkillsets(filePath), FrameworkPatterns, text, search);
  }

  /** The skillsets are `JavaScript`, `TypeScript` for a TypeScript path, and exactly the frameworks that match. */
  lemma SkillsetsMembers(text: string, filePath: string, search: (string, string) -> bool, x: string)
    ensures x in Skillsets(text, filePath, search) <==>
      x == "JavaScript"
      || (x == "TypeScript" && (EndsWith(filePath, ".ts") || EndsWith(filePath, ".tsx")))
      || Uses(FrameworkPatterns, x, text, search)
  {
    CollectedMembers(BaseSkillsets(filePath), FrameworkPatterns, text, search, x);
  }

  // ---------------------------------------------------------------------
  // parse

  /** `parse`: the APIs of every line, in order, and the file's skillsets. */
  method Parse(content: string, filePath: string, p: Patterns, search: (string, string) -> bool)
    returns (r: AnalysisFragment)
    ensures r == AnalysisFragment(Suffix(BaseName(filePath)),
      ExtractedApis(Lines(content), |Lines(content)|, filePath, p), Skillsets(content, filePath, search), filePath)
  {
    var apis := ExtractApis(content, filePath, p);
    var skillsets := IdentifySkillsets(content, filePath, search);
    r := AnalysisFragment(Suffix(BaseName(filePath)), apis, skillsets, filePath);
  }
}
