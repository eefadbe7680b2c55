/**
 * The deterministic parts of the language-model client: reading `KEY=value`
 * lines of a `.env` file, packing file contents into a bounded prompt,
 * cleaning the comma-separated skillset answer, shortening a generated API
 * description, and the fallbacks used when the model is unavailable or the
 * call fails.
 *
 * The model call itself is a parameter: `None` when the request raised, or
 * the reply with its content (`None` when the message has no content) and its
 * token counts, which are logged to the usage collector.
 */
module LlmClient {
  import opened Text
  import opened Model
  import opened LlmUsageMetrics

  // ---------------------------------------------------------------------
  // Environment file

  /** The index of the first `c` in `s`, or `-1`. */
  function FindChar(s: string, c: char): (r: int)
    ensures -1 <= r < |s|
    ensures r == -1 <==> c !in s
    ensures r >= 0 ==> s[r] == c && c !in s[..r]
  {
    if s == [] then -1
    else if s[0] == c then 0
    else
      var r := FindChar(s[1..], c);
      assert r >= 0 ==> s[..r + 1] == [s[0]] + s[1..][..r];
      if r == -1 then -1 else r + 1
  }

  /** `value.strip().strip('"').strip("'")` */
  function Unquote(value: string): string {
    StripChar(StripChar(Strip(value), '"'), '\'')
  }

  /** One line of the loop in `_load_env_file`: the key and value it sets, or `None` when it is skipped. */
  function ParseEnvLine(raw: string): Option<(string, string)> {
    var line := Strip(raw);
    if line == "" || StartsWith(line, "#") || '=' !in line then None
    else
      var k := FindChar(line, '=');
      Some((Strip(line[..k]), Unquote(line[k + 1..])))
  }

  /** A blank line, a comment or a line without `=` sets nothing, and every other line sets a key. */
  lemma ParseEnvLineSkips(raw: string)
    ensures ParseEnvLine(raw).None? <==> Strip(raw) == "" || StartsWith(Strip(raw), "#") || '=' !in Strip(raw)
  {
  }

  /** The key stops at the first `=` and has no surrounding whitespace. */
  lemma ParseEnvLineKey(raw: string)
    ensures var r := ParseEnvLine(raw);
      r.Some? ==> '=' !in r.value.0 && (r.value.0 == [] || (!IsSpace(r.value.0[0]) && !IsSpace(r.value.0[|r.value.0| - 1])))
  {
    var line := Strip(raw);
    if line != "" && !StartsWith(line, "#") && '=' in line {
      var k := FindChar(line, '=');
      StripInside(line[..k], '=');
    }
  }

  /** The value has its quotes stripped: it neither starts nor ends with `'`. */
  lemma ParseEnvLineValue(raw: string)
    ensures var r := ParseEnvLine(raw);
      r.Some? ==> r.value.1 == [] || (r.value.1[0] != '\'' && r.value.1[|r.value.1| - 1] != '\'')
  {
    var r := ParseEnvLine(raw);
    if r.Some? {
      var line := Strip(raw);
      var k := FindChar(line, '=');
      assert r.value.1 == Unquote(line[k + 1..]);
      UnquoteEnds(line[k + 1..]);
    }
  }

  lemma UnquoteEnds(value: string)
    ensures var r := Unquote(value);
      r == [] || (r[0] != '\'' && r[|r| - 1] != '\'')
  {
    StripCharEnds(StripChar(Strip(value), '"'), '\'', '\'');
  }

  /** Stripping never brings in a character. */
  lemma StripInside(s: string, c: char)
    requires c !in s
    ensures c !in Strip(s)
  {
    var l := LStrip(s);
    assert l == s[|s| - |l|..];
    assert RStrip(l) == l[..|RStrip(l)|];
  }

  lemma RStripNoop(s: string)
    requires s != [] && !IsSpace(s[|s| - 1])
    ensures RStrip(s) == s
  {
  }

  /** A string without whitespace at either end is its own `strip()`. */
  lemma StripNoop(s: string)
    requires s == [] || (!IsSpace(s[0]) && !IsSpace(s[|s| - 1]))
    ensures Strip(s) == s
  {
    if s != [] {
      LStripNoop(s);
      RStripNoop(s);
    }
  }

  /** A string that does not start or end with `c` is its own `strip(c)`. */
  lemma StripCharNoop(s: string, c: char)
    requires s == [] || (s[0] != c && s[|s| - 1] != c)
    ensures StripChar(s, c) == s
  {
    assert LStripChar(s, c) == s;
  }

  /** A value without surrounding whitespace or quotes is kept as it is. */
  predicate CleanValue(value: string) {
    value == [] || (&& !IsSpace(value[0]) && !IsSpace(value[|value| - 1])
                    && value[0] != '"' && value[|value| - 1] != '"'
                    && value[0] != '\'' && value[|value| - 1] != '\'')
  }

  /** A key and a value as a `.env` file is meant to hold them. */
  predicate CleanEntry(key: string, value: string) {
    && key != [] && '=' !in key && key[0] != '#'
    && !IsSpace(key[0]) && !IsSpace(key[|key| - 1])
    && CleanValue(value)
  }

  lemma UnquoteNoop(value: string)
    requires CleanValue(value)
    ensures Unquote(value) == value
  {
    StripNoop(value);
    StripCharNoop(value, '"');
    StripCharNoop(value, '\'');
  }

  lemma FindCharAfter(key: string, rest: string, c: char)
    requires c !in key
    ensures FindChar(key + [c] + rest, c) == |key|
  {
    var s := key + [c] + rest;
    assert s[|key|] == c && s[..|key|] == key;
  }

  lemma StripCleanLine(w1: string, key: string, value: string, w2: string)
    requires IsBlank(w1) && IsBlank(w2) && CleanEntry(key, value)
    ensures Strip(w1 + key + "=" + value + w2) == key + "=" + value
  {
    var t := key + "=" + value;
    assert w1 + key + "=" + value + w2 == w1 + t + w2;
    StripSurrounded(w1, t, w2);
    assert t[0] == key[0];
    assert t[|t| - 1] == if value == [] then '=' else value[|value| - 1];
    StripNoop(t);
  }

  /** A line whose stripped form is `line`, with its first `=` at `k`, sets the stripped text before it to the unquoted text after it. */
  lemma ParseEnvLineAt(raw: string, line: string, k: int)
    requires Strip(raw) == line && line != "" && !StartsWith(line, "#") && 0 <= k < |line| && FindChar(line, '=') == k
    ensures ParseEnvLine(raw) == Some((Strip(line[..k]), Unquote(line[k + 1..])))
  {
  }

  /** `KEY=value` is not a comment, and its first `=` is the one after the key. */
  lemma CleanLineParts(key: string, value: string)
    requires key != [] && key[0] != '#' && '=' !in key
    ensures var line := key + "=" + value;
      && line != "" && !StartsWith(line, "#") && FindChar(line, '=') == |key|
      && line[..|key|] == key && line[|key| + 1..] == value
  {
    var line := key + "=" + value;
    assert line[..1] == [key[0]];
    FindCharAfter(key, value, '=');
  }

  lemma ParseCleanLine(raw: string, key: string, value: string)
    requires CleanEntry(key, value) && Strip(raw) == key + "=" + value
    ensures ParseEnvLine(raw) == Some((key, value))
  {
    var line := key + "=" + value;
    CleanLineParts(key, value);
    ParseEnvLineAt(raw, line, |key|);
    assert Strip(key) == key by {
      StripNoop(key);
    }
    assert Unquote(value) == value by {
      UnquoteNoop(value);
    }
  }

  /** A line `KEY=value`, surrounded by any whitespace, sets exactly that key to that value. */
  lemma EnvLineRoundTrip(w1: string, key: string, value: string, w2: string)
    requires IsBlank(w1) && IsBlank(w2) && CleanEntry(key, value)
    ensures ParseEnvLine(w1 + key + "=" + value + w2) == Some((key, value))
  {
    StripCleanLine(w1, key, value, w2);
    ParseCleanLine(w1 + key + "=" + value + w2, key, value);
  }

  /** The line sets `key`. */
  predicate Sets(parse: string -> Option<(string, string)>, line: string, key: string) {
    parse(line).Some? && parse(line).value.0 == key
  }

  /** The environment after the lines of the file have been applied in order, each parsed by `parse`. */
  function EnvAfter(lines: seq<string>, env: map<string, string>, parse: string -> Option<(string, string)>): map<string, string> {
    if lines == [] then env
    else
      var before := EnvAfter(lines[..|lines| - 1], env, parse);
      match parse(lines[|lines| - 1])
      case None => before
      case Some((key, value)) => before[key := value]
  }

  /** One more line either sets `key` to its value or leaves it as it was. */
  lemma EnvAfterLast(lines: seq<string>, env: map<string, string>, parse: string -> Option<(string, string)>, key: string)
    requires lines != []
    ensures var before := EnvAfter(lines[..|lines| - 1], env, parse);
      var after := EnvAfter(lines, env, parse);
      if Sets(parse, lines[|lines| - 1], key) then key in after && after[key] == parse(lines[|lines| - 1]).value.1
      else (key in after <==> key in before) && (key in before ==> after[key] == before[key])
  {
  }

  /** A key is set by the file when some line sets it. */
  lemma {:induction false} EnvAfterKeys(lines: seq<string>, env: map<string, string>, parse: string -> Option<(string, string)>, key: string)
    ensures key in EnvAfter(lines, env, parse) <==> key in env || exists i :: 0 <= i < |lines| && Sets(parse, lines[i], key)
  {
    if lines != [] {
      var init := lines[..|lines| - 1];
      EnvAfterKeys(init, env, parse, key);
      EnvAfterLast(lines, env, parse, key);
      if exists i :: 0 <= i < |lines| && Sets(parse, lines[i], key) {
        var i :| 0 <= i < |lines| && Sets(parse, lines[i], key);
        if i < |init| {
          assert init[i] == lines[i];
        }
      }
    }
  }

  /** The last line that sets a key decides its value. */
  lemma {:induction false} EnvAfterLastWins(lines: seq<string>, env: map<string, string>, parse: string -> Option<(string, string)>, key: string, i: nat)
    requires i < |lines| && Sets(parse, lines[i], key)
    requires forall j :: i < j < |lines| ==> !Sets(parse, lines[j], key)
    ensures key in EnvAfter(lines, env, parse) && EnvAfter(lines, env, parse)[key] == parse(lines[i]).value.1
  {
    var init := lines[..|lines| - 1];
    EnvAfterLast(lines, env, parse, key);
    if i < |init| {
      assert init[i] == lines[i];
      assert forall j :: i < j < |init| ==> init[j] == lines[j];
      EnvAfterLastWins(init, env, parse, key, i);
    }
  }

  lemma EnvAfterStep(lines: seq<string>, env: map<string, string>, parse: string -> Option<(string, string)>, i: nat)
    requires i < |lines|
    ensures EnvAfter(lines[..i + 1], env, parse) ==
      if parse(lines[i]).Some? then EnvAfter(lines[..i], env, parse)[parse(lines[i]).value.0 := parse(lines[i]).value.1]
      else EnvAfter(lines[..i], env, parse)
  {
    assert lines[..i + 1][..i] == lines[..i];
  }

  /** Whether `os.environ[key] = value` accepts the pair: the name is not empty and neither contains a NUL character. */
  predicate Settable(entry: (string, string)) {
    entry.0 != "" && '\0' !in entry.0 && '\0' !in entry.1
  }

  /** The line parses to a pair that `os.environ` refuses, which raises. */
  predicate Fails(parse: string -> Option<(string, string)>, line: string) {
    parse(line).Some? && !Settable(parse(line).value)
  }

  /** The index of the first line that raises, or the number of lines when none does. */
  function FirstFailure(lines: seq<string>, parse: string -> Option<(string, string)>): (r: nat)
    ensures r <= |lines|
    ensures forall j :: 0 <= j < r ==> !Fails(parse, lines[j])
    ensures r < |lines| ==> Fails(parse, lines[r])
  {
    if lines == [] || Fails(parse, lines[0]) then 0
    else
      var r := 1 + FirstFailure(lines[1..], parse);
      assert forall j :: 1 <= j < r ==> lines[j] == lines[1..][j - 1];
      r
  }

  /** The lines applied in order, each parsed by `parse`, until one raises. */
  function Applied(lines: seq<string>, env: map<string, string>, parse: string -> Option<(string, string)>): map<string, string> {
    EnvAfter(lines[..FirstFailure(lines, parse)], env, parse)
  }

  /**
   * The environment `_load_env_file` leaves: the lines are applied in order
   * until one raises, and the handler around the loop abandons the rest.
   */
  function LoadedEnv(lines: seq<string>, env: map<string, string>): map<string, string> {
    Applied(lines, env, ParseEnvLine)
  }

  /** The line loop of `_load_env_file`, with the line parser as a parameter. */
  method ApplyEnvLines(lines: seq<string>, env: map<string, string>, parse: string -> Option<(string, string)>) returns (r: map<string, string>)
    ensures r == Applied(lines, env, parse)
  {
    r := env;
    var i := 0;
    while i < |lines|
      invariant 0 <= i <= |lines|
      invariant forall j :: 0 <= j < i ==> !Fails(parse, lines[j])
      invariant r == EnvAfter(lines[..i], env, parse)
    {
      EnvAfterStep(lines, env, parse, i);
      var entry := parse(lines[i]);
      if entry.Some? {
        if !Settable(entry.value) {
          // `os.environ` raised; the handler drops the remaining lines
          return;
        }
        r := r[entry.value.0 := entry.value.1];
      }
      i := i + 1;
    }
    assert lines[..|lines|] == lines;
  }

  /** `_load_env_file` on the lines of the file: every line that parses sets its key, until one raises. */
  method LoadEnvLines(lines: seq<string>, env: map<string, string>) returns (r: map<string, string>)
    ensures r == LoadedEnv(lines, env)
  {
    r := ApplyEnvLines(lines, env, ParseEnvLine);
  }

  /** A file none of whose lines raises is applied whole. */
  lemma AppliedWhole(lines: seq<string>, env: map<string, string>, parse: string -> Option<(string, string)>)
    requires forall j :: 0 <= j < |lines| ==> !Fails(parse, lines[j])
    ensures Applied(lines, env, parse) == EnvAfter(lines, env, parse)
  {
    assert lines[..|lines|] == lines;
  }

  /** Nothing after a line that raises has any effect. */
  lemma AppliedStops(lines: seq<string>, more: seq<string>, env: map<string, string>, parse: string -> Option<(string, string)>)
    requires FirstFailure(lines, parse) < |lines|
    ensures Applied(lines + more, env, parse) == Applied(lines, env, parse)
  {
    var k := FirstFailure(lines, parse);
    var all := lines + more;
    assert forall j :: 0 <= j <= k ==> all[j] == lines[j];
    assert FirstFailure(all, parse) == k;
    assert all[..k] == lines[..k];
  }

  /** A line with nothing before its `=` raises, and the lines after it are not applied. */
  lemma EmptyKeyStops(lines: seq<string>, more: seq<string>, env: map<string, string>)
    requires lines != [] && ParseEnvLine(lines[|lines| - 1]).Some? && ParseEnvLine(lines[|lines| - 1]).value.0 == ""
    ensures LoadedEnv(lines + more, env) == LoadedEnv(lines, env)
  {
    assert FirstFailure(lines, ParseEnvLine) < |lines| by {
      assert Fails(ParseEnvLine, lines[|lines| - 1]);
    }
    AppliedStops(lines, more, env, ParseEnvLine);
  }

  // ---------------------------------------------------------------------
  // Combining file contents

  /** A file that fits, with its header. */
  function Block(content: string): string {
    "\n--- File Content ---\n" + content + "\n"
  }

  /** The start of the first file that does not fit, with its header. */
  function TruncatedBlock(content: string, remaining: int): string
    requires remaining >= 0
  {
    "\n--- File Content (truncated) ---\n" + content[..if remaining < |content| then remaining else |content|] + "\n"
  }

  /** The loop of `_combine_file_contents` from `combined` on, with `maxChars` characters allowed. */
  function Combine(contents: seq<string>, maxChars: int, combined: string): string {
    if contents == [] then combined
    else if |combined| + |contents[0]| + 100 < maxChars then Combine(contents[1..], maxChars, combined + Block(contents[0]))
    else
      var remaining := maxChars - |combined| - 100;
      if remaining > 500 then combined + TruncatedBlock(contents[0], remaining) else combined
  }

  /** What `_combine_file_contents(contents, maxTokens)` returns. */
  function CombineFileContents(contents: seq<string>, maxTokens: int): string {
    Combine(contents, maxTokens * 4, "")
  }

  /** The files, each with its header, one after another. */
  function Blocks(contents: seq<string>): string {
    if contents == [] then "" else Block(contents[0]) + Blocks(contents[1..])
  }

  /** How many leading files fit whole when `used` characters are already taken. */
  function FitCount(contents: seq<string>, maxChars: int, used: int): (k: nat)
    ensures k <= |contents|
  {
    if contents == [] then 0
    else if used + |contents[0]| + 100 < maxChars then 1 + FitCount(contents[1..], maxChars, used + |Block(contents[0])|)
    else 0
  }

  lemma BlocksFirst(contents: seq<string>, k: nat)
    requires 1 <= k <= |contents|
    ensures Blocks(contents[..k]) == Block(contents[0]) + Blocks(contents[1..][..k - 1])
  {
    assert contents[..k][0] == contents[0];
    assert contents[..k][1..] == contents[1..][..k - 1];
  }

  /** `combined` followed by the files that fit whole. */
  function Whole(contents: seq<string>, maxChars: int, combined: string): string {
    combined + Blocks(contents[..FitCount(contents, maxChars, |combined|)])
  }

  /** The truncated piece of file `k`, when it exists and more than 500 characters remain, or nothing. */
  function Piece(contents: seq<string>, k: nat, remaining: int): string {
    if k < |contents| && remaining > 500 then TruncatedBlock(contents[k], remaining) else ""
  }

  /** The truncated piece of the first file that does not fit, when more than 500 characters remain, or nothing. */
  function Tail(contents: seq<string>, maxChars: int, combined: string): string {
    Piece(contents, FitCount(contents, maxChars, |combined|), maxChars - |Whole(contents, maxChars, combined)| - 100)
  }

  lemma PieceShift(contents: seq<string>, k: nat, remaining: int)
    requires 1 <= k && contents != []
    ensures Piece(contents, k, remaining) == Piece(contents[1..], k - 1, remaining)
  {
    if k < |contents| {
      assert contents[k] == contents[1..][k - 1];
    }
  }

  lemma WholeStep(contents: seq<string>, maxChars: int, combined: string)
    requires contents != [] && |combined| + |contents[0]| + 100 < maxChars
    ensures Whole(contents, maxChars, combined) == Whole(contents[1..], maxChars, combined + Block(contents[0]))
  {
    var k := FitCount(contents, maxChars, |combined|);
    BlocksFirst(contents, k);
  }

  lemma TailStep(contents: seq<string>, maxChars: int, combined: string)
    requires contents != [] && |combined| + |contents[0]| + 100 < maxChars
    ensures Tail(contents, maxChars, combined) == Tail(contents[1..], maxChars, combined + Block(contents[0]))
  {
    var next := combined + Block(contents[0]);
    var k := FitCount(contents, maxChars, |combined|);
    assert k == 1 + FitCount(contents[1..], maxChars, |next|);
    assert Whole(contents, maxChars, combined) == Whole(contents[1..], maxChars, next) by {
      WholeStep(contents, maxChars, combined);
    }
    PieceShift(contents, k, maxChars - |Whole(contents, maxChars, combined)| - 100);
  }

  lemma StopStep(contents: seq<string>, maxChars: int, combined: string)
    requires contents != [] && !(|combined| + |contents[0]| + 100 < maxChars)
    ensures Whole(contents, maxChars, combined) == combined
    ensures var remaining := maxChars - |combined| - 100;
      Tail(contents, maxChars, combined) == if remaining > 500 then TruncatedBlock(contents[0], remaining) else ""
  {
    assert contents[..0] == [];
    assert combined + Blocks([]) == combined;
  }

  /** Whole files in order while they fit, then at most a truncated piece of the first that does not, when more than 500 characters remain. */
  lemma {:induction false} CombineShape(contents: seq<string>, maxChars: int, combined: string)
    ensures Combine(contents, maxChars, combined) == Whole(contents, maxChars, combined) + Tail(contents, maxChars, combined)
  {
    if contents == [] {
      assert Whole(contents, maxChars, combined) == combined by {
        assert contents[..0] == [];
      }
    } else if |combined| + |contents[0]| + 100 < maxChars {
      CombineShape(contents[1..], maxChars, combined + Block(contents[0]));
      WholeStep(contents, maxChars, combined);
      TailStep(contents, maxChars, combined);
    } else {
      StopStep(contents, maxChars, combined);
    }
  }

  /** The combined text is always shorter than the limit, when the limit allows any text at all. */
  lemma {:induction false} CombineBound(contents: seq<string>, maxChars: int, combined: string)
    requires |combined| < maxChars
    ensures |Combine(contents, maxChars, combined)| < maxChars
  {
    if contents != [] && |combined| + |contents[0]| + 100 < maxChars {
      CombineBound(contents[1..], maxChars, combined + Block(contents[0]));
    }
  }

  /** The combined text is shorter than `maxTokens * 4` characters. */
  lemma CombineFileContentsBound(contents: seq<string>, maxTokens: int)
    requires maxTokens > 0
    ensures |CombineFileContents(contents, maxTokens)| < maxTokens * 4
  {
    CombineBound(contents, maxTokens * 4, "");
  }

  /** `_combine_file_contents`: the loop that appends files and stops at the first that does not fit. */
  method CombineFiles(contents: seq<string>, maxTokens: int) returns (combined: string)
    ensures combined == CombineFileContents(contents, maxTokens)
  {
    var maxChars := maxTokens * 4;
    combined := "";
    for i := 0 to |contents|
      invariant Combine(contents[i..], maxChars, combined) == CombineFileContents(contents, maxTokens)
    {
      var content := contents[i];
      assert contents[i..][1..] == contents[i + 1..];
      if |combined| + |content| + 100 < maxChars {
        combined := combined + Block(content);
      } else {
        var remaining := maxChars - |combined| - 100;
        if remaining > 500 {
          combined := combined + TruncatedBlock(content, remaining);
        }
        return;
      }
    }
  }

  // ---------------------------------------------------------------------
  // Skillset answers

  /** `skillset.strip().strip('"').strip("'").strip()` */
  function Unwrap(skillset: string): string {
    Strip(StripChar(StripChar(Strip(skillset), '"'), '\''))
  }

  /** A part as the comprehension strips it and the loop cleans it. */
  function CleanTag(tag: string): string {
    Unwrap(Strip(tag))
  }

  /** The length filter of `_parse_skillsets_response`. */
  predicate KeepTag(tag: string) {
    2 <= |tag| <= 50
  }

  /** A tag as the answer keeps it: of allowed length, without commas and without surrounding whitespace. */
  predicate WellFormedTag(tag: string) {
    KeepTag(tag) && ',' !in tag && !IsSpace(tag[0]) && !IsSpace(tag[|tag| - 1])
  }

  /** The parts cleaned by `clean` that pass the length filter, in order. */
  function Cleaned(parts: seq<string>, clean: string -> string): seq<string> {
    if parts == [] then []
    else
      var tag := clean(parts[|parts| - 1]);
      Cleaned(parts[..|parts| - 1], clean) + (if KeepTag(tag) then [tag] else [])
  }

  lemma CleanedStep(parts: seq<string>, clean: string -> string, i: nat)
    requires i < |parts|
    ensures Cleaned(parts[..i + 1], clean) == Cleaned(parts[..i], clean) + (if KeepTag(clean(parts[i])) then [clean(parts[i])] else [])
  {
    assert parts[..i + 1][..i] == parts[..i];
  }

  /** What `_parse_skillsets_response` returns. */
  function ParseSkillsetsResponse(text: string): (r: seq<string>)
    ensures text == "" ==> r == []
    ensures |r| <= 10
  {
    if text == "" then [] else FirstTen(Cleaned(Split(text, ','), CleanTag))
  }

  /** `tags[:10]` */
  function FirstTen(tags: seq<string>): (r: seq<string>)
    ensures |r| <= 10 && r <= tags
    ensures |tags| <= 10 ==> r == tags
  {
    if |tags| <= 10 then tags else tags[..10]
  }

  /** Every tag of the answer is 2 to 50 characters long, holds no comma and has no surrounding whitespace. */
  lemma ParseSkillsetsWellFormed(text: string)
    ensures var r := ParseSkillsetsResponse(text);
      forall i :: 0 <= i < |r| ==> WellFormedTag(r[i])
  {
    if text != "" {
      var parts := Split(text, ',');
      var tags := Cleaned(parts, CleanTag);
      assert forall i :: 0 <= i < |tags| ==> WellFormedTag(tags[i]) by {
        CleanTagWellFormed();
        CleanedWellFormed(parts, CleanTag);
      }
      assert ParseSkillsetsResponse(text) == FirstTen(tags) by {
        ParseSkillsetsOf(text, parts);
      }
      FirstTenWellFormed(tags);
    }
  }

  lemma FirstTenWellFormed(tags: seq<string>)
    requires forall i :: 0 <= i < |tags| ==> WellFormedTag(tags[i])
    ensures forall i :: 0 <= i < |FirstTen(tags)| ==> WellFormedTag(FirstTen(tags)[i])
  {
    assert forall i :: 0 <= i < |FirstTen(tags)| ==> FirstTen(tags)[i] == tags[i];
  }

  /** Cleaning a tag keeps out what the tag did not hold, and leaves no whitespace at its ends. */
  lemma CleanTagInside(tag: string, x: char)
    requires x !in tag
    ensures x !in CleanTag(tag)
    ensures CleanTag(tag) == [] || (!IsSpace(CleanTag(tag)[0]) && !IsSpace(CleanTag(tag)[|CleanTag(tag)| - 1]))
  {
    StripInside(tag, x);
    StripInside(Strip(tag), x);
    assert CleanTag(tag) == Unwrap(Strip(tag));
    StripCharEnds(Strip(Strip(tag)), '"', x);
    StripCharEnds(StripChar(Strip(Strip(tag)), '"'), '\'', x);
    StripInside(StripChar(StripChar(Strip(Strip(tag)), '"'), '\''), x);
  }

  lemma CleanTagWellFormed()
    ensures forall tag :: ',' !in tag ==> ',' !in CleanTag(tag) && (CleanTag(tag) == [] || (!IsSpace(CleanTag(tag)[0]) && !IsSpace(CleanTag(tag)[|CleanTag(tag)| - 1])))
  {
    forall tag | ',' !in tag
      ensures ',' !in CleanTag(tag) && (CleanTag(tag) == [] || (!IsSpace(CleanTag(tag)[0]) && !IsSpace(CleanTag(tag)[|CleanTag(tag)| - 1])))
    {
      CleanTagInside(tag, ',');
    }
  }

  /** The tags kept from comma-free parts are well formed when cleaning adds no comma and leaves no surrounding whitespace. */
  lemma {:induction false} CleanedWellFormed(parts: seq<string>, clean: string -> string)
    requires forall i :: 0 <= i < |parts| ==> ',' !in parts[i]
    requires forall tag :: ',' !in tag ==> ',' !in clean(tag) && (clean(tag) == [] || (!IsSpace(clean(tag)[0]) && !IsSpace(clean(tag)[|clean(tag)| - 1])))
    ensures forall i :: 0 <= i < |Cleaned(parts, clean)| ==> WellFormedTag(Cleaned(parts, clean)[i])
  {
    if parts != [] {
      CleanedWellFormed(parts[..|parts| - 1], clean);
    }
  }

  /** Cleaning keeps the order of the parts: it distributes over concatenation. */
  lemma {:induction false} CleanedConcat(a: seq<string>, b: seq<string>, clean: string -> string)
    ensures Cleaned(a + b, clean) == Cleaned(a, clean) + Cleaned(b, clean)
    decreases |b|
  {
    if b == [] {
      assert a + b == a;
    } else {
      var init := b[..|b| - 1];
      assert (a + b)[..|a + b| - 1] == a + init;
      CleanedConcat(a, init, clean);
    }
  }

  /** A tag that is already clean survives cleaning unchanged. */
  predicate CleanSkillset(tag: string) {
    && KeepTag(tag) && ',' !in tag
    && !IsSpace(tag[0]) && !IsSpace(tag[|tag| - 1])
    && tag[0] != '"' && tag[|tag| - 1] != '"' && tag[0] != '\'' && tag[|tag| - 1] != '\''
  }

  lemma CleanTagNoop(tag: string)
    requires CleanSkillset(tag)
    ensures CleanTag(tag) == tag
  {
    StripNoop(tag);
    StripCharNoop(tag, '"');
    StripCharNoop(tag, '\'');
  }

  lemma {:induction false} CleanedNoop(tags: seq<string>, clean: string -> string)
    requires forall i :: 0 <= i < |tags| ==> clean(tags[i]) == tags[i] && KeepTag(tags[i])
    ensures Cleaned(tags, clean) == tags
  {
    if tags != [] {
      CleanedNoop(tags[..|tags| - 1], clean);
    }
  }

  lemma CleanTagsNoop(tags: seq<string>)
    requires forall i :: 0 <= i < |tags| ==> CleanSkillset(tags[i])
    ensures Cleaned(tags, CleanTag) == tags
  {
    forall i | 0 <= i < |tags|
      ensures CleanTag(tags[i]) == tags[i]
    {
      CleanTagNoop(tags[i]);
    }
    CleanedNoop(tags, CleanTag);
  }

  /** The answer to a non-empty text is the first ten kept tags of its comma-separated parts. */
  lemma ParseSkillsetsOf(text: string, parts: seq<string>)
    requires text != "" && Split(text, ',') == parts
    ensures ParseSkillsetsResponse(text) == FirstTen(Cleaned(parts, CleanTag))
  {
  }

  lemma SplitJoinCommas(tags: seq<string>)
    requires tags != [] && forall i :: 0 <= i < |tags| ==> CleanSkillset(tags[i])
    ensures Join(tags, ",") != "" && Split(Join(tags, ","), ',') == tags
  {
    JoinNonEmpty(tags, ",");
    SplitJoin(tags, ',');
  }

  /** Clean tags joined by commas parse back to the first ten of them. */
  lemma SkillsetsRoundTrip(tags: seq<string>)
    requires tags != [] && forall i :: 0 <= i < |tags| ==> CleanSkillset(tags[i])
    ensures ParseSkillsetsResponse(Join(tags, ",")) == FirstTen(tags)
  {
    var text := Join(tags, ",");
    assert text != "" && Split(text, ',') == tags by {
      SplitJoinCommas(tags);
    }
    assert Cleaned(tags, CleanTag) == tags by {
      CleanTagsNoop(tags);
    }
    ParseSkillsetsOf(text, tags);
  }

  lemma JoinNonEmpty(parts: seq<string>, sep: string)
    requires parts != [] && parts[0] != []
    ensures Join(parts, sep) != []
  {
  }

  /** `_parse_skillsets_response`: strip each comma-separated part, keep the cleaned tags of allowed length, at most ten. */
  method ParseSkillsets(text: string) returns (r: seq<string>)
    ensures r == ParseSkillsetsResponse(text)
  {
    if text == "" {
      return [];
    }
    var parts := Split(text, ',');
    var skillsets := seq(|parts|, i requires 0 <= i < |parts| => Strip(parts[i]));
    var cleaned := [];
    for i := 0 to |skillsets|
      invariant cleaned == Cleaned(parts[..i], CleanTag)
    {
      CleanedStep(parts, CleanTag, i);
      var skillset := Unwrap(skillsets[i]);
      if 2 <= |skillset| <= 50 {
        cleaned := cleaned + [skillset];
      }
    }
    assert parts[..|parts|] == parts;
    r := if |cleaned| <= 10 then cleaned else cleaned[..10];
    assert r == FirstTen(cleaned);
  }

  // ---------------------------------------------------------------------
  // Model calls and their fallbacks

  /** A reply of the model: its message content and the token counts it reports. */
  datatype Reply = Reply(content: Option<string>, promptTokens: int, completionTokens: int)

  /** A description longer than 200 characters becomes its first 197 and `...`. */
  function TruncateDescription(d: string): (r: string)
    ensures |r| <= 200
    ensures |d| <= 200 ==> r == d
    ensures |d| > 200 ==> |r| == 200 && r[..197] == d[..197] && EndsWith(r, "...")
  {
    if |d| > 200 then d[..197] + "..." else d
  }

  /** Truncating twice changes nothing more. */
  lemma TruncateIdempotent(d: string)
    ensures TruncateDescription(TruncateDescription(d)) == TruncateDescription(d)
  {
  }

  /** The description used when there is no model answer. */
  function FallbackDescription(apiName: string, sourceFile: string): string {
    "Function " + apiName + " in " + sourceFile
  }

  /** What `generate_api_description` returns. */
  function ApiDescription(available: bool, response: Option<Reply>, apiName: string, sourceFile: string): (r: string)
    ensures !available || response.None? || response.value.content.None? ==> r == FallbackDescription(apiName, sourceFile)
    ensures available && response.Some? && response.value.content.Some? ==> |r| <= 200
  {
    if !available || response.None? || response.value.content.None? then FallbackDescription(apiName, sourceFile)
    else TruncateDescription(Strip(response.value.content.value))
  }

  /** A short answer is used as it is, stripped; a long one keeps its first 197 characters. */
  lemma ApiDescriptionAnswer(response: Option<Reply>, apiName: string, sourceFile: string)
    requires response.Some? && response.value.content.Some?
    ensures var d := Strip(response.value.content.value);
      var r := ApiDescription(true, response, apiName, sourceFile);
      (|d| <= 200 ==> r == d) && (|d| > 200 ==> |r| == 200 && r[..197] == d[..197])
  {
  }

  /** What `generate_skillsets` returns; a message without content parses as the empty answer. */
  function Skillsets(available: bool, response: Option<Reply>): (r: seq<string>)
    ensures !available || response.None? ==> r == []
    ensures |r| <= 10
  {
    if !available || response.None? then []
    else ParseSkillsetsResponse(if response.value.content.Some? then response.value.content.value else "")
  }

  /** The model every request goes to. */
  const ChatModel: string := "gpt-3.5-turbo"
  /** The operation types under which the two requests log their usage. */
  const SkillsetOperation: string := "skillset_detection"
  const DescriptionOperation: string := "api_description"

  /** The usage record of a `gpt-3.5-turbo` reply. */
  function Logged35(reply: Reply, timestamp: int, operationType: string): UsageMetrics {
    UsageMetrics(OpenAI, ChatModel, reply.promptTokens, reply.completionTokens, reply.promptTokens + reply.completionTokens,
                 EstimateCost(OpenAI, ChatModel, reply.promptTokens, reply.completionTokens), timestamp, operationType)
  }

  /** Whether the model call went through, so that its usage is logged. */
  predicate Called(available: bool, response: Option<Reply>) {
    available && response.Some?
  }

  /** `generate_skillsets`: combine the files, call the model, log its usage and parse the answer. */
  method GenerateSkillsets(collector: UsageCollector, available: bool, fileContents: seq<string>, response: Option<Reply>, timestamp: int)
    returns (r: seq<string>)
    requires collector.Valid()
    modifies collector
    ensures collector.Valid()
    ensures r == Skillsets(available, response)
    ensures Called(available, response) ==>
      collector.calls == old(collector.calls) + [Logged35(response.value, timestamp, SkillsetOperation)]
    ensures !Called(available, response) ==> collector.calls == old(collector.calls)
  {
    if !available {
      return [];
    }
    var combined := CombineFiles(fileContents, 8000);
    if response.None? {
      // the request raised
      return [];
    }
    var reply := response.value;
    var metrics := collector.LogUsage(OpenAI, ChatModel, reply.promptTokens, reply.completionTokens, SkillsetOperation, timestamp);
    assert collector.calls == old(collector.calls) + [Logged35(reply, timestamp, SkillsetOperation)];
    r := ParseSkillsets(if reply.content.Some? then reply.content.value else "");
  }

  /** `generate_api_description`: call the model, log its usage, strip and shorten the answer, or fall back. */
  method GenerateApiDescription(collector: UsageCollector, available: bool, apiName: string, sourceFile: string, response: Option<Reply>, timestamp: int)
    returns (r: string)
    requires collector.Valid()
    modifies collector
    ensures collector.Valid()
    ensures r == ApiDescription(available, response, apiName, sourceFile)
    ensures Called(available, response) ==>
      collector.calls == old(collector.calls) + [Logged35(response.value, timestamp, DescriptionOperation)]
    ensures !Called(available, response) ==> collector.calls == old(collector.calls)
  {
    if !available {
      return "Function " + apiName + " in " + sourceFile;
    }
    if response.None? {
      // the request raised
      return "Function " + apiName + " in " + sourceFile;
    }
    var reply := response.value;
    var metrics := collector.LogUsage(OpenAI, ChatModel, reply.promptTokens, reply.completionTokens, DescriptionOperation, timestamp);
    assert collector.calls == old(collector.calls) + [Logged35(reply, timestamp, DescriptionOperation)];
    if reply.content.None? {
      // `.strip()` of a missing content raised
      return "Function " + apiName + " in " + sourceFile;
    }
    var description := Strip(reply.content.value);
    if |description| > 200 {
      description := description[..197] + "...";
    }
    r := description;
  }
}
