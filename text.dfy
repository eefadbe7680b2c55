/**
 * Python string and path operations used throughout the summarizer:
 * whitespace stripping, splitting on a separator, joining, ASCII lower-casing,
 * integer formatting and the `name`/`suffix` of a path.
 */
module Text {

  /** Python's `str.isspace()` for a single character. */
  predicate IsSpace(c: char) {
    c == ' ' || c == '\t' || c == '\n' || c == '\r' || c == '\U{0B}' || c == '\U{0C}'
    || ('\U{1C}' <= c <= '\U{1F}') || c == '\U{85}' || c == '\U{A0}' || c == '\U{1680}'
    || ('\U{2000}' <= c <= '\U{200A}') || c == '\U{2028}' || c == '\U{2029}'
    || c == '\U{202F}' || c == '\U{205F}' || c == '\U{3000}'
  }

  predicate IsBlank(s: string) {
    forall i :: 0 <= i < |s| ==> IsSpace(s[i])
  }

  /** `s.lstrip()` */
  function LStrip(s: string): (r: string)
    ensures |r| <= |s| && r == s[|s| - |r|..]
    ensures r == [] || !IsSpace(r[0])
    ensures IsBlank(s[..|s| - |r|])
  {
    if |s| > 0 && IsSpace(s[0]) then
      var r := LStrip(s[1..]);
      assert s[..|s| - |r|] == [s[0]] + s[1..][..|s| - 1 - |r|];
      r
    else s
  }

  /** `s.rstrip()` */
  function RStrip(s: string): (r: string)
    ensures |r| <= |s| && r == s[..|r|]
    ensures r == [] || !IsSpace(r[|r| - 1])
    ensures IsBlank(s[|r|..])
  {
    if |s| > 0 && IsSpace(s[|s| - 1]) then
      var r := RStrip(s[..|s| - 1]);
      assert s[|r|..] == s[..|s| - 1][|r|..] + [s[|s| - 1]];
      r
    else s
  }

  /** `s.strip()` */
  function Strip(s: string): (r: string)
    ensures r == [] || (!IsSpace(r[0]) && !IsSpace(r[|r| - 1]))
  {
    RStrip(LStrip(s))
  }

  /** `s.lstrip(c)` for a one-character argument. */
  function LStripChar(s: string, c: char): string {
    if |s| > 0 && s[0] == c then LStripChar(s[1..], c) else s
  }

  /** `s.rstrip(c)` for a one-character argument. */
  function RStripChar(s: string, c: char): string {
    if |s| > 0 && s[|s| - 1] == c then RStripChar(s[..|s| - 1], c) else s
  }

  /** `s.strip(c)` for a one-character argument. */
  function StripChar(s: string, c: char): string {
    RStripChar(LStripChar(s, c), c)
  }

  /** `lstrip(c)` leaves a suffix that does not start with `c`. */
  lemma {:induction false} LStripCharSuffix(s: string, c: char)
    ensures var r := LStripChar(s, c);
      |r| <= |s| && r == s[|s| - |r|..] && (r == [] || r[0] != c)
  {
    if |s| > 0 && s[0] == c {
      LStripCharSuffix(s[1..], c);
    }
  }

  /** `rstrip(c)` leaves a prefix that does not end with `c`. */
  lemma {:induction false} RStripCharPrefix(s: string, c: char)
    ensures var r := RStripChar(s, c);
      |r| <= |s| && r == s[..|r|] && (r == [] || r[|r| - 1] != c)
  {
    if |s| > 0 && s[|s| - 1] == c {
      RStripCharPrefix(s[..|s| - 1], c);
    }
  }

  /** `strip(c)` leaves a piece of the string that neither starts nor ends with `c`. */
  lemma StripCharEnds(s: string, c: char, x: char)
    ensures var r := StripChar(s, c);
      |r| <= |s| && (r == [] || (r[0] != c && r[|r| - 1] != c)) && (x !in s ==> x !in r)
  {
    var l := LStripChar(s, c);
    LStripCharSuffix(s, c);
    RStripCharPrefix(l, c);
    var r := RStripChar(l, c);
    assert r != [] ==> r[0] == l[0];
  }

  /** Number of leading whitespace characters, `len(s) - len(s.lstrip())` (see `IndentLStrip`). */
  function Indent(s: string): (r: nat)
    ensures r <= |s|
  {
    if |s| > 0 && IsSpace(s[0]) then 1 + Indent(s[1..]) else 0
  }

  predicate StartsWith(s: string, prefix: string) {
    |prefix| <= |s| && s[..|prefix|] == prefix
  }

  predicate EndsWith(s: string, suffix: string) {
    |suffix| <= |s| && s[|s| - |suffix|..] == suffix
  }

  /** Python's `sub in s`. */
  predicate Contains(s: string, sub: string) {
    StartsWith(s, sub) || (|s| > 0 && Contains(s[1..], sub))
  }

  /** `x in xs` for a list of strings, unfolded one element at a time. */
  predicate InList(x: string, xs: seq<string>) {
    |xs| > 0 && (xs[0] == x || InList(x, xs[1..]))
  }

  lemma {:induction false} InListIsMembership(x: string, xs: seq<string>)
    ensures InList(x, xs) <==> x in xs
  {
    if |xs| > 0 {
      InListIsMembership(x, xs[1..]);
      assert xs == [xs[0]] + xs[1..];
    }
  }

  /** `s.lower()` restricted to ASCII letters. */
  function Lower(s: string): (r: string)
    ensures |r| == |s|
    ensures forall i :: 0 <= i < |s| ==> r[i] == LowerChar(s[i])
  {
    if |s| == 0 then "" else [LowerChar(s[0])] + Lower(s[1..])
  }

  function LowerChar(c: char): char {
    if 'A' <= c <= 'Z' then (c as int + 32) as char else c
  }

  /** Lower-casing twice changes nothing more. */
  lemma LowerIdempotent(s: string)
    ensures Lower(Lower(s)) == Lower(s)
  {
  }

  /** An identifier's words hold no underscore. */
  lemma WordsNoUnderscore(name: string)
    ensures '_' !in Words(name)
  {
    var w := Words(name);
    var r := Replace(name, '_', ' ');
    forall i | 0 <= i < |w| ensures w[i] != '_' {
      assert w[i] == LowerChar(r[i]);
    }
  }

  /** `s.replace(a, b)` for one-character arguments. */
  function Replace(s: string, a: char, b: char): (r: string)
    ensures |r| == |s|
    ensures forall i :: 0 <= i < |s| ==> r[i] == (if s[i] == a then b else s[i])
  {
    if |s| == 0 then "" else [if s[0] == a then b else s[0]] + Replace(s[1..], a, b)
  }

  /** The words of an identifier: `name.replace('_', ' ').lower()`. */
  function Words(name: string): string {
    Lower(Replace(name, '_', ' '))
  }

  /** `s.split(sep)` for a one-character separator. */
  function Split(s: string, sep: char): (r: seq<string>)
    ensures |r| >= 1
    ensures forall i :: 0 <= i < |r| ==> sep !in r[i]
  {
    if |s| == 0 then [""]
    else if s[0] == sep then [""] + Split(s[1..], sep)
    else
      var rest := Split(s[1..], sep);
      [[s[0]] + rest[0]] + rest[1..]
  }

  /** `sep.join(parts)` */
  function Join(parts: seq<string>, sep: string): string {
    if |parts| == 0 then ""
    else if |parts| == 1 then parts[0]
    else parts[0] + sep + Join(parts[1..], sep)
  }

  predicate NoNewline(s: string) {
    '\n' !in s
  }

  /** Lines of a text as `text.split('\n')` gives them. */
  function Lines(text: string): seq<string> {
    Split(text, '\n')
  }

  function Digit(d: nat): char
    requires d < 10
  {
    "0123456789"[d]
  }

  /** `str(n)` for a natural number. */
  function NatToString(n: nat): (r: string)
    ensures |r| >= 1
    ensures forall i :: 0 <= i < |r| ==> '0' <= r[i] <= '9'
  {
    if n < 10 then [Digit(n)] else NatToString(n / 10) + [Digit(n % 10)]
  }

  /** `str(i)` for an integer. */
  function IntToString(i: int): (r: string)
    ensures NoNewline(r)
  {
    if i < 0 then "-" + NatToString(-i) else NatToString(i)
  }

  /** `Path(p).name` for a path given as its components. */
  function PathName(parts: seq<string>): string {
    if |parts| == 0 then "" else parts[|parts| - 1]
  }

  /** The components of a POSIX path, with empty and `.` components dropped as `PurePath` does. */
  function PathParts(p: string): (r: seq<string>)
    ensures forall i :: 0 <= i < |r| ==> r[i] != "" && r[i] != "." && '/' !in r[i]
  {
    NamedParts(Split(p, '/'))
  }

  function NamedParts(parts: seq<string>): (r: seq<string>)
    requires forall i :: 0 <= i < |parts| ==> '/' !in parts[i]
    ensures forall i :: 0 <= i < |r| ==> r[i] != "" && r[i] != "." && '/' !in r[i]
  {
    if |parts| == 0 then []
    else if parts[0] == "" || parts[0] == "." then NamedParts(parts[1..])
    else [parts[0]] + NamedParts(parts[1..])
  }

  /** `PurePath(p).name`: the last component, or `""` when there is none. */
  function BaseName(p: string): (r: string)
    ensures '/' !in r
  {
    PathName(PathParts(p))
  }

  /** Index of the last `c` in `s`, or -1 (`s.rfind(c)`). */
  function RFind(s: string, c: char): (r: int)
    ensures -1 <= r < |s|
    ensures r >= 0 ==> s[r] == c
    ensures forall k :: r < k < |s| ==> s[k] != c
  {
    if |s| == 0 then -1
    else if s[|s| - 1] == c then |s| - 1
    else RFind(s[..|s| - 1], c)
  }

  /**
   * `PurePath(name).suffix`: the part from the last dot, unless that dot is
   * the first or the last character of the name.
   */
  function Suffix(name: string): (r: string)
    ensures r == [] || (r[0] == '.' && EndsWith(name, r) && |r| >= 2 && |r| < |name|)
    ensures r != [] ==> '.' !in r[1..]
  {
    var i := RFind(name, '.');
    if 0 < i < |name| - 1 then name[i..] else ""
  }

  // ---------------------------------------------------------------------
  // Split / Join laws

  lemma {:induction false} SplitNoSep(s: string, sep: char)
    requires sep !in s
    ensures Split(s, sep) == [s]
  {
    if |s| > 0 {
      SplitNoSep(s[1..], sep);
      assert [s[0]] + s[1..] == s;
    }
  }

  /** Splitting at a separator splits the pieces independently. */
  lemma {:induction false} SplitConcat(a: string, b: string, sep: char)
    ensures Split(a + [sep] + b, sep) == Split(a, sep) + Split(b, sep)
  {
    if |a| == 0 {
      assert a + [sep] + b == [sep] + b;
      assert ([sep] + b)[1..] == b;
    } else {
      var s := a + [sep] + b;
      assert s[0] == a[0];
      assert s[1..] == a[1..] + [sep] + b;
      SplitConcat(a[1..], b, sep);
      if a[0] != sep {
        var rest := Split(a[1..], sep);
        assert Split(a, sep) == [[a[0]] + rest[0]] + rest[1..];
      }
    }
  }

  /** `text.split(sep)` undoes `sep.join(parts)` when no part holds `sep`. */
  lemma {:induction false} SplitJoin(parts: seq<string>, sep: char)
    requires |parts| >= 1
    requires forall i :: 0 <= i < |parts| ==> sep !in parts[i]
    ensures Split(Join(parts, [sep]), sep) == parts
  {
    SplitNoSep(parts[0], sep);
    if |parts| > 1 {
      SplitJoin(parts[1..], sep);
      SplitConcat(parts[0], Join(parts[1..], [sep]), sep);
      assert parts == [parts[0]] + parts[1..];
    }
  }

  /** `sep.join(text.split(sep))` gives the text back. */
  lemma {:induction false} JoinSplit(s: string, sep: char)
    ensures Join(Split(s, sep), [sep]) == s
  {
    if |s| > 0 {
      JoinSplit(s[1..], sep);
      var rest := Split(s[1..], sep);
      if s[0] == sep {
        assert Split(s, sep) == [""] + rest;
        assert s == [sep] + s[1..];
      } else {
        var r := [[s[0]] + rest[0]] + rest[1..];
        assert Split(s, sep) == r;
        if |rest| == 1 {
          assert Join(rest, [sep]) == rest[0];
        } else {
          assert Join(rest, [sep]) == rest[0] + [sep] + Join(rest[1..], [sep]);
          assert r[1..] == rest[1..];
        }
      }
    }
  }

  lemma {:induction false} JoinAppend(a: seq<string>, b: seq<string>, sep: string)
    requires |a| >= 1 && |b| >= 1
    ensures Join(a + b, sep) == Join(a, sep) + sep + Join(b, sep)
  {
    if |a| == 1 {
      assert (a + b)[1..] == b;
    } else {
      assert (a + b)[1..] == a[1..] + b;
      JoinAppend(a[1..], b, sep);
    }
  }

  lemma {:induction false} JoinNoNewline(parts: seq<string>)
    requires forall i :: 0 <= i < |parts| ==> NoNewline(parts[i])
    ensures |parts| >= 1 ==> Lines(Join(parts, "\n")) == parts
  {
    if |parts| >= 1 {
      SplitJoin(parts, '\n');
    }
  }

  // ---------------------------------------------------------------------
  // Strip laws

  /** `Indent` counts what `lstrip` removes. */
  lemma {:induction false} IndentLStrip(s: string)
    ensures Indent(s) == |s| - |LStrip(s)|
  {
    if |s| > 0 && IsSpace(s[0]) {
      IndentLStrip(s[1..]);
    }
  }

  /** `not s.strip()` holds exactly for all-whitespace text. */
  lemma BlankIffStripEmpty(s: string)
    ensures IsBlank(s) <==> Strip(s) == ""
  {
    var l := LStrip(s);
    if Strip(s) == "" {
      assert l[0..] == l;
      assert s[..|s|] == s;
    }
  }

  /** `Indent` counts exactly the leading whitespace. */
  lemma {:induction false} IndentStops(s: string)
    ensures Indent(s) < |s| ==> !IsSpace(s[Indent(s)])
    ensures forall i :: 0 <= i < Indent(s) ==> IsSpace(s[i])
  {
    if |s| > 0 && IsSpace(s[0]) {
      IndentStops(s[1..]);
    }
  }

  /** Lower-casing works character by character. */
  lemma LowerConcat(a: string, b: string)
    ensures Lower(a + b) == Lower(a) + Lower(b)
  {
    var u := a + b;
    forall i | 0 <= i < |u| ensures Lower(u)[i] == (Lower(a) + Lower(b))[i] {
      if i < |a| { assert u[i] == a[i]; } else { assert u[i] == b[i - |a|]; }
    }
  }

  /** Whitespace in front of a text does not survive `lstrip`. */
  lemma {:induction false} LStripBlankPrefix(w: string, x: string)
    requires IsBlank(w)
    ensures LStrip(w + x) == LStrip(x)
  {
    if |w| > 0 {
      assert (w + x)[1..] == w[1..] + x;
      LStripBlankPrefix(w[1..], x);
    } else {
      assert w + x == x;
    }
  }

  /** Whitespace after a text does not survive `rstrip`. */
  lemma {:induction false} RStripBlankSuffix(x: string, w: string)
    requires IsBlank(w)
    ensures RStrip(x + w) == RStrip(x)
  {
    if |w| > 0 {
      assert (x + w)[..|x + w| - 1] == x + w[..|w| - 1];
      RStripBlankSuffix(x, w[..|w| - 1]);
    } else {
      assert x + w == x;
    }
  }

  /** `lstrip` of a text that starts with a non-space character changes nothing. */
  lemma LStripNoop(x: string)
    requires |x| > 0 && !IsSpace(x[0])
    ensures LStrip(x) == x
  {
  }

  /** `rstrip` only looks at the end: a non-space character in `y` shields `x`. */
  lemma {:induction false} RStripShielded(x: string, y: string, k: int)
    requires 0 <= k < |y| && !IsSpace(y[k])
    ensures RStrip(x + y) == x + RStrip(y)
  {
    if IsSpace(y[|y| - 1]) {
      var y' := y[..|y| - 1];
      assert (x + y)[..|x + y| - 1] == x + y';
      RStripShielded(x, y', k);
    }
  }

  /** `rstrip` keeps every character up to the last non-space one. */
  lemma RStripKeeps(s: string, k: int)
    requires 0 <= k < |s| && !IsSpace(s[k])
    ensures k < |RStrip(s)|
  {
  }

  /** `lstrip` removes exactly the leading whitespace, so it can be skipped first. */
  lemma LStripOfConcat(t: string, w: string)
    ensures LStrip(t + w) == LStrip(LStrip(t) + w)
  {
    var l := LStrip(t);
    var n := |t| - |l|;
    assert t + w == t[..n] + (l + w);
    LStripBlankPrefix(t[..n], l + w);
  }

  /** `strip` ignores whitespace around the whole text. */
  lemma StripSurrounded(w1: string, t: string, w2: string)
    requires IsBlank(w1) && IsBlank(w2)
    ensures Strip(w1 + t + w2) == Strip(t)
  {
    assert w1 + t + w2 == w1 + (t + w2);
    LStripBlankPrefix(w1, t + w2);
    LStripOfConcat(t, w2);
    var l := LStrip(t);
    if l == [] {
      LStripBlankPrefix(w2, []);
      assert w2 + [] == w2;
    } else {
      LStripNoop(l + w2);
      RStripBlankSuffix(l, w2);
    }
  }
}
