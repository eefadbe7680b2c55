/**
 * The Python parser: which suffixes it claims, where a definition ends
 * (the last line indented deeper than the `def`/`class` line, trailing blank
 * lines excluded), the code handed to the LLM, the description fallbacks
 * keyed on a definition's name and bases, and the frameworks a file uses.
 *
 * Python's `ast` is replaced by the list of definition nodes in the order
 * `ast.walk` visits them, or `None` for a file that does not parse; the
 * regular-expression search is the abstract predicate `search(pattern, text)`;
 * the LLM is `None` when unavailable and otherwise the answer that
 * `generate_api_description` gives for a piece of code and an API name.
 */
module PythonParser {
  import opened Text
  import opened Order
  import opened Model
  import opened FrameworkDetection

  // ---------------------------------------------------------------------
  // Supported extensions

  /** `supports_extension`: `ext.lower() in {'.py', '.pyi'}`. */
  predicate SupportsExtension(ext: string) {
    Lower(ext) == ".py" || Lower(ext) == ".pyi"
  }

  /** The answer depends on the extension's lower-cased form only. */
  lemma SupportsExtensionIgnoresCase(ext: string)
    ensures SupportsExtension(ext) <==> SupportsExtension(Lower(ext))
  {
    LowerIdempotent(ext);
  }

  // ---------------------------------------------------------------------
  // End of a definition

  /**
   * The scan of `_find_end_line` from index `cur` on, where `last` is the last
   * line found so far that belongs to the block.  It is generic in what counts
   * as blank and in how deep a line is indented.
   */
  function ScanEnd(lines: seq<string>, blank: string -> bool, indent: string -> nat,
                   base: nat, cur: nat, last: nat): (r: nat)
    requires last < cur <= |lines|
    ensures last < r <= |lines|
    decreases |lines| - cur
  {
    if cur == |lines| then last + 1
    else if blank(lines[cur]) then ScanEnd(lines, blank, indent, base, cur + 1, last)
    else if indent(lines[cur]) <= base then last + 1
    else ScanEnd(lines, blank, indent, base, cur + 1, cur)
  }

  /**
   * `_find_end_line`: the 1-based number of the last line of the definition
   * that starts on line `lineno` (1-based, as `ast` numbers lines).
   */
  function EndLine(lines: seq<string>, lineno: int): (r: int)
    requires lineno >= 1
    ensures r >= lineno
    ensures lineno <= |lines| ==> r <= |lines|
  {
    var s := lineno - 1;
    if s >= |lines| then lineno
    else ScanEnd(lines, IsBlank, Indent, Indent(lines[s]), s + 1, s)
  }

  /**
   * `_find_end_line` as the source writes it: a scan that stops at the first
   * line not indented deeper.  The test `not line.strip()` is `IsBlank(line)`
   * (`BlankIffStripEmpty`) and `len(line) - len(line.lstrip())` is
   * `Indent(line)` (`IndentLStrip`).
   */
  method FindEndLine(lines: seq<string>, lineno: int) returns (endLine: int)
    requires lineno >= 1
    ensures endLine == EndLine(lines, lineno)
  {
    var startLine := lineno - 1;
    if startLine >= |lines| {
      return lineno;
    }
    var defLine := lines[startLine];
    var baseIndent := Indent(defLine);
    var current := startLine + 1;
    var lastContent := startLine;
    while current < |lines|
      invariant 0 <= lastContent < current <= |lines|
      invariant ScanEnd(lines, IsBlank, Indent, baseIndent, current, lastContent) == EndLine(lines, lineno)
      decreases |lines| - current
    {
      var line := lines[current];
      if IsBlank(line) {
        current := current + 1;
        continue;
      }
      var currentIndent := Indent(line);
      if currentIndent <= baseIndent {
        break;
      }
      lastContent := current;
      current := current + 1;
    }
    return lastContent + 1;
  }

  /** Every line the scan takes in is blank or indented deeper than `base`. */
  lemma {:induction false} ScanEndInside(lines: seq<string>, blank: string -> bool, indent: string -> nat,
                                         base: nat, cur: nat, last: nat, k: nat)
    requires last < cur <= |lines|
    requires cur <= k < ScanEnd(lines, blank, indent, base, cur, last)
    ensures blank(lines[k]) || indent(lines[k]) > base
    decreases |lines| - cur
  {
    if cur < |lines| && k > cur {
      if blank(lines[cur]) {
        ScanEndInside(lines, blank, indent, base, cur + 1, last, k);
      } else if indent(lines[cur]) > base {
        ScanEndInside(lines, blank, indent, base, cur + 1, cur, k);
      }
    }
  }

  /** The scan ends on `last` or on a non-blank line it took in. */
  lemma {:induction false} ScanEndLast(lines: seq<string>, blank: string -> bool, indent: string -> nat,
                                       base: nat, cur: nat, last: nat)
    requires last < cur <= |lines|
    ensures var r := ScanEnd(lines, blank, indent, base, cur, last);
      r - 1 == last || (cur <= r - 1 && !blank(lines[r - 1]))
    decreases |lines| - cur
  {
    if cur < |lines| {
      if blank(lines[cur]) {
        ScanEndLast(lines, blank, indent, base, cur + 1, last);
      } else if indent(lines[cur]) > base {
        ScanEndLast(lines, blank, indent, base, cur + 1, cur);
      }
    }
  }

  /**
   * Lines `r` up to `j` are blank, and `j` is the end of the file or a
   * non-blank line indented no deeper than `base`.
   */
  predicate StopsAt(lines: seq<string>, blank: string -> bool, indent: string -> nat, base: nat, r: int, j: int) {
    0 <= r <= j <= |lines| && (forall k :: r <= k < j ==> blank(lines[k]))
    && (j == |lines| || (!blank(lines[j]) && indent(lines[j]) <= base))
  }

  /**
   * The scan stops only where it must: after the block come blank lines up to
   * the end of the file or up to a non-blank line indented no deeper than `base`.
   */
  lemma {:induction false} ScanEndStops(lines: seq<string>, blank: string -> bool, indent: string -> nat,
                                        base: nat, cur: nat, last: nat)
    requires last < cur <= |lines|
    requires forall k :: last < k < cur ==> blank(lines[k])
    ensures exists j :: StopsAt(lines, blank, indent, base, ScanEnd(lines, blank, indent, base, cur, last), j)
    decreases |lines| - cur
  {
    var r := ScanEnd(lines, blank, indent, base, cur, last);
    if cur == |lines| {
      assert r == last + 1;
      assert StopsAt(lines, blank, indent, base, r, cur);
    } else if blank(lines[cur]) {
      ScanEndStops(lines, blank, indent, base, cur + 1, last);
    } else if indent(lines[cur]) <= base {
      assert r == last + 1;
      assert StopsAt(lines, blank, indent, base, r, cur);
    } else {
      ScanEndStops(lines, blank, indent, base, cur + 1, cur);
    }
  }

  /** A definition past the end of the file ends on its own line. */
  lemma EndLineBeyondFile(lines: seq<string>, lineno: int)
    requires lineno > |lines|
    ensures EndLine(lines, lineno) == lineno
  {
  }

  /**
   * Every line after the definition line, up to the end line, is blank or
   * indented strictly deeper than the definition line.
   */
  lemma EndLineBlock(lines: seq<string>, lineno: int, k: int)
    requires 1 <= lineno <= |lines|
    requires lineno <= k < EndLine(lines, lineno)
    ensures IsBlank(lines[k]) || Indent(lines[k]) > Indent(lines[lineno - 1])
  {
    ScanEndInside(lines, IsBlank, Indent, Indent(lines[lineno - 1]), lineno, lineno - 1, k);
  }

  /** The block does not end on a blank line (unless it is the definition line alone). */
  lemma EndLineNoTrailingBlank(lines: seq<string>, lineno: int)
    requires 1 <= lineno <= |lines|
    ensures var r := EndLine(lines, lineno); r == lineno || !IsBlank(lines[r - 1])
  {
    ScanEndLast(lines, IsBlank, Indent, Indent(lines[lineno - 1]), lineno, lineno - 1);
  }

  /**
   * The lines from the end of the definition on line `lineno` up to index `j`
   * are blank, and `j` is the end of the file or a non-blank line indented no
   * deeper than the definition line.
   */
  predicate BlankUntilDedent(lines: seq<string>, lineno: int, j: int)
    requires 1 <= lineno <= |lines|
  {
    var r := EndLine(lines, lineno);
    r <= j <= |lines| && (forall k :: r <= k < j ==> IsBlank(lines[k]))
    && (j == |lines| || (!IsBlank(lines[j]) && Indent(lines[j]) <= Indent(lines[lineno - 1])))
  }

  /**
   * The block is as long as it can be: after it come only blank lines, up to
   * the end of the file or up to a non-blank line indented no deeper than the
   * definition line.
   */
  lemma EndLineMaximal(lines: seq<string>, lineno: int)
    requires 1 <= lineno <= |lines|
    ensures exists j :: BlankUntilDedent(lines, lineno, j)
  {
    var base := Indent(lines[lineno - 1]);
    ScanEndStops(lines, IsBlank, Indent, base, lineno, lineno - 1);
    var j :| StopsAt(lines, IsBlank, Indent, base, EndLine(lines, lineno), j);
    assert BlankUntilDedent(lines, lineno, j);
  }

  // ---------------------------------------------------------------------
  // Code handed to the LLM

  /** `_extract_function_code` and `_extract_async_function_code`: the definition's lines, joined. */
  function FunctionCode(lines: seq<string>, lineno: int): (r: string)
    requires lineno >= 1
    ensures lineno > |lines| ==> r == ""
  {
    var s := lineno - 1;
    var e := EndLine(lines, lineno);
    if s < |lines| && e <= |lines| then Join(lines[s..e], "\n") else ""
  }

  const TruncationMarker: string := "    # ... (truncated)"

  /** `_extract_class_code`: the class's lines, cut to the first 50 and a marker when longer. */
  function ClassCode(lines: seq<string>, lineno: int): (r: string)
    requires lineno >= 1
    ensures lineno > |lines| ==> r == ""
  {
    var s := lineno - 1;
    var e := EndLine(lines, lineno);
    if s < |lines| && e <= |lines| then
      var classLines := lines[s..e];
      if |classLines| > 50 then Join(classLines[..50], "\n") + "\n" + TruncationMarker
      else Join(classLines, "\n")
    else ""
  }

  /** The extracted code is exactly the lines from the definition line to its end line. */
  lemma FunctionCodeLines(lines: seq<string>, lineno: int)
    requires 1 <= lineno <= |lines|
    requires forall i :: 0 <= i < |lines| ==> NoNewline(lines[i])
    ensures Lines(FunctionCode(lines, lineno)) == lines[lineno - 1..EndLine(lines, lineno)]
  {
    JoinNoNewline(lines[lineno - 1..EndLine(lines, lineno)]);
  }

  /** A class of more than 50 lines is cut to its first 50 lines and the marker line. */
  lemma ClassCodeTruncated(lines: seq<string>, lineno: int)
    requires 1 <= lineno <= |lines|
    requires forall i :: 0 <= i < |lines| ==> NoNewline(lines[i])
    requires EndLine(lines, lineno) - lineno + 1 > 50
    ensures Lines(ClassCode(lines, lineno)) == lines[lineno - 1..lineno + 49] + [TruncationMarker]
  {
    var s := lineno - 1;
    var head := lines[s..EndLine(lines, lineno)][..50];
    assert head == lines[s..lineno + 49];
    JoinAppend(head, [TruncationMarker], "\n");
    assert NoNewline(TruncationMarker);
    JoinNoNewline(head + [TruncationMarker]);
  }

  /** A class of at most 50 lines is passed whole, as a function is. */
  lemma ClassCodeShort(lines: seq<string>, lineno: int)
    requires lineno >= 1
    requires EndLine(lines, lineno) - lineno + 1 <= 50
    ensures ClassCode(lines, lineno) == FunctionCode(lines, lineno)
  {
  }

  // ---------------------------------------------------------------------
  // Descriptions

  datatype NodeKind = FunctionDef | AsyncFunctionDef | ClassDef

  /** A base-class expression: a plain name (`ast.Name`) or anything else. */
  datatype Base = NameBase(id: string) | OtherBase

  /** A definition node: its kind, name, 1-based line, leading docstring and (for classes) bases. */
  datatype Node = Node(kind: NodeKind, name: string, lineno: int, docstring: Option<string>, bases: seq<Base>)

  /** The first line of a docstring, stripped. */
  function DocSummary(doc: string): string {
    Strip(Split(doc, '\n')[0])
  }

  /**
   * The order every `_generate_*_description` follows: the docstring's first
   * line if it is not empty, then the LLM's answer if the LLM is available,
   * there is code to send, and the answer is neither empty nor the client's
   * placeholder, and otherwise the name-based fallback.
   */
  function Describe(docstring: Option<string>, code: string, llm: Option<string>,
                    placeholder: string, fallback: string): (r: string)
    ensures r == fallback || (llm.Some? && r == llm.value) || (docstring.Some? && r == DocSummary(docstring.value))
  {
    if docstring.Some? && DocSummary(docstring.value) != "" then DocSummary(docstring.value)
    else if llm.Some? && code != "" && llm.value != "" && llm.value != placeholder then llm.value
    else fallback
  }

  /** A non-empty docstring line wins over the LLM and the fallback. */
  lemma DocstringWins(doc: string, code: string, llm: Option<string>, placeholder: string, fallback: string)
    requires DocSummary(doc) != ""
    ensures Describe(Some(doc), code, llm, placeholder, fallback) == DocSummary(doc)
  {
  }

  /** The description is never empty and never the client's placeholder, given a fallback that is neither. */
  lemma DescribeNeverPlaceholder(docstring: Option<string>, code: string, llm: Option<string>,
                                 placeholder: string, fallback: string)
    requires fallback != "" && fallback != placeholder
    requires docstring.Some? ==> DocSummary(docstring.value) != placeholder
    ensures var r := Describe(docstring, code, llm, placeholder, fallback); r != "" && r != placeholder
  {
  }

  /** Without a docstring and without the LLM, the fallback is used. */
  lemma DescribeUnavailable(code: string, placeholder: string, fallback: string)
    ensures Describe(None, code, None, placeholder, fallback) == fallback
  {
  }

  /** The name prefixes the function fallback looks for, in the order it tries them, with their labels. */
  const PrefixLabels: seq<(string, string)> := [
    ("test_", "Test function for "), ("get_", "Retrieves "), ("set_", "Sets "),
    ("create_", "Creates "), ("delete_", "Deletes "), ("update_", "Updates ")
  ]

  /** `_describe_function_name` */
  function NameDescription(name: string): (r: string)
    ensures StartsWith(r, "Function that handles ")
    ensures '_' !in r
  {
    WordsNoUnderscore(name);
    "Function that handles " + Words(name)
  }

  predicate IsDunder(name: string) {
    StartsWith(name, "__") && EndsWith(name, "__")
  }

  /** The fallback of `_generate_semantic_description` for a plain function. */
  function FunctionFallback(name: string): (r: string)
    ensures r != ""
  {
    if StartsWith(name, "test_") then "Test function for " + Replace(name[5..], '_', ' ')
    else if StartsWith(name, "get_") then "Retrieves " + Replace(name[4..], '_', ' ')
    else if StartsWith(name, "set_") then "Sets " + Replace(name[4..], '_', ' ')
    else if StartsWith(name, "create_") then "Creates " + Replace(name[7..], '_', ' ')
    else if StartsWith(name, "delete_") then "Deletes " + Replace(name[7..], '_', ' ')
    else if StartsWith(name, "update_") then "Updates " + Replace(name[7..], '_', ' ')
    else if name == "__init__" then "Constructor method for class initialization"
    else if IsDunder(name) then "Special method " + name
    else NameDescription(name)
  }

  /** The label of the first prefix in `table` that `name` starts with, or `otherwise`. */
  function FirstPrefix(name: string, table: seq<(string, string)>, otherwise: string): string {
    if table == [] then otherwise
    else if StartsWith(name, table[0].0) then table[0].1 + Replace(name[|table[0].0|..], '_', ' ')
    else FirstPrefix(name, table[1..], otherwise)
  }

  /** The fallback tries the prefixes in table order, then `__init__`, then dunders, then the name's words. */
  lemma FunctionFallbackOrder(name: string)
    ensures FunctionFallback(name) == FirstPrefix(name, PrefixLabels,
      if name == "__init__" then "Constructor method for class initialization"
      else if IsDunder(name) then "Special method " + name
      else NameDescription(name))
  {
    var t := PrefixLabels;
    var otherwise := if name == "__init__" then "Constructor method for class initialization"
      else if IsDunder(name) then "Special method " + name
      else NameDescription(name);
    assert t[6..] == [];
    assert t[5..][0] == ("update_", "Updates ") && t[5..][1..] == t[6..];
    assert FirstPrefix(name, t[5..], otherwise) ==
      if StartsWith(name, "update_") then "Updates " + Replace(name[7..], '_', ' ')
      else FirstPrefix(name, t[6..], otherwise);
    assert t[4..][0] == ("delete_", "Deletes ") && t[4..][1..] == t[5..];
    assert FirstPrefix(name, t[4..], otherwise) ==
      if StartsWith(name, "delete_") then "Deletes " + Replace(name[7..], '_', ' ')
      else FirstPrefix(name, t[5..], otherwise);
    assert t[3..][0] == ("create_", "Creates ") && t[3..][1..] == t[4..];
    assert FirstPrefix(name, t[3..], otherwise) ==
      if StartsWith(name, "create_") then "Creates " + Replace(name[7..], '_', ' ')
      else FirstPrefix(name, t[4..], otherwise);
    assert t[2..][0] == ("set_", "Sets ") && t[2..][1..] == t[3..];
    assert FirstPrefix(name, t[2..], otherwise) ==
      if StartsWith(name, "set_") then "Sets " + Replace(name[4..], '_', ' ')
      else FirstPrefix(name, t[3..], otherwise);
    assert t[1..][0] == ("get_", "Retrieves ") && t[1..][1..] == t[2..];
    assert FirstPrefix(name, t[1..], otherwise) ==
      if StartsWith(name, "get_") then "Retrieves " + Replace(name[4..], '_', ' ')
      else FirstPrefix(name, t[2..], otherwise);
    assert t[0..][0] == ("test_", "Test function for ") && t[0..][1..] == t[1..];
    assert FirstPrefix(name, t[0..], otherwise) ==
      if StartsWith(name, "test_") then "Test function for " + Replace(name[5..], '_', ' ')
      else FirstPrefix(name, t[1..], otherwise);
    assert t[0..] == t;
  }

  /** Apart from dunder names, the fallback turns every underscore into a space. */
  lemma FunctionFallbackNoUnderscore(name: string)
    requires !IsDunder(name)
    ensures '_' !in FunctionFallback(name)
  {
    if StartsWith(name, "test_") {
      LabelledNoUnderscore("Test function for ", name[5..]);
    } else if StartsWith(name, "get_") {
      LabelledNoUnderscore("Retrieves ", name[4..]);
    } else if StartsWith(name, "set_") {
      LabelledNoUnderscore("Sets ", name[4..]);
    } else if StartsWith(name, "create_") {
      LabelledNoUnderscore("Creates ", name[7..]);
    } else if StartsWith(name, "delete_") {
      LabelledNoUnderscore("Deletes ", name[7..]);
    } else if StartsWith(name, "update_") {
      LabelledNoUnderscore("Updates ", name[7..]);
    }
  }

  lemma LabelledNoUnderscore(head: string, rest: string)
    requires '_' !in head
    ensures '_' !in head + Replace(rest, '_', ' ')
  {
    var r := Replace(rest, '_', ' ');
    assert '_' !in r;
    var t := head + r;
    forall i | 0 <= i < |t| ensures t[i] != '_' {
      if i < |head| { assert t[i] == head[i]; } else { assert t[i] == r[i - |head|]; }
    }
  }

  /** The fallback of `_generate_async_semantic_description`. */
  function AsyncFallback(name: string): (r: string)
    ensures StartsWith(r, "Async function that handles ")
    ensures '_' !in r
  {
    WordsNoUnderscore(name);
    "Async function that handles " + Words(name)
  }

  predicate ExceptionBase(b: Base) {
    b.NameBase? && Contains(b.id, "Exception")
  }

  predicate ModelBase(b: Base) {
    b.NameBase? && (b.id == "BaseModel" || b.id == "Model")
  }

  /** The fallback of `_generate_class_semantic_description`. */
  function ClassFallback(name: string, bases: seq<Base>): (r: string)
    ensures r != ""
  {
    if exists i :: 0 <= i < |bases| && ExceptionBase(bases[i]) then "Custom exception class"
    else if exists i :: 0 <= i < |bases| && ModelBase(bases[i]) then "Data model class"
    else if EndsWith(name, "Test") then "Test class for " + name[..|name| - 4]
    else if EndsWith(name, "Service") then "Service class providing business logic"
    else if EndsWith(name, "Manager") then "Manager class for handling operations"
    else "Class defining " + Words(name) + " functionality"
  }

  /** A test-class description names the class under test: appending `Test` gives the class back. */
  lemma ClassFallbackTestClass(name: string, bases: seq<Base>)
    requires StartsWith(ClassFallback(name, bases), "Test class for ")
    ensures name == ClassFallback(name, bases)[15..] + "Test"
  {
    var r := ClassFallback(name, bases);
    assert r[0] == 'T';
    assert EndsWith(name, "Test");
    assert name == name[..|name| - 4] + name[|name| - 4..];
  }

  /** An exception base decides the description, whatever the class is called. */
  lemma ClassFallbackExceptionFirst(name: string, bases: seq<Base>, i: int)
    requires 0 <= i < |bases| && ExceptionBase(bases[i])
    ensures ClassFallback(name, bases) == "Custom exception class"
  {
  }

  /** The placeholder the LLM client answers with when it cannot describe an API. */
  function Placeholder(apiName: string): string {
    "Function " + apiName + " in python_file"
  }

  /** The API name recorded for a node: `name`, `async name` or `class name`. */
  function ApiName(node: Node): (r: string)
    ensures EndsWith(r, node.name)
  {
    match node.kind
    case FunctionDef => node.name
    case AsyncFunctionDef => "async " + node.name
    case ClassDef => "class " + node.name
  }

  /** The code sent to the LLM for a node. */
  function NodeCode(node: Node, lines: seq<string>): string
    requires node.lineno >= 1
  {
    if node.kind == ClassDef then ClassCode(lines, node.lineno) else FunctionCode(lines, node.lineno)
  }

  function NodeFallback(node: Node): string {
    match node.kind
    case FunctionDef => FunctionFallback(node.name)
    case AsyncFunctionDef => AsyncFallback(node.name)
    case ClassDef => ClassFallback(node.name, node.bases)
  }

  /** The `_create_*_api_info` of a node. */
  function CreateApiInfo(node: Node, filePath: string, lines: seq<string>,
                         llm: Option<(string, string) -> string>): (r: ApiInfo)
    requires node.lineno >= 1
    ensures r.name == ApiName(node) && r.sourceFile == filePath
    ensures r.startLine == node.lineno <= r.endLine
    ensures node.lineno <= |lines| ==> r.endLine <= |lines|
    ensures r.semanticDescription != ""
  {
    var code := NodeCode(node, lines);
    var answer := if llm.Some? then Some(llm.value(code, ApiName(node))) else None;
    ApiInfo(ApiName(node), Describe(node.docstring, code, answer, Placeholder(ApiName(node)), NodeFallback(node)),
            filePath, node.lineno, EndLine(lines, node.lineno))
  }

  // ---------------------------------------------------------------------
  // Skillsets

  /** `framework_patterns`, in insertion order; each pattern is a regular expression. */
  const FrameworkPatterns: seq<(string, seq<string>)> := [
    ("Django", [@"from django\.", @"import django", @"models\.Model", @"@admin\.register", @"HttpResponse", @"render\("]),
    ("Flask", [@"from flask", @"import flask", @"@app\.route", @"Flask\(__name__\)"]),
    ("FastAPI", [@"from fastapi", @"import fastapi", @"@app\.(get|post|put|delete)", @"FastAPI\(", @"APIRouter"]),
    ("Pandas", [@"import pandas", @"from pandas", @"pd\.", @"DataFrame", @"\.read_csv"]),
    ("NumPy", [@"import numpy", @"from numpy", @"np\.", @"ndarray"]),
    ("SQLAlchemy", [@"from sqlalchemy", @"import sqlalchemy", @"declarative_base", @"Column\(", @"relationship\("]),
    ("Pytest", [@"import pytest", @"from pytest", @"@pytest\.", @"def test_"]),
    ("Asyncio", [@"import asyncio", @"async def", @"await ", @"asyncio\."]),
    ("Requests", [@"import requests", @"requests\.", @"\.get\(", @"\.post\("]),
    ("Pydantic", [@"from pydantic", @"import pydantic", @"BaseModel", @"Field\("]),
    ("Typer", [@"import typer", @"from typer", @"typer\.Typer", @"@app\.command"])
  ]

  /** `_identify_skillsets`, as a value: `Python` and every framework one of whose patterns matches. */
  function Skillsets(text: string, search: (string, string) -> bool): (r: seq<string>)
    ensures "Python" in r
    ensures StrictlySorted(r, StrLe)
  {
    SortedSet(["Python"] + Detected(FrameworkPatterns, text, search))
  }

  /** `_identify_skillsets`: the set starts as `{'Python'}` and gains each framework with a matching pattern. */
  method IdentifySkillsets(text: string, search: (string, string) -> bool) returns (skillsets: seq<string>)
    ensures skillsets == Skillsets(text, search)
  {
    skillsets := CollectSkillsets(["Python"], FrameworkPatterns, text, search);
  }

  /** The skillsets are `Python` and exactly the frameworks one of whose patterns matches. */
  lemma SkillsetsMembers(text: string, search: (string, string) -> bool, x: string)
    ensures x in Skillsets(text, search) <==> x == "Python" || Uses(FrameworkPatterns, x, text, search)
  {
    CollectedMembers(["Python"], FrameworkPatterns, text, search, x);
  }

  // ---------------------------------------------------------------------
  // parse

  /**
   * `parse`: the APIs of every definition node in walk order and the file's
   * skillsets, or, when the file does not parse (`tree` is `None`), no APIs and
   * the single skillset `Python`.
   */
  function Parse(content: string, filePath: string, tree: Option<seq<Node>>,
                 llm: Option<(string, string) -> string>, search: (string, string) -> bool): (r: AnalysisFragment)
    requires tree.Some? ==> forall i :: 0 <= i < |tree.value| ==> tree.value[i].lineno >= 1
    ensures r.sourceFile == filePath && r.fileExtension == Suffix(BaseName(filePath))
    ensures "Python" in r.skillsets
    ensures tree.Some? ==> |r.apis| == |tree.value|
    ensures tree.Some? ==> forall i :: 0 <= i < |r.apis| ==>
      r.apis[i].startLine == tree.value[i].lineno && r.apis[i].sourceFile == filePath
  {
    match tree
    case None => AnalysisFragment(Suffix(BaseName(filePath)), [], ["Python"], filePath)
    case Some(nodes) =>
      var lines := Lines(content);
      AnalysisFragment(Suffix(BaseName(filePath)),
        seq(|nodes|, i requires 0 <= i < |nodes| => CreateApiInfo(nodes[i], filePath, lines, llm)),
        Skillsets(content, search), filePath)
  }

  /** A file that does not parse yields no APIs and exactly the skillset `Python`. */
  lemma ParseSyntaxError(content: string, filePath: string,
                         llm: Option<(string, string) -> string>, search: (string, string) -> bool)
    ensures Parse(content, filePath, None, llm, search).apis == []
    ensures Parse(content, filePath, None, llm, search).skillsets == ["Python"]
  {
  }
}
