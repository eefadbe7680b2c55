/**
 * The decisions of the `generate` and `verify` commands once the directory
 * walk, the analysis and the files on disk are given as values, and the
 * comparison `verify` uses to decide whether a committed agents.md is still
 * current: both texts are stripped, split into lines, each line stripped, the
 * two metadata lines that change on every run dropped, and the rest compared.
 */
module Commands {
  import opened Text
  import opened Model
  import opened SummaryGenerator

  // ---------------------------------------------------------------------
  // Comparison of documents

  /** A stripped line holding one of the two metadata fields that change between runs. */
  predicate IsMetadataLine(line: string) {
    StartsWith(line, "- last_generated_utc:") || StartsWith(line, "- commit_hash:")
  }

  /** No whitespace at either end of the line. */
  predicate Stripped(s: string) {
    s == [] || (!IsSpace(s[0]) && !IsSpace(s[|s| - 1]))
  }

  /** Every line normalised by `norm`, then the lines `drop` picks out removed. */
  function MapFilter(lines: seq<string>, norm: string -> string, drop: string -> bool): (r: seq<string>)
    ensures |r| <= |lines|
  {
    if lines == [] then []
    else
      var line := norm(lines[|lines| - 1]);
      MapFilter(lines[..|lines| - 1], norm, drop) + (if drop(line) then [] else [line])
  }

  /** The lines `_filter_metadata_lines` keeps: every line stripped, the metadata lines dropped. */
  function FilteredLines(lines: seq<string>): (r: seq<string>)
    ensures |r| <= |lines|
  {
    MapFilter(lines, Strip, IsMetadataLine)
  }

  method FilterMetadataLines(lines: seq<string>) returns (filtered: seq<string>)
    ensures filtered == FilteredLines(lines)
  {
    filtered := [];
    for i := 0 to |lines|
      invariant filtered == FilteredLines(lines[..i])
    {
      assert lines[..i + 1][..i] == lines[..i];
      var line := Strip(lines[i]);
      if IsMetadataLine(line) {
        continue;
      }
      filtered := filtered + [line];
    }
    assert lines[..|lines|] == lines;
  }

  /** `_content_matches`: the filtered lines of both stripped texts are equal. */
  predicate ContentMatches(actual: string, expected: string) {
    FilteredLines(Lines(Strip(actual))) == FilteredLines(Lines(Strip(expected)))
  }

  /** Matching is an equivalence: every text matches itself, and the order of the two texts does not matter. */
  lemma ContentMatchesEquivalence(a: string, b: string, c: string)
    ensures ContentMatches(a, a)
    ensures ContentMatches(a, b) <==> ContentMatches(b, a)
    ensures ContentMatches(a, b) && ContentMatches(b, c) ==> ContentMatches(a, c)
  {
  }

  lemma {:induction false} MapFilterAppend(a: seq<string>, b: seq<string>, norm: string -> string, drop: string -> bool)
    ensures MapFilter(a + b, norm, drop) == MapFilter(a, norm, drop) + MapFilter(b, norm, drop)
  {
    if b != [] {
      var b' := b[..|b| - 1];
      assert (a + b)[..|a + b| - 1] == a + b';
      assert (a + b)[|a + b| - 1] == b[|b| - 1];
      MapFilterAppend(a, b', norm, drop);
    } else {
      assert a + b == a;
    }
  }

  lemma {:induction false} MapFilterKept(lines: seq<string>, norm: string -> string, drop: string -> bool, x: string)
    requires x in MapFilter(lines, norm, drop)
    ensures !drop(x) && exists i :: 0 <= i < |lines| && norm(lines[i]) == x
  {
    var init := lines[..|lines| - 1];
    if x in MapFilter(init, norm, drop) {
      MapFilterKept(init, norm, drop, x);
      var i :| 0 <= i < |init| && norm(init[i]) == x;
      assert norm(lines[i]) == x;
    } else {
      assert norm(lines[|lines| - 1]) == x;
    }
  }

  lemma {:induction false} MapFilterKeeps(lines: seq<string>, norm: string -> string, drop: string -> bool, i: int)
    requires 0 <= i < |lines| && !drop(norm(lines[i]))
    ensures norm(lines[i]) in MapFilter(lines, norm, drop)
  {
    var init := lines[..|lines| - 1];
    if i < |init| {
      assert init[i] == lines[i];
      MapFilterKeeps(init, norm, drop, i);
    }
  }

  lemma {:induction false} MapFilterSameNorm(a: seq<string>, b: seq<string>, norm: string -> string, drop: string -> bool)
    requires |a| == |b|
    requires forall i :: 0 <= i < |a| ==> norm(a[i]) == norm(b[i])
    ensures MapFilter(a, norm, drop) == MapFilter(b, norm, drop)
  {
    if a != [] {
      MapFilterSameNorm(a[..|a| - 1], b[..|b| - 1], norm, drop);
    }
  }

  lemma MapFilterSingle(line: string, norm: string -> string, drop: string -> bool)
    ensures MapFilter([line], norm, drop) == if drop(norm(line)) then [] else [norm(line)]
  {
    assert [line][..0] == [];
  }

  /** Filtering works line by line, so the kept lines stay in their original order. */
  lemma FilteredLinesAppend(a: seq<string>, b: seq<string>)
    ensures FilteredLines(a + b) == FilteredLines(a) + FilteredLines(b)
  {
    MapFilterAppend(a, b, Strip, IsMetadataLine);
  }

  /** A line is kept exactly when it is the stripped form of an input line that is not a metadata line. */
  lemma FilteredLinesMembers(lines: seq<string>, x: string)
    ensures x in FilteredLines(lines) <==>
      !IsMetadataLine(x) && exists i :: 0 <= i < |lines| && Strip(lines[i]) == x
  {
    if x in FilteredLines(lines) {
      MapFilterKept(lines, Strip, IsMetadataLine, x);
    }
    if !IsMetadataLine(x) && exists i :: 0 <= i < |lines| && Strip(lines[i]) == x {
      var i :| 0 <= i < |lines| && Strip(lines[i]) == x;
      MapFilterKeeps(lines, Strip, IsMetadataLine, i);
    }
  }

  /** Every kept line has no whitespace at either end. */
  lemma FilteredLinesStripped(lines: seq<string>, x: string)
    requires x in FilteredLines(lines)
    ensures Stripped(x)
  {
    MapFilterKept(lines, Strip, IsMetadataLine, x);
  }

  /** Lines that differ only in their surrounding whitespace filter alike. */
  lemma FilteredLinesIgnoreIndentation(a: seq<string>, b: seq<string>)
    requires |a| == |b|
    requires forall i :: 0 <= i < |a| ==> Strip(a[i]) == Strip(b[i])
    ensures FilteredLines(a) == FilteredLines(b)
  {
    MapFilterSameNorm(a, b, Strip, IsMetadataLine);
  }

  /** A metadata line anywhere in the document makes no difference. */
  lemma FilteredLinesIgnoreMetadata(a: seq<string>, m: string, b: seq<string>)
    requires IsMetadataLine(Strip(m))
    ensures FilteredLines(a + [m] + b) == FilteredLines(a + b)
  {
    MapFilterSingle(m, Strip, IsMetadataLine);
    MapFilterAppend(a + [m], b, Strip, IsMetadataLine);
    MapFilterAppend(a, [m], Strip, IsMetadataLine);
    MapFilterAppend(a, b, Strip, IsMetadataLine);
  }

  /** Whitespace around the whole text makes no difference. */
  lemma MatchesIgnoringSurroundingWhitespace(w1: string, text: string, w2: string)
    requires IsBlank(w1) && IsBlank(w2)
    ensures ContentMatches(w1 + text + w2, text)
  {
    StripSurrounded(w1, text, w2);
  }

  // ---------------------------------------------------------------------
  // A regenerated document matches the committed one

  /** A line starting with a prefix that begins and ends in non-space characters keeps it when stripped. */
  lemma StripKeepsPrefix(prefix: string, rest: string)
    requires |prefix| > 0 && !IsSpace(prefix[0]) && !IsSpace(prefix[|prefix| - 1])
    ensures StartsWith(Strip(prefix + rest), prefix)
  {
    var s := prefix + rest;
    LStripNoop(s);
    RStripKeeps(s, |prefix| - 1);
  }

  /** The line `create_metadata`'s timestamp entry becomes is a metadata line, whatever the timestamp. */
  lemma TimestampLineDropped(value: string)
    ensures IsMetadataLine(Strip(MetadataLine(("last_generated_utc", value))))
  {
    var prefix := "- last_generated_utc:";
    assert MetadataLine(("last_generated_utc", value)) == prefix + (" " + value);
    StripKeepsPrefix(prefix, " " + value);
  }

  /** The line `create_metadata`'s commit entry becomes is a metadata line, whatever the hash. */
  lemma CommitLineDropped(value: string)
    ensures IsMetadataLine(Strip(MetadataLine(("commit_hash", value))))
  {
    var prefix := "- commit_hash:";
    assert MetadataLine(("commit_hash", value)) == prefix + (" " + value);
    StripKeepsPrefix(prefix, " " + value);
  }

  /** Both metadata lines `create_metadata` produces are dropped by the filter. */
  lemma MetadataLinesFiltered(commitHash: string, timestamp: string)
    ensures FilteredLines(MetadataLines(CreateMetadata(commitHash, timestamp))) == []
  {
    var m := MetadataLines(CreateMetadata(commitHash, timestamp));
    assert m == [m[0]] + [m[1]];
    TimestampLineDropped(timestamp + "Z");
    CommitLineDropped(commitHash);
    MapFilterSingle(m[0], Strip, IsMetadataLine);
    MapFilterSingle(m[1], Strip, IsMetadataLine);
    MapFilterAppend([m[0]], [m[1]], Strip, IsMetadataLine);
  }

  /** A metadata entry whose key and value hold no newline makes a one-line entry. */
  lemma MetadataLineNoNewline(item: (string, string))
    requires NoNewline(item.0) && NoNewline(item.1)
    ensures NoNewline(MetadataLine(item))
  {
  }

  lemma MetadataLinesNoNewline(commitHash: string, timestamp: string)
    requires NoNewline(commitHash) && NoNewline(timestamp)
    ensures var m := MetadataLines(CreateMetadata(commitHash, timestamp));
      forall i :: 0 <= i < |m| ==> NoNewline(m[i])
  {
    var md := CreateMetadata(commitHash, timestamp);
    assert NoNewline(timestamp + "Z");
    MetadataLineNoNewline(md[0]);
    MetadataLineNoNewline(md[1]);
  }

  /** The lines before the metadata entries: the TOC block and the Metadata header. */
  function HeadLines(c: AgentsMdContent): seq<string> {
    TocBlock(c) + ["## Metadata"]
  }

  /** The lines after the metadata entries: the blank line closing the section, then the rest. */
  function TailLines(c: AgentsMdContent): seq<string> {
    [""] + FileTypesSection(c) + SkillsetsSection(c) + ApisSection(c)
  }

  /** Regrouping a concatenation around its middle block. */
  lemma Regroup(t: seq<string>, h: string, m: seq<string>, e: string, f: seq<string>, s: seq<string>, a: seq<string>)
    ensures t + ([h] + m + [e]) + f + s + a == (t + [h]) + m + ([e] + f + s + a)
  {
  }

  lemma DocLinesAroundMetadata(c: AgentsMdContent)
    ensures DocLines(c) == HeadLines(c) + MetadataLines(c.metadata) + TailLines(c)
  {
    Regroup(TocBlock(c), "## Metadata", MetadataLines(c.metadata), "",
      FileTypesSection(c), SkillsetsSection(c), ApisSection(c));
  }

  /** The serialised text is the head, the metadata lines and the tail joined at newlines. */
  lemma DocTextAroundMetadata(c: AgentsMdContent)
    requires |c.metadata| == 2
    ensures Join(DocLines(c), "\n")
      == Join(HeadLines(c), "\n") + "\n" + Join(MetadataLines(c.metadata), "\n") + "\n" + Join(TailLines(c), "\n")
  {
    var h := HeadLines(c);
    var m := MetadataLines(c.metadata);
    var t := TailLines(c);
    DocLinesAroundMetadata(c);
    JoinAppend(h + m, t, "\n");
    JoinAppend(h, m, "\n");
  }

  /** The text starts with the TOC header, so stripping only touches the end of the tail. */
  lemma StripDocText(c: AgentsMdContent)
    requires |c.metadata| == 2
    ensures var x := Join(HeadLines(c), "\n") + "\n" + Join(MetadataLines(c.metadata), "\n") + "\n";
      Strip(Join(DocLines(c), "\n")) == x + RStrip(Join(TailLines(c), "\n"))
  {
    var h := HeadLines(c);
    var x := Join(h, "\n") + "\n" + Join(MetadataLines(c.metadata), "\n") + "\n";
    var tail := Join(TailLines(c), "\n");
    var text := Join(DocLines(c), "\n");
    DocTextAroundMetadata(c);
    assert text == x + tail;
    assert Join(h, "\n") == h[0] + "\n" + Join(h[1..], "\n");
    assert text[0] == 'T';
    LStripNoop(text);
    var t := TailLines(c);
    assert tail == t[0] + "\n" + Join(t[1..], "\n");
    assert t[1..][0] == "## File Types";
    assert Join(t[1..], "\n") == t[1..][0] + "\n" + Join(t[1..][1..], "\n");
    assert tail[1] == '#';
    RStripShielded(x, tail, 1);
  }

  /** Lines joined into the middle of a text come back out of `split('\n')` unchanged. */
  lemma {:induction false} LinesAround(a: string, m: seq<string>, b: string)
    requires |m| >= 1 && forall i :: 0 <= i < |m| ==> NoNewline(m[i])
    ensures Lines(a + "\n" + Join(m, "\n") + "\n" + b) == Lines(a) + m + Lines(b)
  {
    var jm := Join(m, "\n");
    assert a + "\n" + jm + "\n" + b == a + ['\n'] + (jm + ['\n'] + b);
    SplitConcat(a, jm + ['\n'] + b, '\n');
    SplitConcat(jm, b, '\n');
    JoinNoNewline(m);
  }

  /** Filtering the lines of a document drops its metadata lines and nothing else around them. */
  lemma {:induction false} FilteredAround(a: seq<string>, m: seq<string>, b: seq<string>)
    requires FilteredLines(m) == []
    ensures FilteredLines(a + m + b) == FilteredLines(a) + FilteredLines(b)
  {
    FilteredLinesAppend(a + m, b);
    FilteredLinesAppend(a, m);
  }

  /** What `verify` compares for a document whose metadata is the pair `create_metadata` makes. */
  lemma FilteredDocument(c: AgentsMdContent, commitHash: string, timestamp: string)
    requires c.metadata == CreateMetadata(commitHash, timestamp)
    requires NoNewline(commitHash) && NoNewline(timestamp)
    ensures FilteredLines(Lines(Strip(Join(DocLines(c), "\n"))))
      == FilteredLines(Lines(Join(HeadLines(c), "\n"))) + FilteredLines(Lines(RStrip(Join(TailLines(c), "\n"))))
  {
    var a := Join(HeadLines(c), "\n");
    var m := MetadataLines(c.metadata);
    var b := RStrip(Join(TailLines(c), "\n"));
    StripDocText(c);
    MetadataLinesNoNewline(commitHash, timestamp);
    LinesAround(a, m, b);
    MetadataLinesFiltered(commitHash, timestamp);
    FilteredAround(Lines(a), m, Lines(b));
  }

  /**
   * A document regenerated from the same analysis at another time or commit
   * matches the committed one: only the two metadata values differ, and
   * those lines are ignored.
   */
  lemma RegeneratedDocumentMatches(c: AgentsMdContent, hash1: string, time1: string, hash2: string, time2: string)
    requires c.metadata == CreateMetadata(hash1, time1)
    requires NoNewline(hash1) && NoNewline(time1) && NoNewline(hash2) && NoNewline(time2)
    ensures ContentMatches(
      Join(DocLines(c), "\n"),
      Join(DocLines(c.(metadata := CreateMetadata(hash2, time2))), "\n"))
  {
    var c2 := c.(metadata := CreateMetadata(hash2, time2));
    FilteredDocument(c, hash1, time1);
    FilteredDocument(c2, hash2, time2);
    assert HeadLines(c2) == HeadLines(c) && TailLines(c2) == TailLines(c);
  }

  // ---------------------------------------------------------------------
  // generate: which directories get a new agents.md

  /** A directory the walk yields, and whether it already holds an agents.md. */
  datatype GenerateTarget = GenerateTarget(directory: string, agentsFileExists: bool)

  predicate ShouldWrite(t: GenerateTarget, force: bool) {
    !t.agentsFileExists || force
  }

  /** The directories written, in walk order. */
  function Written(targets: seq<GenerateTarget>, force: bool): (r: seq<string>)
    ensures |r| <= |targets|
  {
    if targets == [] then []
    else
      var t := targets[|targets| - 1];
      Written(targets[..|targets| - 1], force) + (if ShouldWrite(t, force) then [t.directory] else [])
  }

  /** The loop of `generate`: skip a directory whose agents.md exists unless forced, count the rest. */
  method Generate(targets: seq<GenerateTarget>, force: bool) returns (written: seq<string>, processed: int)
    ensures written == Written(targets, force)
    ensures processed == |written|
  {
    written := [];
    processed := 0;
    for i := 0 to |targets|
      invariant written == Written(targets[..i], force)
      invariant processed == |written|
    {
      assert targets[..i + 1][..i] == targets[..i];
      var t := targets[i];
      if t.agentsFileExists && !force {
        continue;
      }
      written := written + [t.directory];
      processed := processed + 1;
    }
    assert targets[..|targets|] == targets;
  }

  /** A directory is written exactly when one of its visits finds no agents.md or the run is forced. */
  lemma {:induction false} WrittenMembers(targets: seq<GenerateTarget>, force: bool, d: string)
    ensures d in Written(targets, force) <==>
      exists i :: 0 <= i < |targets| && targets[i].directory == d && ShouldWrite(targets[i], force)
  {
    if targets != [] {
      var init := targets[..|targets| - 1];
      WrittenMembers(init, force, d);
      if d in Written(init, force) {
        var i :| 0 <= i < |init| && init[i].directory == d && ShouldWrite(init[i], force);
        assert targets[i] == init[i];
      }
      if exists i :: 0 <= i < |targets| && targets[i].directory == d && ShouldWrite(targets[i], force) {
        var i :| 0 <= i < |targets| && targets[i].directory == d && ShouldWrite(targets[i], force);
        if i < |init| {
          assert init[i] == targets[i];
        }
      }
    }
  }

  /** Without `--force`, a directory visited once whose agents.md exists is left alone. */
  lemma ExistingFileUntouched(targets: seq<GenerateTarget>, i: int)
    requires 0 <= i < |targets| && targets[i].agentsFileExists
    requires forall j :: 0 <= j < |targets| && j != i ==> targets[j].directory != targets[i].directory
    ensures targets[i].directory !in Written(targets, false)
  {
    WrittenMembers(targets, false, targets[i].directory);
  }

  // ---------------------------------------------------------------------
  // verify: which agents.md files are out of sync

  /** What reading a directory's agents.md gives. */
  datatype AgentsFile = Missing | Unreadable | Present(text: string)

  /** A directory's agents.md path, its state on disk, and the markdown generated for it now. */
  datatype VerifyTarget = VerifyTarget(agentsFile: string, file: AgentsFile, expected: string)

  predicate InSync(t: VerifyTarget) {
    t.file.Present? && ContentMatches(t.file.text, t.expected)
  }

  /** The paths of the targets that fail `ok`, in walk order. */
  function Reported(targets: seq<VerifyTarget>, ok: VerifyTarget -> bool): (r: seq<string>)
    ensures |r| <= |targets|
  {
    if targets == [] then []
    else
      var t := targets[|targets| - 1];
      Reported(targets[..|targets| - 1], ok) + (if ok(t) then [] else [t.agentsFile])
  }

  /** The paths reported out of sync, in walk order. */
  function OutOfSync(targets: seq<VerifyTarget>): (r: seq<string>)
    ensures |r| <= |targets|
  {
    Reported(targets, InSync)
  }

  /** The number of directories whose agents.md could be read and compared. */
  function CheckedCount(targets: seq<VerifyTarget>): (r: nat)
    ensures r <= |targets|
  {
    if targets == [] then 0
    else CheckedCount(targets[..|targets| - 1]) + (if targets[|targets| - 1].file.Present? then 1 else 0)
  }

  /** One more target adds its path when it is not in sync, and one to the count when it was read. */
  lemma VerifyStep(targets: seq<VerifyTarget>, i: int)
    requires 0 <= i < |targets|
    ensures OutOfSync(targets[..i + 1])
      == OutOfSync(targets[..i]) + (if InSync(targets[i]) then [] else [targets[i].agentsFile])
    ensures CheckedCount(targets[..i + 1])
      == CheckedCount(targets[..i]) + (if targets[i].file.Present? then 1 else 0)
  {
    assert targets[..i + 1][..i] == targets[..i];
  }

  /** The loop of `verify` and its exit status: 1 when anything is out of sync, 0 otherwise. */
  method Verify(targets: seq<VerifyTarget>) returns (outOfSync: seq<string>, checked: int, exitCode: int)
    ensures outOfSync == OutOfSync(targets)
    ensures checked == CheckedCount(targets)
    ensures exitCode == (if outOfSync == [] then 0 else 1)
  {
    outOfSync := [];
    checked := 0;
    for i := 0 to |targets|
      invariant outOfSync == OutOfSync(targets[..i])
      invariant checked == CheckedCount(targets[..i])
    {
      var t := targets[i];
      VerifyStep(targets, i);
      match t.file {
        case Missing =>
          outOfSync := outOfSync + [t.agentsFile];
        case Unreadable =>
          outOfSync := outOfSync + [t.agentsFile];
        case Present(actual) =>
          if !ContentMatches(actual, t.expected) {
            outOfSync := outOfSync + [t.agentsFile];
          }
          checked := checked + 1;
      }
    }
    assert targets[..|targets|] == targets;
    exitCode := if outOfSync == [] then 0 else 1;
  }

  /** Something is reported exactly when some target fails `ok`. */
  lemma {:induction false} ReportedNonEmpty(targets: seq<VerifyTarget>, ok: VerifyTarget -> bool)
    ensures Reported(targets, ok) != [] <==> exists i :: 0 <= i < |targets| && !ok(targets[i])
  {
    if targets != [] {
      var init := targets[..|targets| - 1];
      ReportedNonEmpty(init, ok);
      if exists i :: 0 <= i < |init| && !ok(init[i]) {
        var i :| 0 <= i < |init| && !ok(init[i]);
        assert targets[i] == init[i];
      }
      if exists i :: 0 <= i < |targets| && !ok(targets[i]) {
        var i :| 0 <= i < |targets| && !ok(targets[i]);
        if i < |init| {
          assert init[i] == targets[i];
        }
      }
    }
  }

  /** A target that fails `ok` is reported. */
  lemma {:induction false} ReportedIncludes(targets: seq<VerifyTarget>, ok: VerifyTarget -> bool, i: int)
    requires 0 <= i < |targets| && !ok(targets[i])
    ensures targets[i].agentsFile in Reported(targets, ok)
  {
    if i < |targets| - 1 {
      var init := targets[..|targets| - 1];
      assert init[i] == targets[i];
      ReportedIncludes(init, ok, i);
    }
  }

  /** Verification fails exactly when some directory's agents.md is missing, unreadable or stale. */
  lemma VerifyFailsIffSomeOutOfSync(targets: seq<VerifyTarget>)
    ensures OutOfSync(targets) != [] <==> exists i :: 0 <= i < |targets| && !InSync(targets[i])
  {
    ReportedNonEmpty(targets, InSync);
  }

  /** A missing agents.md is always reported. */
  lemma MissingIsReported(targets: seq<VerifyTarget>, i: int)
    requires 0 <= i < |targets| && targets[i].file.Missing?
    ensures targets[i].agentsFile in OutOfSync(targets)
  {
    ReportedIncludes(targets, InSync, i);
  }
}
