/**
 * The framework detection both language parsers share: a table of framework
 * names, each with a list of regular expressions, is searched in order; a
 * framework joins the skillsets as soon as one of its patterns matches, and
 * the result is `sorted(set)` of those names and the parser's base skillsets.
 *
 * The regular-expression engine is the abstract predicate `search(pattern, text)`.
 */
module FrameworkDetection {
  import opened Order

  /** Some pattern of the list matches the text. */
  predicate AnyMatch(patterns: seq<string>, text: string, search: (string, string) -> bool) {
    exists i :: 0 <= i < |patterns| && search(patterns[i], text)
  }

  /** The frameworks, in table order, with a pattern that matches the text. */
  function Detected(frameworks: seq<(string, seq<string>)>, text: string,
                    search: (string, string) -> bool): (r: seq<string>)
    ensures |r| <= |frameworks|
  {
    if frameworks == [] then []
    else
      var last := frameworks[|frameworks| - 1];
      Detected(frameworks[..|frameworks| - 1], text, search) + (if AnyMatch(last.1, text, search) then [last.0] else [])
  }

  /** The table lists framework `x` with a pattern that matches the text. */
  predicate Uses(frameworks: seq<(string, seq<string>)>, x: string, text: string, search: (string, string) -> bool) {
    exists i :: 0 <= i < |frameworks| && frameworks[i].0 == x && AnyMatch(frameworks[i].1, text, search)
  }

  /**
   * The loop of `_identify_skillsets`: starting from the base skillsets
   * `seed`, every framework is added on the first of its patterns that
   * matches (the inner loop then breaks), and the set is returned sorted.
   */
  method CollectSkillsets(seed: seq<string>, frameworks: seq<(string, seq<string>)>, text: string,
                          search: (string, string) -> bool) returns (skillsets: seq<string>)
    ensures skillsets == SortedSet(seed + Detected(frameworks, text, search))
  {
    var found := seed;
    for i := 0 to |frameworks|
      invariant found == seed + Detected(frameworks[..i], text, search)
    {
      var framework := frameworks[i].0;
      var patterns := frameworks[i].1;
      assert frameworks[..i + 1][..i] == frameworks[..i];
      var j := 0;
      while j < |patterns|
        invariant 0 <= j <= |patterns|
        invariant forall k :: 0 <= k < j ==> !search(patterns[k], text)
        invariant found == seed + Detected(frameworks[..i], text, search)
      {
        if search(patterns[j], text) {
          found := found + [framework];
          break;
        }
        j := j + 1;
      }
    }
    assert frameworks[..|frameworks|] == frameworks;
    skillsets := SortedSet(found);
  }

  /** A framework is detected exactly when one of its patterns matches. */
  lemma {:induction false} DetectedMembers(frameworks: seq<(string, seq<string>)>, text: string,
                                           search: (string, string) -> bool, x: string)
    ensures x in Detected(frameworks, text, search) <==> Uses(frameworks, x, text, search)
  {
    if frameworks != [] {
      var init := frameworks[..|frameworks| - 1];
      DetectedMembers(init, text, search, x);
      if x in Detected(frameworks, text, search) && x !in Detected(init, text, search) {
        assert frameworks[|frameworks| - 1].0 == x;
      }
      if Uses(frameworks, x, text, search) {
        var i :| 0 <= i < |frameworks| && frameworks[i].0 == x && AnyMatch(frameworks[i].1, text, search);
        if i < |init| {
          assert init[i] == frameworks[i];
        }
      }
    }
  }

  /** The collected skillsets are the base skillsets and exactly the frameworks with a matching pattern. */
  lemma CollectedMembers(seed: seq<string>, frameworks: seq<(string, seq<string>)>, text: string,
                         search: (string, string) -> bool, x: string)
    ensures x in SortedSet(seed + Detected(frameworks, text, search)) <==> x in seed || Uses(frameworks, x, text, search)
  {
    DetectedMembers(frameworks, text, search, x);
  }
}
