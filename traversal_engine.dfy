/**
 * The directory walk of the `generate` and `verify` commands: a depth-first,
 * pre-order walk from the root that skips version-control, cache, build and
 * hidden directories, visits the entries of each directory in sorted order,
 * and yields every directory that directly holds a source file.
 *
 * The filesystem is a tree of entries given as a value; a directory whose
 * listing fails (`PermissionError`/`OSError`) is marked unreadable.  A path
 * is the sequence of names from the root, the root's own name included.
 */
module TraversalEngine {
  import opened Text
  import opened Order

  datatype Entry =
    | File(name: string)
    | Dir(name: string, readable: bool, children: seq<Entry>)

  /** A directory never holds two entries of the same name, at any depth. */
  predicate WellFormed(e: Entry) {
    e.Dir? ==>
      && (forall i, j :: 0 <= i < j < |e.children| ==> e.children[i].name != e.children[j].name)
      && (forall c :: c in e.children ==> WellFormed(c))
  }

  // ---------------------------------------------------------------------
  // Skip and source-file rules

  /** The fixed set of directory names the walk never enters. */
  const SkipNames: seq<string> := [
    ".git", ".hg", ".svn", "__pycache__", ".pytest_cache", "node_modules",
    ".venv", "venv", "env", "dist", "build", ".idea", ".vscode", ".DS_Store"
  ]

  /** `should_skip_directory` */
  predicate ShouldSkip(name: string) {
    InList(name, SkipNames) || StartsWith(name, ".")
  }

  /** The suffixes, compared after lower-casing, that make a file a source file. */
  const SourceExtensions: seq<string> := [
    ".py", ".js", ".ts", ".jsx", ".tsx", ".java", ".kt", ".scala",
    ".c", ".cpp", ".cc", ".cxx", ".h", ".hpp", ".rs", ".go", ".rb", ".php",
    ".cs", ".swift", ".m", ".mm", ".r", ".R", ".sql", ".sh", ".bash", ".ps1",
    ".yaml", ".yml", ".json", ".toml", ".ini", ".cfg", ".md", ".rst"
  ]

  /** `_is_source_file`: the lower-cased suffix is a source extension. */
  predicate IsSourceFile(name: string) {
    InList(Lower(Suffix(name)), SourceExtensions)
  }

  predicate IsSourceEntry(e: Entry) {
    e.File? && IsSourceFile(e.name)
  }

  /** `_has_source_files`: some entry listed directly in the directory is a source file. */
  predicate HasSourceFiles(d: Entry) {
    d.Dir? && d.readable && exists i :: 0 <= i < |d.children| && IsSourceEntry(d.children[i])
  }

  /** The scan of `_has_source_files`, which stops at the first source file. */
  method HasSourceFilesScan(d: Entry) returns (found: bool)
    requires d.Dir?
    ensures found == HasSourceFiles(d)
  {
    if !d.readable {
      return false;
    }
    for i := 0 to |d.children|
      invariant forall k :: 0 <= k < i ==> !IsSourceEntry(d.children[k])
    {
      var item := d.children[i];
      if item.File? && IsSourceFile(item.name) {
        return true;
      }
    }
    return false;
  }

  // ---------------------------------------------------------------------
  // Sorted listing

  /** Entries of one directory compare as their names do. */
  predicate EntryLe(a: Entry, b: Entry) {
    StrLe(a.name, b.name)
  }

  lemma EntryLeIsTotalPreorder()
    ensures TotalPreorder(EntryLe)
  {
    forall a, b ensures EntryLe(a, b) || EntryLe(b, a) { StrLeTotal(a.name, b.name); }
    forall a, b, c | EntryLe(a, b) && EntryLe(b, c) ensures EntryLe(a, c) { StrLeTrans(a.name, b.name, c.name); }
  }

  /** `sorted(directory.iterdir())` */
  function Listing(d: Entry): (r: seq<Entry>)
    requires d.Dir?
    ensures multiset(r) == multiset(d.children) && |r| == |d.children|
    ensures forall k :: 0 <= k < |r| ==> r[k] in d.children
  {
    var r := SortBy(d.children, EntryLe);
    assert forall k :: 0 <= k < |r| ==> r[k] in multiset(d.children);
    r
  }

  /** In a well-formed directory the listing is strictly increasing by name. */
  lemma ListingStrict(d: Entry)
    requires d.Dir? && WellFormed(d)
    ensures forall i, j :: 0 <= i < j < |Listing(d)| ==> StrLt(Listing(d)[i].name, Listing(d)[j].name)
  {
    EntryLeIsTotalPreorder();
    var cs := d.children;
    forall i, j | 0 <= i < j < |cs| ensures !(EntryLe(cs[i], cs[j]) && EntryLe(cs[j], cs[i])) {
      if EntryLe(cs[i], cs[j]) && EntryLe(cs[j], cs[i]) {
        StrLeAntisym(cs[i].name, cs[j].name);
      }
    }
    SortByStrict(cs, EntryLe);
  }

  // ---------------------------------------------------------------------
  // The walk

  /**
   * The walk of `_traverse` with its two rules as parameters: nothing for a
   * file or a directory whose name `skip` picks; otherwise the directory
   * itself when `keep` holds of it, then the walks of its entries in sorted
   * order (none when the listing fails).
   */
  function Walk(e: Entry, parent: seq<string>, skip: string -> bool, keep: Entry -> bool): seq<seq<string>>
    decreases e, 1, 0
  {
    if !e.Dir? || skip(e.name) then []
    else
      var path := parent + [e.name];
      (if keep(e) then [path] else [])
      + (if e.readable then Subwalks(e, path, |e.children|, skip, keep) else [])
  }

  /** The walks of the first `n` entries of the sorted listing of `d`, one after the other. */
  function Subwalks(d: Entry, path: seq<string>, n: nat, skip: string -> bool, keep: Entry -> bool): seq<seq<string>>
    requires d.Dir? && n <= |d.children|
    decreases d, 0, n
  {
    if n == 0 then []
    else Subwalks(d, path, n - 1, skip, keep) + Walk(Listing(d)[n - 1], path, skip, keep)
  }

  /** `_traverse`: the walk that skips `should_skip_directory` and keep directories holding a source file. */
  function Traverse(e: Entry, parent: seq<string>): seq<seq<string>> {
    Walk(e, parent, ShouldSkip, HasSourceFiles)
  }

  /** `get_directories_to_process` */
  function DirectoriesToProcess(root: Entry): seq<seq<string>> {
    Traverse(root, [])
  }

  /**
   * `d` sits at path `p` below `e`, whose parent is at `parent`, and is
   * reached through directories none of which `skip` picks and all of which
   * but `d` could be listed.
   */
  ghost predicate Reachable(e: Entry, parent: seq<string>, p: seq<string>, d: Entry, skip: string -> bool) {
    && e.Dir? && !skip(e.name)
    && ((p == parent + [e.name] && d == e)
        || (e.readable && exists c :: c in e.children && Reachable(c, parent + [e.name], p, d, skip)))
  }

  /** `p` extends `parent` by a path starting at `name`, and `skip` picks no name on it from there on. */
  predicate Below(p: seq<string>, parent: seq<string>, name: string, skip: string -> bool) {
    && |p| > |parent| && p[..|parent|] == parent && p[|parent|] == name
    && forall k :: |parent| <= k < |p| ==> !skip(p[k])
  }

  /** Path order: a proper prefix comes first, otherwise the first differing name decides. */
  predicate PathLt(p: seq<string>, q: seq<string>) {
    || (|p| < |q| && q[..|p|] == p)
    || exists k :: 0 <= k < |p| && k < |q| && p[..k] == q[..k] && StrLt(p[k], q[k])
  }

  lemma {:induction false} ReachableBelow(e: Entry, parent: seq<string>, p: seq<string>, d: Entry, skip: string -> bool)
    requires Reachable(e, parent, p, d, skip)
    ensures Below(p, parent, e.name, skip)
    ensures d.Dir? && p[|p| - 1] == d.name
  {
    var path := parent + [e.name];
    if !(p == path && d == e) {
      var c :| c in e.children && Reachable(c, path, p, d, skip);
      ReachableBelow(c, path, p, d, skip);
      assert p[..|parent|] == p[..|path|][..|parent|];
    }
  }

  /** A path in the walks of the entries comes from the walk of one of them. */
  lemma {:induction false} SubwalksFrom(d: Entry, path: seq<string>, n: nat, skip: string -> bool, keep: Entry -> bool, p: seq<string>)
    requires d.Dir? && n <= |d.children|
    requires p in Subwalks(d, path, n, skip, keep)
    ensures exists k :: 0 <= k < n && p in Walk(Listing(d)[k], path, skip, keep)
  {
    var last := Walk(Listing(d)[n - 1], path, skip, keep);
    var init := Subwalks(d, path, n - 1, skip, keep);
    assert Subwalks(d, path, n, skip, keep) == init + last;
    if p in init {
      SubwalksFrom(d, path, n - 1, skip, keep, p);
    } else {
      assert p in last;
    }
  }

  /** Everything the walk of one entry yields is in the walks of the entries. */
  lemma {:induction false} SubwalksInclude(d: Entry, path: seq<string>, n: nat, skip: string -> bool, keep: Entry -> bool, k: nat, p: seq<string>)
    requires d.Dir? && k < n <= |d.children|
    requires p in Walk(Listing(d)[k], path, skip, keep)
    ensures p in Subwalks(d, path, n, skip, keep)
  {
    var last := Walk(Listing(d)[n - 1], path, skip, keep);
    var init := Subwalks(d, path, n - 1, skip, keep);
    assert Subwalks(d, path, n, skip, keep) == init + last;
    if k < n - 1 {
      SubwalksInclude(d, path, n - 1, skip, keep, k, p);
    }
  }

  lemma {:induction false} WalkSound(e: Entry, parent: seq<string>, skip: string -> bool, keep: Entry -> bool, p: seq<string>)
    requires p in Walk(e, parent, skip, keep)
    ensures exists d :: Reachable(e, parent, p, d, skip) && keep(d)
  {
    var path := parent + [e.name];
    if !(keep(e) && p == path) {
      SubwalksFrom(e, path, |e.children|, skip, keep, p);
      var k :| 0 <= k < |e.children| && p in Walk(Listing(e)[k], path, skip, keep);
      var c := Listing(e)[k];
      WalkSound(c, path, skip, keep, p);
      var d :| Reachable(c, path, p, d, skip) && keep(d);
      assert Reachable(e, parent, p, d, skip);
    }
  }

  lemma {:induction false} WalkComplete(e: Entry, parent: seq<string>, skip: string -> bool, keep: Entry -> bool, p: seq<string>, d: Entry)
    requires Reachable(e, parent, p, d, skip) && keep(d)
    ensures p in Walk(e, parent, skip, keep)
  {
    var path := parent + [e.name];
    if !(p == path && d == e) {
      var c :| c in e.children && Reachable(c, path, p, d, skip);
      WalkComplete(c, path, skip, keep, p, d);
      assert c in multiset(Listing(e));
      var k :| 0 <= k < |Listing(e)| && Listing(e)[k] == c;
      SubwalksInclude(e, path, |e.children|, skip, keep, k, p);
    }
  }

  lemma WalkBelow(e: Entry, parent: seq<string>, skip: string -> bool, keep: Entry -> bool, p: seq<string>)
    requires p in Walk(e, parent, skip, keep)
    ensures Below(p, parent, e.name, skip)
  {
    WalkSound(e, parent, skip, keep, p);
    var d :| Reachable(e, parent, p, d, skip) && keep(d);
    ReachableBelow(e, parent, p, d, skip);
  }

  lemma {:induction false} WalkOrdered(e: Entry, parent: seq<string>, skip: string -> bool, keep: Entry -> bool)
    requires WellFormed(e)
    ensures Sorted(Walk(e, parent, skip, keep), PathLt)
    decreases e, 1, 0
  {
    if e.Dir? && !skip(e.name) {
      var path := parent + [e.name];
      var head := if keep(e) then [path] else [];
      var rest := if e.readable then Subwalks(e, path, |e.children|, skip, keep) else [];
      if e.readable {
        SubwalksOrdered(e, path, |e.children|, skip, keep);
      }
      forall i, j | 0 <= i < |head| && 0 <= j < |rest| ensures PathLt(head[i], rest[j]) {
        SubwalksFrom(e, path, |e.children|, skip, keep, rest[j]);
        var k :| 0 <= k < |e.children| && rest[j] in Walk(Listing(e)[k], path, skip, keep);
        WalkBelow(Listing(e)[k], path, skip, keep, rest[j]);
      }
      SortedConcat(head, rest, PathLt);
    }
  }

  /** What the walks of earlier entries yield comes before what the walk of a later entry yields. */
  lemma EarlierSubwalkFirst(d: Entry, path: seq<string>, n: nat, skip: string -> bool, keep: Entry -> bool, x: seq<string>, y: seq<string>)
    requires d.Dir? && 0 < n <= |d.children| && WellFormed(d)
    requires x in Subwalks(d, path, n - 1, skip, keep) && y in Walk(Listing(d)[n - 1], path, skip, keep)
    ensures PathLt(x, y)
  {
    ListingStrict(d);
    SubwalksFrom(d, path, n - 1, skip, keep, x);
    var k :| 0 <= k < n - 1 && x in Walk(Listing(d)[k], path, skip, keep);
    WalkBelow(Listing(d)[k], path, skip, keep, x);
    WalkBelow(Listing(d)[n - 1], path, skip, keep, y);
    assert x[..|path|] == y[..|path|];
    assert StrLt(x[|path|], y[|path|]);
  }

  lemma {:induction false} SubwalksOrdered(d: Entry, path: seq<string>, n: nat, skip: string -> bool, keep: Entry -> bool)
    requires d.Dir? && n <= |d.children| && WellFormed(d)
    ensures Sorted(Subwalks(d, path, n, skip, keep), PathLt)
    decreases d, 0, n
  {
    if n > 0 {
      var xs := Subwalks(d, path, n - 1, skip, keep);
      var c := Listing(d)[n - 1];
      var ys := Walk(c, path, skip, keep);
      SubwalksOrdered(d, path, n - 1, skip, keep);
      WalkOrdered(c, path, skip, keep);
      forall i, j | 0 <= i < |xs| && 0 <= j < |ys| ensures PathLt(xs[i], ys[j]) {
        EarlierSubwalkFirst(d, path, n, skip, keep, xs[i], ys[j]);
      }
      SortedConcat(xs, ys, PathLt);
    }
  }

  /** The walk keep exactly the reachable directories that directly hold a source file. */
  lemma TraverseYields(e: Entry, parent: seq<string>, p: seq<string>)
    ensures p in Traverse(e, parent) <==>
      exists d :: Reachable(e, parent, p, d, ShouldSkip) && HasSourceFiles(d)
  {
    if p in Traverse(e, parent) {
      WalkSound(e, parent, ShouldSkip, HasSourceFiles, p);
    }
    if exists d :: Reachable(e, parent, p, d, ShouldSkip) && HasSourceFiles(d) {
      var d :| Reachable(e, parent, p, d, ShouldSkip) && HasSourceFiles(d);
      WalkComplete(e, parent, ShouldSkip, HasSourceFiles, p, d);
    }
  }

  /** A directory with a skipped name, and everything below it, is never yielded. */
  lemma SkippedNeverYielded(e: Entry, parent: seq<string>, p: seq<string>, k: int)
    requires |parent| <= k < |p| && ShouldSkip(p[k])
    ensures p !in Traverse(e, parent)
  {
    if p in Traverse(e, parent) {
      WalkBelow(e, parent, ShouldSkip, HasSourceFiles, p);
    }
  }

  /** The walk of a well-formed tree is strictly increasing in path order. */
  lemma TraverseOrdered(e: Entry, parent: seq<string>)
    requires WellFormed(e)
    ensures Sorted(Traverse(e, parent), PathLt)
  {
    WalkOrdered(e, parent, ShouldSkip, HasSourceFiles);
  }

  /** A path never comes after one of its extensions. */
  lemma PrefixNotAfter(p: seq<string>, q: seq<string>)
    requires |p| < |q| && q[..|p|] == p
    ensures !PathLt(q, p)
  {
    forall k | 0 <= k < |p| && p[..k] == q[..k] ensures !StrLt(q[k], p[k]) {
      assert q[k] == p[k];
    }
  }

  /** Each directory is yielded at most once. */
  lemma TraverseUnique(e: Entry, parent: seq<string>)
    requires WellFormed(e)
    ensures var r := Traverse(e, parent);
      forall i, j :: 0 <= i < j < |r| ==> r[i] != r[j]
  {
    TraverseOrdered(e, parent);
  }

  /** Pre-order: a directory is yielded before every directory below it. */
  lemma TraversePreOrder(e: Entry, parent: seq<string>, i: int, j: int)
    requires WellFormed(e)
    requires 0 <= i < |Traverse(e, parent)| && 0 <= j < |Traverse(e, parent)|
    requires var r := Traverse(e, parent);
      |r[i]| < |r[j]| && r[j][..|r[i]|] == r[i]
    ensures i < j
  {
    var r := Traverse(e, parent);
    TraverseOrdered(e, parent);
    PrefixNotAfter(r[i], r[j]);
  }

  // ---------------------------------------------------------------------
  // Source files of one directory

  /** The names among the first `n` entries of `es` that `keep` selects, in order. */
  function KeptNames(es: seq<Entry>, keep: Entry -> bool, n: nat): (r: seq<string>)
    requires n <= |es|
    ensures |r| <= n
  {
    if n == 0 then []
    else KeptNames(es, keep, n - 1) + (if keep(es[n - 1]) then [es[n - 1].name] else [])
  }

  /** What `get_source_files_in_directory` returns, as names. */
  function SourceFiles(d: Entry): seq<string>
    requires d.Dir?
  {
    if d.readable then KeptNames(Listing(d), IsSourceEntry, |d.children|) else []
  }

  /** `get_source_files_in_directory`: the source files of the sorted listing, in that order. */
  method SourceFilesInDirectory(d: Entry) returns (files: seq<string>)
    requires d.Dir?
    ensures files == SourceFiles(d)
  {
    files := [];
    if !d.readable {
      return;
    }
    var listing := Listing(d);
    for i := 0 to |listing|
      invariant files == KeptNames(listing, IsSourceEntry, i)
    {
      var item := listing[i];
      if item.File? && IsSourceFile(item.name) {
        files := files + [item.name];
      }
    }
  }

  lemma {:induction false} KeptNamesMembers(es: seq<Entry>, keep: Entry -> bool, n: nat, x: string)
    requires n <= |es|
    ensures x in KeptNames(es, keep, n) <==> exists k :: 0 <= k < n && keep(es[k]) && es[k].name == x
  {
    if n > 0 {
      KeptNamesMembers(es, keep, n - 1, x);
    }
  }

  /** Keeping some entries of a list strictly increasing by name gives names strictly increasing. */
  lemma {:induction false} KeptNamesStrict(es: seq<Entry>, keep: Entry -> bool, n: nat)
    requires n <= |es|
    requires forall i, j :: 0 <= i < j < |es| ==> StrLt(es[i].name, es[j].name)
    ensures var r := KeptNames(es, keep, n);
      forall i, j :: 0 <= i < j < |r| ==> StrLt(r[i], r[j])
  {
    if n > 0 {
      KeptNamesStrict(es, keep, n - 1);
      var r := KeptNames(es, keep, n - 1);
      forall i | 0 <= i < |r| ensures StrLt(r[i], es[n - 1].name) {
        KeptNamesMembers(es, keep, n - 1, r[i]);
        var k :| 0 <= k < n - 1 && keep(es[k]) && es[k].name == r[i];
        assert StrLt(es[k].name, es[n - 1].name);
      }
    }
  }

  /** A name is returned exactly when the directory can be listed and holds a source file of that name. */
  lemma SourceFilesMembers(d: Entry, x: string)
    requires d.Dir?
    ensures x in SourceFiles(d) <==>
      d.readable && exists i :: 0 <= i < |d.children| && IsSourceEntry(d.children[i]) && d.children[i].name == x
  {
    if d.readable {
      var l := Listing(d);
      KeptNamesMembers(l, IsSourceEntry, |l|, x);
      if exists i :: 0 <= i < |d.children| && IsSourceEntry(d.children[i]) && d.children[i].name == x {
        var i :| 0 <= i < |d.children| && IsSourceEntry(d.children[i]) && d.children[i].name == x;
        assert d.children[i] in multiset(l);
      }
    }
  }

  /** In a well-formed directory the source files come back strictly sorted, so without repeats. */
  lemma SourceFilesSorted(d: Entry)
    requires d.Dir? && WellFormed(d)
    ensures var r := SourceFiles(d);
      forall i, j :: 0 <= i < j < |r| ==> StrLt(r[i], r[j])
  {
    if d.readable {
      ListingStrict(d);
      KeptNamesStrict(Listing(d), IsSourceEntry, |d.children|);
      assert SourceFiles(d) == KeptNames(Listing(d), IsSourceEntry, |d.children|);
    }
  }

  /** `_has_source_files` holds exactly when `get_source_files_in_directory` finds something. */
  lemma HasSourceFilesIffSomeSourceFile(d: Entry)
    requires d.Dir?
    ensures HasSourceFiles(d) <==> SourceFiles(d) != []
  {
    if HasSourceFiles(d) {
      var i :| 0 <= i < |d.children| && IsSourceEntry(d.children[i]);
      SourceFilesMembers(d, d.children[i].name);
    }
    if SourceFiles(d) != [] {
      SourceFilesMembers(d, SourceFiles(d)[0]);
    }
  }
}
