/** Cleaning the files of a finished job (internal/handlers/handler_files.go): the preview and its
    token, the methods that remove the previewed files and then the directories, and the record of what
    is left. What others may do in between is the subject of Removal, and that the handler excludes the
    worker that of JobProtocol. */
module Cleanup {
  import opened Removal
  import opened Sorting
  import opened Wrappers

  const MAX_FILES: nat := 5000

  // ---------------------------------------------------------------- trees

  /** Part of a tree in which only directories are missing. */
  ghost predicate Trimmed(t: Tree, original: Tree) {
    && (forall p :: p in t ==> p in original && t[p] == original[p])
    && (forall p :: p in original && !original[p].Dir? ==> p in t)
  }

  lemma FilesAreRemovable(t: Tree, p: Path)
    requires WellFormed(t) && p in t && !t[p].Dir?
    ensures Removable(t, p)
  {
  }

  // ---------------------------------------------------------------- the preview

  /** The digest of the directory's path and the listing, taken as injective. */
  datatype Token = Token(root: string, files: seq<Retained>)

  datatype Preview = Preview(files: seq<Retained>, totalBytes: nat, token: Token)

  const BY_NAME: (Retained, Retained) -> bool := (a: Retained, b: Retained) => Less(a.name, b.name)

  ghost predicate Ascending(files: seq<Retained>) {
    forall i, j :: 0 <= i < j < |files| ==> Less(files[i].name, files[j].name)
  }

  ghost predicate Lists(files: seq<Retained>, t: Tree) {
    && Ascending(files)
    && (forall r :: r in files ==> Describes(r, t))
    && (forall p :: p in t && t[p].File? ==> Retained(p, t[p].size, t[p].modified) in files)
  }

  function FilesOf(t: Tree): set<Path> {
    set p | p in t && t[p].File?
  }

  ghost predicate Previewable(t: Tree) {
    && (forall p :: p in t ==> t[p].File? || t[p].Dir?)
    && |t| + 1 <= MAX_ENTRIES        // the job directory itself counts
    && |FilesOf(t)| <= MAX_FILES
  }

  /** That is, up to 5000 regular files, and fewer than 10000 paths, none of which is a link or special. */
  lemma PreviewableIs(t: Tree)
    ensures Previewable(t) <==>
      (forall p :: p in t ==> !t[p].Symlink? && !t[p].Special?) && |t| < 10000 && |FilesOf(t)| <= 5000
  {
  }

  lemma ByNameOrders(files: seq<Retained>)
    ensures OrdersOn(files, BY_NAME)
  {
    forall a: Retained, b: Retained
      ensures Less(a.name, b.name) ==> !Less(b.name, a.name)
    {
      LessIsTotal(a.name, b.name);
    }
    forall a: Retained, b: Retained, c: Retained | !Less(b.name, a.name) && !Less(c.name, b.name)
      ensures !Less(c.name, a.name)
    {
      LessIsTotal(a.name, b.name);
      LessIsTotal(b.name, c.name);
      LessIsTotal(a.name, c.name);
      if Less(a.name, b.name) && Less(b.name, c.name) {
        LessIsTransitive(a.name, b.name, c.name);
      }
    }
  }

  lemma DeepestFirstOrders(paths: seq<Path>)
    ensures OrdersOn(paths, DEEPEST_FIRST)
  {
  }

  /** Two ascending lists of the same files are the same list. */
  lemma {:induction false} AscendingIsCanonical(a: seq<Retained>, b: seq<Retained>)
    requires Ascending(a) && Ascending(b)
    requires forall r :: r in a <==> r in b
    ensures a == b
    decreases |a|
  {
    assert a == [] || a[0] in b;
    assert b == [] || b[0] in a;
    if a != [] {
      LessIsTotal(a[0].name, b[0].name);
      assert a[0] == b[0];
      Tails(a, b);
      Tails(b, a);
      AscendingIsCanonical(a[1..], b[1..]);
      assert a == [a[0]] + a[1..] && b == [b[0]] + b[1..];
    }
  }

  lemma Tails(a: seq<Retained>, b: seq<Retained>)
    requires Ascending(a) && a != [] && b != [] && a[0] == b[0]
    requires forall r :: r in a ==> r in b
    ensures forall r :: r in a[1..] ==> r in b[1..]
  {
    forall r | r in a[1..]
      ensures r in b[1..]
    {
      var i :| 0 <= i < |a[1..]| && a[1..][i] == r;
      assert r == a[i + 1] && Less(a[0].name, r.name);
      LessIsTotal(r.name, r.name);
      assert r in b && r != b[0];
    }
  }

  /** The token identifies the files: it changes whenever a name, a size or a time changes, and only then. */
  lemma TokenIdentifiesFiles(root: string, a: seq<Retained>, t: Tree, b: seq<Retained>, u: Tree)
    requires Lists(a, t) && Lists(b, u)
    ensures Token(root, a) == Token(root, b) <==>
            forall p, n: Node :: n.File? ==> (p in t && t[p] == n <==> p in u && u[p] == n)
  {
    if a == b {
      forall p, n: Node | n.File?
        ensures p in t && t[p] == n <==> p in u && u[p] == n
      {
        var r := Retained(p, n.size, n.modified);
        assert (p in t && t[p] == n <==> r in a) && (p in u && u[p] == n <==> r in b);
      }
    } else if forall p, n: Node :: n.File? ==> (p in t && t[p] == n <==> p in u && u[p] == n) {
      forall r: Retained
        ensures r in a <==> r in b
      {
        var n := File(r.size, r.modified);
        assert r in a <==> r.name in t && t[r.name] == n;
        assert r in b <==> r.name in u && u[r.name] == n;
      }
      AscendingIsCanonical(a, b);
    }
  }

  lemma ListingIsUnique(a: seq<Retained>, b: seq<Retained>, t: Tree)
    requires Lists(a, t) && Lists(b, t)
    ensures a == b
  {
    TokenIdentifiesFiles("", a, t, b, t);
    assert Token("", a) == Token("", b);
  }

  /** What the walk has collected when the paths in `left` are still to come. */
  ghost predicate Collected(listed: seq<Retained>, t: Tree, left: set<Path>) {
    && (forall i, j :: 0 <= i < j < |listed| ==> listed[i].name != listed[j].name)
    && (forall r :: r in listed ==> Describes(r, t) && r.name !in left)
    && (forall p :: p in t && p !in left && t[p].File? ==> Retained(p, t[p].size, t[p].modified) in listed)
    && |listed| == |FilesOf(t) - left|
  }

  lemma NothingCollected(t: Tree)
    ensures Collected([], t, t.Keys)
  {
    assert FilesOf(t) - t.Keys == {};
  }

  lemma CollectFile(listed: seq<Retained>, t: Tree, left: set<Path>, p: Path)
    requires Collected(listed, t, left) && p in left && left <= t.Keys && t[p].File?
    ensures Collected(listed + [Retained(p, t[p].size, t[p].modified)], t, left - {p})
    ensures |listed| < |FilesOf(t)|
  {
    var more := listed + [Retained(p, t[p].size, t[p].modified)];
    assert FilesOf(t) - (left - {p}) == FilesOf(t) - left + {p};
    SubsetIsSmaller(FilesOf(t) - (left - {p}), FilesOf(t));
    forall q | q in t && q !in left - {p} && t[q].File?
      ensures Retained(q, t[q].size, t[q].modified) in more
    {
      assert q == p ==> more[|listed|] == Retained(q, t[q].size, t[q].modified);
    }
  }

  lemma CollectOther(listed: seq<Retained>, t: Tree, left: set<Path>, p: Path)
    requires Collected(listed, t, left) && p in left && left <= t.Keys && !t[p].File?
    ensures Collected(listed, t, left - {p})
  {
    assert FilesOf(t) - (left - {p}) == FilesOf(t) - left;
  }

  lemma WalkedAll(listed: seq<Retained>, t: Tree)
    requires Collected(listed, t, {}) && |listed| <= MAX_FILES && |t| + 1 <= MAX_ENTRIES
    requires forall p :: p in t ==> t[p].File? || t[p].Dir?
    ensures Previewable(t)
  {
    assert FilesOf(t) - {} == FilesOf(t);
  }

  lemma Obstructed(t: Tree, p: Path)
    requires p in t
    requires t[p].Symlink? || t[p].Special? || |t| + 1 > MAX_ENTRIES || |FilesOf(t)| > MAX_FILES
    ensures !Previewable(t)
  {
  }

  lemma VisitOne(all: set<Path>, left: set<Path>, p: Path)
    requires p in left && left <= all
    ensures |all - (left - {p})| == |all - left| + 1 <= |all|
  {
    assert all - (left - {p}) == all - left + {p};
    SubsetIsSmaller(all - (left - {p}), all);
  }

  lemma {:induction false} BytesOfConcatenation(a: seq<Retained>, b: seq<Retained>)
    ensures Bytes(a + b) == Bytes(a) + Bytes(b)
    ensures |b| == 1 ==> Bytes(b) == b[0].size
  {
    if b == [] {
      assert a + b == a;
    } else {
      BytesOfConcatenation(a, b[..|b| - 1]);
      assert (a + b)[..|a + b| - 1] == a + b[..|b| - 1];
    }
  }

  lemma BytesWithoutOne(s: seq<Retained>, i: nat)
    requires i < |s|
    ensures Bytes(s) == Bytes(s[..i] + s[i + 1..]) + s[i].size
  {
    hide Bytes;
    assert s == s[..i] + [s[i]] + s[i + 1..];
    BytesOfConcatenation(s[..i], [s[i]]);
    BytesOfConcatenation(s[..i] + [s[i]], s[i + 1..]);
    BytesOfConcatenation(s[..i], s[i + 1..]);
  }

  lemma {:induction false} BytesOfPermutation(a: seq<Retained>, b: seq<Retained>)
    requires multiset(a) == multiset(b)
    ensures Bytes(a) == Bytes(b)
  {
    hide Bytes;
    assert |a| == |multiset(a)| == |multiset(b)| == |b|;
    if a != [] {
      var last := |a| - 1;
      assert a[last] in multiset(a);
      assert a[last] in multiset(b);
      var i :| 0 <= i < |b| && b[i] == a[last];
      WithoutOne(a, last);
      WithoutOne(b, i);
      assert a[..last] + a[last + 1..] == a[..last];
      BytesOfPermutation(a[..last], b[..i] + b[i + 1..]);
      BytesWithoutOne(a, last);
      BytesWithoutOne(b, i);
    }
  }

  lemma WithoutOne(s: seq<Retained>, i: nat)
    requires i < |s|
    ensures multiset(s) - multiset{s[i]} == multiset(s[..i] + s[i + 1..])
  {
    assert s == s[..i] + [s[i]] + s[i + 1..];
  }

  lemma SortedLists(listed: seq<Retained>, t: Tree, sorted: seq<Retained>)
    requires Collected(listed, t, {}) && multiset(sorted) == multiset(listed) && Arranged(sorted, BY_NAME)
    ensures Lists(sorted, t)
  {
    PermutationIsDistinct(listed, sorted);
    forall i, j | 0 <= i < j < |sorted|
      ensures Less(sorted[i].name, sorted[j].name)
    {
      assert sorted[i] in listed && sorted[j] in listed && sorted[i] != sorted[j];
      assert !BY_NAME(sorted[j], sorted[i]);
      LessIsTotal(sorted[i].name, sorted[j].name);
    }
  }

  // ---------------------------------------------------------------- the removal order

  function Elements(order: seq<Path>): set<Path> {
    set p | p in order
  }

  lemma OneMoreElement(order: seq<Path>, k: nat, t: Tree)
    requires k < |order|
    ensures t - Elements(order[..k]) - {order[k]} == t - Elements(order[..k + 1])
  {
    assert order[..k + 1] == order[..k] + [order[k]];
  }

  /** Longer paths first is a removal order: whatever has not been removed before a directory is not
      inside it, in whichever order paths of equal length come. */
  lemma LongestFirstIsRemovalOrder(order: seq<Path>, t: Tree, k: nat)
    requires OrderOf(order, t) && Arranged(order, DEEPEST_FIRST) && k < |order|
    ensures Removable(t - Elements(order[..k]), order[k])
  {
    var left := t - Elements(order[..k]);
    assert order[k] !in order[..k];
    forall q | q in left
      ensures Parent(q) != Some(order[k])
    {
      var m :| 0 <= m < |order| && order[m] == q;
      assert m >= k;
      assert m == k || !DEEPEST_FIRST(order[m], order[k]);
    }
  }

  // ---------------------------------------------------------------- the record

  datatype ResultFile = ResultFile(index: nat, name: string)

  /** filepath.Rel for a clean path inside the root; None also stands for "." and for paths outside. */
  function Relative(root: string, path: string): (r: Option<Path>)
    ensures r.Some? <==> root + "/" <= path
    ensures r.Some? ==> path == root + "/" + r.value
  {
    if root + "/" <= path then Some(path[|root| + 1..]) else None
  }

  predicate Gone(root: string, path: string, removed: set<Path>) {
    Relative(root, path).Some? && Relative(root, path).value in removed
  }

  /** A path below the root is that of a removed file. */
  predicate IsOneOf(path: string, root: string, removed: set<Path>) {
    exists p :: p in removed && path == root + "/" + p
  }

  lemma GoneIsOneOf(root: string, path: string, removed: set<Path>)
    ensures Gone(root, path, removed) <==> IsOneOf(path, root, removed)
  {
    if p :| p in removed && path == root + "/" + p {
      assert path[|root| + 1..] == p;
    }
  }

  lemma CleanedMeans(files: seq<ResultFile>, paths: seq<string>, root: string, removed: set<Path>)
    ensures var paths' := CleanedPaths(paths, root, removed, false);
      |paths'| == |paths| && forall i :: 0 <= i < |paths| ==> paths'[i] == if IsOneOf(paths[i], root, removed) then "" else paths[i]
    ensures forall f :: f in CleanedFiles(files, paths, root, removed, false) <==>
      f in files && !(f.index < |paths| && IsOneOf(paths[f.index], root, removed))
  {
    hide Gone, IsOneOf, Surviving;
    SurvivingFiles(files, RemovedIndexes(paths, root, removed));
    forall path
      ensures Gone(root, path, removed) <==> IsOneOf(path, root, removed)
    {
      GoneIsOneOf(root, path, removed);
    }
  }

  /** The result files in the order they had, without those at a removed index. */
  function Surviving(files: seq<ResultFile>, removedIndexes: set<nat>): seq<ResultFile> {
    if files == [] then []
    else Surviving(files[..|files| - 1], removedIndexes) +
         if files[|files| - 1].index in removedIndexes then [] else [files[|files| - 1]]
  }

  lemma {:induction false} SurvivingFiles(files: seq<ResultFile>, removedIndexes: set<nat>)
    ensures forall f :: f in Surviving(files, removedIndexes) <==> f in files && f.index !in removedIndexes
  {
    if files != [] {
      SurvivingFiles(files[..|files| - 1], removedIndexes);
      assert files == files[..|files| - 1] + [files[|files| - 1]];
    }
  }

  lemma AnotherName(files: seq<Retained>, i: nat)
    requires Ascending(files) && i < |files|
    ensures Names(files[..i + 1]) == Names(files[..i]) + {files[i].name}
    ensures files[i].name !in Names(files[..i])
  {
    assert files[..i + 1] == files[..i] + [files[i]];
    forall r | r in files[..i]
      ensures r.name != files[i].name
    {
      LessIsTotal(r.name, files[i].name);
    }
  }

  lemma StillDescribed(r: Retained, t: Tree, removed: set<Path>)
    requires Describes(r, t) && r.name !in removed
    ensures Describes(r, t - removed)
  {
  }

  lemma OneMore(listed: seq<Path>, t: Tree, left: set<Path>, p: Path)
    requires OrderOf(listed, t - left) && p in left && p in t
    ensures OrderOf(listed + [p], t - (left - {p}))
  {
    assert p !in listed;
    forall q
      ensures q in listed + [p] <==> q in t - (left - {p})
    {
      assert q in listed <==> q in t - left;
    }
  }

  /** The entries stand at increasing places of a list. */
  ghost predicate InOrder(places: seq<nat>, entries: seq<ResultFile>, files: seq<ResultFile>) {
    && |places| == |entries|
    && (forall i :: 0 <= i < |places| ==> places[i] < |files| && files[places[i]] == entries[i])
    && (forall i, j :: 0 <= i < j < |places| ==> places[i] < places[j])
  }

  lemma OneMorePlace(places: seq<nat>, entries: seq<ResultFile>, files: seq<ResultFile>)
    requires files != [] && InOrder(places, entries, files[..|files| - 1])
    ensures InOrder(places, entries, files)
    ensures InOrder(places + [|files| - 1], entries + [files[|files| - 1]], files)
  {
  }

  /** The entries that survive keep their order. */
  lemma {:induction false} SurvivingInOrder(files: seq<ResultFile>, removedIndexes: set<nat>) returns (places: seq<nat>)
    ensures InOrder(places, Surviving(files, removedIndexes), files)
  {
    places := [];
    if files != [] {
      hide InOrder;
      var last := |files| - 1;
      places := SurvivingInOrder(files[..last], removedIndexes);
      OneMorePlace(places, Surviving(files[..last], removedIndexes), files);
      assert Surviving(files[..last], removedIndexes) + [] == Surviving(files[..last], removedIndexes);
      if files[last].index !in removedIndexes {
        places := places + [last];
      }
    }
  }

  lemma NoneSurvive(files: seq<ResultFile>, removedIndexes: set<nat>)
    requires files == []
    ensures Surviving(files, removedIndexes) == []
  {
  }

  lemma OneMoreSurvives(files: seq<ResultFile>, k: nat, removedIndexes: set<nat>)
    requires k < |files|
    ensures Surviving(files[..k + 1], removedIndexes) == Surviving(files[..k], removedIndexes) +
      if files[k].index in removedIndexes then [] else [files[k]]
  {
    assert files[..k + 1] == files[..k] + [files[k]];
  }

  function RemovedIndexes(paths: seq<string>, root: string, removed: set<Path>): set<nat> {
    set i: nat | i < |paths| && Gone(root, paths[i], removed)
  }

  /** The output paths of the record after a cleanup; a removed path is blanked in place. */
  function CleanedPaths(paths: seq<string>, root: string, removed: set<Path>, complete: bool): seq<string> {
    if complete then []
    else seq(|paths|, i requires 0 <= i < |paths| => if Gone(root, paths[i], removed) then "" else paths[i])
  }

  function CleanedFiles(files: seq<ResultFile>, paths: seq<string>, root: string, removed: set<Path>, complete: bool): seq<ResultFile> {
    if complete then [] else Surviving(files, RemovedIndexes(paths, root, removed))
  }

  /** After a partial cleanup exactly the entries whose path was not removed are left, each with the
      index and the path it had. */
  lemma IndexesStayStable(files: seq<ResultFile>, paths: seq<string>, root: string, removed: set<Path>)
    requires forall f :: f in files ==> f.index < |paths|
    ensures var paths' := CleanedPaths(paths, root, removed, false);
            var files' := CleanedFiles(files, paths, root, removed, false);
      && |paths'| == |paths|
      && (forall f :: f in files' <==> f in files && !Gone(root, paths[f.index], removed))
      && (forall f :: f in files' ==> paths'[f.index] == paths[f.index])
      && (forall i :: 0 <= i < |paths'| ==> !Gone(root, paths'[i], removed))
  {
    SurvivingFiles(files, RemovedIndexes(paths, root, removed));
  }

  /** Every result file points at a regular file of the job directory. */
  ghost predicate Backed(files: seq<ResultFile>, paths: seq<string>, root: string, t: Tree) {
    forall f :: f in files ==>
      && f.index < |paths| && Relative(root, paths[f.index]).Some?
      && var p := Relative(root, paths[f.index]).value; p in t && t[p].File?
  }

  /** No cleanup, complete or not, leaves a dangling result file behind. */
  lemma CleanupKeepsBacked(files: seq<ResultFile>, paths: seq<string>, root: string, t: Tree,
                           removed: set<Path>, t': Tree, complete: bool)
    requires Backed(files, paths, root, t) && Trimmed(t', t - removed)
    ensures Backed(CleanedFiles(files, paths, root, removed, complete), CleanedPaths(paths, root, removed, complete), root, t')
  {
    if !complete {
      IndexesStayStable(files, paths, root, removed);
    }
  }

  lemma NothingGone(files: seq<ResultFile>, paths: seq<string>, root: string)
    ensures CleanedPaths(paths, root, {}, false) == paths && CleanedFiles(files, paths, root, {}, false) == files
  {
    assert RemovedIndexes(paths, root, {}) == {};
    AllSurvive(files);
  }

  lemma {:induction false} AllSurvive(files: seq<ResultFile>)
    ensures Surviving(files, {}) == files
  {
    if files != [] {
      AllSurvive(files[..|files| - 1]);
    }
  }

  class Job {
    const root: string
    const others: nat -> Option<Change>     // what other processes do to the job directory at each opportunity
    const reliable: bool      // no file operation fails of its own accord
    var clock: nat            // the opportunities they have had
    var present: bool         // the job directory exists
    var same: bool            // its name still denotes the directory that was opened
    var tree: Tree
    var paths: seq<string>
    var files: seq<ResultFile>

    predicate Valid()
      reads this
    {
      WellFormed(tree) && (!present ==> tree == map[])
    }

    /** Nobody else touches the job directory. */
    ghost predicate Quiet() {
      forall n :: others(n).None?
    }

    ghost function Now(list: seq<Retained>, removed: set<Path>, phase: Phase): State
      reads this
    {
      State(list, tree, present, same, removed, phase)
    }

    constructor (root: string, others: nat -> Option<Change>, reliable: bool, tree: Tree, paths: seq<string>, files: seq<ResultFile>)
      ensures WellFormed(tree) ==> Valid()
      ensures present && same && this.tree == tree && this.paths == paths && this.files == files
      ensures this.root == root && this.others == others && this.reliable == reliable
    {
      this.root, this.others, this.reliable := root, others, reliable;
      this.tree, this.paths, this.files := tree, paths, files;
      clock, present, same := 0, true, true;
    }

    /** What other processes do to the directory between two operations of the cleanup. */
    method Interfere(ghost list: seq<Retained>, ghost removed: set<Path>, ghost phase: Phase, ghost t: Trace)
      returns (ghost more: Trace)
      requires Valid() && Leads(t, Now(list, removed, phase), others, clock)
      modifies this`tree, this`same, this`clock
      ensures Valid() && Extends(more, t) && (reliable && Faultless(t) ==> Faultless(more)) && Leads(more, Now(list, removed, phase), others, clock)
      ensures Quiet() ==> tree == old(tree) && same == old(same)
    {
      hide Leads, Faultless, WellFormed;
      more := TraceOther(t, Now(list, removed, phase), others, clock);
      var change := others(clock);
      if change.Some? && present && WellFormed(change.value.tree) {
        tree, same := change.value.tree, change.value.same;
      }
      clock := clock + 1;
    }

    method Faulty() returns (fault: bool)
      ensures reliable ==> !fault
    {
      fault := *;
      fault := fault && !reliable;
    }

    /** os.Root.Remove. */
    method Remove(p: Path) returns (ok: bool)
      requires Valid()
      modifies this`tree
      ensures Valid()
      ensures ok ==> Removable(old(tree), p) && tree == old(tree) - {p}
      ensures !ok ==> tree == old(tree)
      ensures reliable && Removable(tree, p) ==> ok
    {
      var fault := Faulty();
      ok := !fault && Removable(tree, p);
      if ok {
        RemovalKeepsWellFormed(tree, p);
        tree := tree - {p};
      }
    }

    /** The walk of the preview, which visits the entries in some order. */
    method Walk() returns (ok: bool, listed: seq<Retained>, total: nat)
      ensures ok ==> Previewable(tree) && Collected(listed, tree, {}) && total == Bytes(listed)
      ensures reliable && Previewable(tree) ==> ok
    {
      hide Collected, Previewable;
      NothingCollected(tree);
      var entries, left := 1, tree.Keys;
      ok, listed, total := true, [], 0;
      while left != {} && ok
        invariant left <= tree.Keys && entries == 1 + |tree.Keys - left| && (ok ==> entries <= MAX_ENTRIES)
        invariant ok ==> forall p :: p in tree && p !in left ==> tree[p].File? || tree[p].Dir?
        invariant ok ==> Collected(listed, tree, left) && total == Bytes(listed) && |listed| <= MAX_FILES
        invariant reliable && Previewable(tree) ==> ok
        decreases |left|
      {
        var p :| p in left;
        var fault := Faulty();
        VisitOne(tree.Keys, left, p);
        entries := entries + 1;
        if fault {
          ok := false;
        } else if entries > MAX_ENTRIES || tree[p].Symlink? || tree[p].Special? {
          Obstructed(tree, p);
          ok := false;
        } else if tree[p].File? {
          CollectFile(listed, tree, left, p);
          if |listed| >= MAX_FILES {
            Obstructed(tree, p);
            ok := false;
          }
          listed := listed + [Retained(p, tree[p].size, tree[p].modified)];
          total := total + tree[p].size;
        } else {
          CollectOther(listed, tree, left, p);
        }
        left := left - {p};
      }
      if ok {
        WalkedAll(listed, tree);
      }
    }

    /** previewRetainedFiles. */
    method PreviewRetainedFiles() returns (preview: Option<Preview>)
      requires Valid()
      ensures preview.Some? ==>
        && Previewable(tree) && Lists(preview.value.files, tree)
        && preview.value.token == Token(root, preview.value.files)
        && preview.value.totalBytes == Bytes(preview.value.files)
      ensures reliable && Previewable(tree) ==> preview.Some?
    {
      if !present {
        return Some(Preview([], 0, Token(root, [])));
      }
      var ok, listed, total := Walk();
      if !ok {
        return None;
      }
      ByNameOrders(listed);
      var sorted := Slice(listed, BY_NAME);
      SortedLists(listed, tree, sorted);
      BytesOfPermutation(sorted, listed);
      return Some(Preview(sorted, total, Token(root, sorted)));
    }

    /** What the loop over the previewed files does with one of them. */
    method RemoveListed(list: seq<Retained>, index: nat, ghost removed: set<Path>, ghost t: Trace)
      returns (failure: Option<Reply>, ghost more: Trace)
      requires Valid() && index < |list| && Leads(t, Now(list, removed, Files(index, false)), others, clock)
      modifies this`tree, this`same, this`clock
      ensures Valid() && Extends(more, t) && (reliable && Faultless(t) ==> Faultless(more))
      ensures failure.Some? ==>
        && (failure.value.Changed? || failure.value.Failed?) && Leads(more, Now(list, removed, Over(failure.value)), others, clock)
        && (Quiet() ==> same == old(same) && tree == old(tree))
      ensures failure.None? ==>
        && Leads(more, Now(list, removed + {list[index].name}, Files(index + 1, false)), others, clock)
        && (Quiet() ==> same == old(same) && tree == old(tree) - {list[index].name})
      ensures Quiet() && reliable && Describes(list[index], old(tree)) ==> failure.None?
    {
      hide Leads, Faultless, WellFormed, Removable;
      var file := list[index];
      more := Interfere(list, removed, Files(index, false), t);
      var fault := Faulty();
      var ok := !fault && Describes(file, tree);
      more := TraceCheckFile(more, Now(list, removed, Files(index, false)), others, clock, ok);
      if !ok {
        return Some(Changed), more;
      }
      more := Interfere(list, removed, Files(index, true), more);
      if Quiet() {
        FilesAreRemovable(tree, file.name);
      }
      ghost var before := Now(list, removed, Files(index, true));
      ok := Remove(file.name);
      more := TraceRemoveFile(more, before, others, clock, ok);
      failure := if ok then None else Some(Failed);
    }

    /** The loop over the previewed files. */
    method RemoveFiles(list: seq<Retained>, ghost t: Trace)
      returns (removed: set<Path>, failure: Option<Reply>, ghost more: Trace)
      requires Valid() && Ascending(list) && Leads(t, Now(list, {}, Files(0, false)), others, clock)
      modifies this`tree, this`same, this`clock
      ensures Valid() && Extends(more, t) && (reliable && Faultless(t) ==> Faultless(more))
      ensures Leads(more, Now(list, removed, if failure.Some? then Over(failure.value) else Files(|list|, false)), others, clock)
      ensures removed <= Names(list) && (failure.None? ==> removed == Names(list))
      ensures failure.Some? ==> failure.value.Changed? || failure.value.Failed?
      ensures Quiet() ==> same == old(same) && tree == old(tree) - removed
      ensures Quiet() && reliable && (forall r :: r in list ==> Describes(r, old(tree))) ==> failure.None?
    {
      hide Leads, Faultless, WellFormed;
      removed, failure, more := {}, None, t;
      var index := 0;
      while index < |list|
        invariant index <= |list| && Valid() && removed == Names(list[..index]) && failure.None?
        invariant Extends(more, t) && (reliable && Faultless(t) ==> Faultless(more))
        invariant Leads(more, Now(list, removed, Files(index, false)), others, clock)
        invariant Quiet() ==> same == old(same) && tree == old(tree) - removed
      {
        AnotherName(list, index);
        if Quiet() && Describes(list[index], old(tree)) {
          StillDescribed(list[index], old(tree), removed);
        }
        failure, more := RemoveListed(list, index, removed, more);
        if failure.Some? {
          return;
        }
        removed := removed + {list[index].name};
        index := index + 1;
      }
      assert list[..index] == list;
    }

    /** The second walk: the directories that are left, or None if anything else is. */
    method ListDirectories() returns (directories: Option<seq<Path>>)
      ensures directories.Some? ==> OnlyDirectories(tree) && OrderOf(directories.value, tree)
      ensures reliable && OnlyDirectories(tree) && |tree| <= 10000 ==> directories.Some?
    {
      var listed: seq<Path>, left, ok := [], tree.Keys, true;
      while left != {} && ok
        invariant left <= tree.Keys && |listed| + |left| <= |tree|
        invariant ok ==> forall p :: p in tree && p !in left ==> tree[p].Dir?
        invariant ok ==> OrderOf(listed, tree - left)
        invariant reliable && OnlyDirectories(tree) && |tree| <= MAX_ENTRIES ==> ok
        decreases |left|
      {
        var p :| p in left;
        var fault := Faulty();
        if fault || !tree[p].Dir? || |listed| >= MAX_ENTRIES {
          ok := false;
        } else {
          OneMore(listed, tree, left, p);
          listed := listed + [p];
        }
        left := left - {p};
      }
      assert tree - {} == tree;
      directories := if ok then Some(listed) else None;
    }

    /** The loop over the directories. */
    method RemoveDirectories(order: seq<Path>, ghost list: seq<Retained>, ghost names: set<Path>, ghost t: Trace)
      returns (removed: nat, ok: bool, ghost more: Trace)
      requires Valid() && Arranged(order, DEEPEST_FIRST) && Leads(t, Now(list, names, Directories(order, 0)), others, clock)
      modifies this`tree, this`same, this`clock
      ensures Valid() && removed <= |order| && (ok ==> removed == |order|) && Extends(more, t) && (reliable && Faultless(t) ==> Faultless(more))
      ensures Leads(more, Now(list, names, if ok then Directories(order, |order|) else Over(Failed)), others, clock)
      ensures Quiet() ==> same == old(same) && tree == old(tree) - Elements(order[..removed])
      ensures Quiet() && reliable && OrderOf(order, old(tree)) ==> ok
    {
      hide Leads, Faultless, WellFormed, Removable, Elements, OrderOf, Arranged;
      removed, ok, more := 0, true, t;
      NoElements(old(tree), order);
      while removed < |order|
        invariant removed <= |order| && Valid()
        invariant Extends(more, t) && (reliable && Faultless(t) ==> Faultless(more))
        invariant Leads(more, Now(list, names, Directories(order, removed)), others, clock)
        invariant Quiet() ==> same == old(same) && tree == old(tree) - Elements(order[..removed])
      {
        more := Interfere(list, names, Directories(order, removed), more);
        if Quiet() && OrderOf(order, old(tree)) {
          LongestFirstIsRemovalOrder(order, old(tree), removed);
        }
        ghost var before := Now(list, names, Directories(order, removed));
        ok := Remove(order[removed]);
        more := TraceRemoveDirectory(more, before, others, clock, ok);
        if !ok {
          return;
        }
        OneMoreElement(order, removed, old(tree));
        removed := removed + 1;
      }
      ok := true;
    }

    /** The directories that the second walk finds, deepest first. */
    method SortedDirectories() returns (order: Option<seq<Path>>)
      ensures order.Some? ==>
        OnlyDirectories(tree) && OrderOf(order.value, tree) && Arranged(order.value, DEEPEST_FIRST)
      ensures reliable && OnlyDirectories(tree) && |tree| <= MAX_ENTRIES ==> order.Some?
    {
      hide OrderOf, Arranged;
      var directories := ListDirectories();
      if directories.None? {
        return None;
      }
      DeepestFirstOrders(directories.value);
      var sorted := Slice(directories.value, DEEPEST_FIRST);
      SameOrder(directories.value, sorted, tree);
      return Some(sorted);
    }

    /** The second walk, and the removal of what it has found. */
    method RemoveTree(ghost list: seq<Retained>, ghost names: set<Path>, ghost t: Trace)
      returns (failure: Option<Reply>, ghost more: Trace, ghost order: seq<Path>)
      requires Valid() && present && Leads(t, Now(list, names, Listing), others, clock)
      modifies this`tree, this`same, this`clock
      ensures Valid() && Extends(more, t) && (reliable && Faultless(t) ==> Faultless(more))
      ensures Leads(more, Now(list, names, if failure.Some? then Over(failure.value) else Directories(order, |order|)), others, clock)
      ensures failure.Some? ==> failure.value.Changed? || failure.value.Failed?
      ensures Quiet() ==> same == old(same) && Trimmed(tree, old(tree)) && (failure.None? ==> tree == map[])
      ensures Quiet() && reliable && OnlyDirectories(old(tree)) && |old(tree)| <= MAX_ENTRIES ==> failure.None?
    {
      hide Leads, Faultless, WellFormed, OrderOf, Arranged, Trimmed, Elements, OnlyDirectories;
      NothingTrimmed(tree);
      more := Interfere(list, names, Listing, t);
      var directories := SortedDirectories();
      more := TraceWalk(more, Now(list, names, Listing), others, clock, directories);
      if directories.None? {
        return Some(Changed), more, [];
      }
      order := directories.value;
      ghost var before := tree;
      var count, ok;
      count, ok, more := RemoveDirectories(directories.value, list, names, more);
      if Quiet() {
        ElementsGone(order, count, before);
      }
      failure := if ok then None else Some(Failed);
    }

    /** Everything after the files: the directories and then the job directory. */
    method RemoveFolder(ghost list: seq<Retained>, ghost names: set<Path>, ghost t: Trace)
      returns (failure: Option<Reply>, ghost more: Trace)
      requires Valid() && present && Leads(t, Now(list, names, Listing), others, clock)
      modifies this`tree, this`same, this`present, this`clock
      ensures Valid() && (failure.None? ==> !present && tree == map[]) && Extends(more, t)
      ensures reliable && Faultless(t) ==> Faultless(more)
      ensures Leads(more, Now(list, names, Over(if failure.Some? then failure.value else Removed(|list|, Bytes(list)))), others, clock)
      ensures failure.Some? ==> failure.value.Changed? || failure.value.Failed?
      ensures Quiet() ==> Trimmed(tree, old(tree))
      ensures Quiet() && reliable && old(same) && OnlyDirectories(old(tree)) && |old(tree)| <= MAX_ENTRIES ==> failure.None?
    {
      hide Leads, Faultless, WellFormed, Bytes;
      ghost var order;
      failure, more, order := RemoveTree(list, names, t);
      if failure.Some? {
        return;
      }
      more := Interfere(list, names, Directories(order, |order|), more);
      var fault := Faulty();
      var ok := !fault && same;
      more := TraceCheckFolder(more, Now(list, names, Directories(order, |order|)), others, clock, ok);
      if !ok {
        return Some(Changed), more;
      }
      more := Interfere(list, names, Folder(true), more);
      fault := Faulty();
      ok := !fault && (!same || tree == map[]);
      more := TraceRemoveFolder(more, Now(list, names, Folder(true)), others, clock, ok);
      if !ok {
        return Some(Failed), more;
      }
      EmptyIsWellFormed();
      tree, present := map[], false;
      return None, more;
    }

    /** recordCleanedFiles. */
    method RecordCleanedFiles(removed: set<Path>, complete: bool)
      modifies this`paths, this`files
      ensures paths == CleanedPaths(old(paths), root, removed, complete)
      ensures files == CleanedFiles(old(files), old(paths), root, removed, complete)
      // That is, everything goes after a complete cleanup; otherwise the paths of removed files are blanked.
      ensures complete ==> paths == [] && files == []
      ensures !complete ==> |paths| == |old(paths)| && forall i :: 0 <= i < |paths| ==>
        paths[i] == if IsOneOf(old(paths)[i], root, removed) then "" else old(paths)[i]
      ensures !complete ==> forall f :: f in files <==>
        f in old(files) && !(f.index < |old(paths)| && IsOneOf(old(paths)[f.index], root, removed))
    {
      hide Gone, IsOneOf;
      CleanedMeans(files, paths, root, removed);
      if removed == {} && !complete {
        NothingGone(files, paths, root);
        return;
      }
      if complete {
        paths, files := [], [];
        return;
      }
      var removedIndexes: set<nat> := {};
      var index := 0;
      assert RemovedIndexes(paths[..0], root, removed) == {};
      while index < |paths|
        invariant index <= |paths| == |old(paths)| && files == old(files)
        invariant paths[index..] == old(paths)[index..]
        invariant paths[..index] == CleanedPaths(old(paths), root, removed, false)[..index]
        invariant removedIndexes == RemovedIndexes(old(paths)[..index], root, removed)
      {
        assert paths[index] == old(paths)[index];
        IndexesOneMore(old(paths), root, removed, index);
        if Gone(root, paths[index], removed) {
          paths := paths[index := ""];
          removedIndexes := removedIndexes + {index};
        }
        index := index + 1;
      }
      assert old(paths)[..index] == old(paths);
      assert paths[..index] == paths;
      ghost var cleaned := CleanedPaths(old(paths), root, removed, false);
      assert cleaned[..index] == cleaned && paths == cleaned;
      var remaining: seq<ResultFile> := [];
      var k := 0;
      NoneSurvive(files[..k], removedIndexes);
      while k < |files|
        invariant k <= |files| && files == old(files) && paths == cleaned
        invariant remaining == Surviving(files[..k], removedIndexes)
      {
        OneMoreSurvives(files, k, removedIndexes);
        if files[k].index !in removedIndexes {
          remaining := remaining + [files[k]];
        }
        k := k + 1;
      }
      assert files[..k] == files;
      files := remaining;
    }

    /** What is done to the directory once the listing is known to be the confirmed one. */
    method RemoveAll(preview: Preview) returns (reply: Reply, removed: set<Path>, ghost t: Trace)
      requires Valid() && Lists(preview.files, tree) && Previewable(tree) && preview.totalBytes == Bytes(preview.files)
      modifies this`tree, this`same, this`present, this`clock
      ensures Valid() && removed <= Names(preview.files) && (present ==> old(present))
      ensures t.start == old(Now(preview.files, {}, Files(0, false))) && t.from == old(clock)
      ensures Leads(t, Now(preview.files, removed, Over(reply)), others, clock) && (reliable ==> Faultless(t))
      ensures reply.Removed? ==>
        && !present && tree == map[] && removed == Names(preview.files)
        && reply == Removed(|preview.files|, preview.totalBytes)
      ensures Quiet() ==> Trimmed(tree, old(tree) - removed)
      ensures Quiet() && reliable && old(same) ==> reply.Removed?
    {
      hide Leads, Faultless, Bytes, WellFormed;
      AscendingIsDistinct(preview.files);
      t := Begun(Now(preview.files, {}, Files(0, false)), clock);
      BegunLeads(Now(preview.files, {}, Files(0, false)), others, clock);
      var failure: Option<Reply>;
      removed, failure, t := RemoveFiles(preview.files, t);
      if failure.None? {
        t := TraceFilesDone(t, Now(preview.files, removed, Files(|preview.files|, false)), others, clock);
        if present {
          ListedFilesGone(preview.files, old(tree));
          failure, t := RemoveFolder(preview.files, removed, t);
        }
      }
      reply := if failure.Some? then failure.value else Removed(|preview.files|, preview.totalBytes);
    }

    /** HandleCleanupFiles, once it holds FilesMu. `t` is how the cleanup and the other processes have
        brought the directory from its old state to the present one, if anything was done to it. */
    method CleanupFiles(confirmed: Option<Token>) returns (reply: Reply, removed: set<Path>, ghost t: Option<Trace>)
      requires Valid()
      modifies this
      ensures Valid()
      // The directory is touched only if the confirmed listing is the present one, and then as in a run
      // of Removal on that listing.
      ensures t.None? ==>
        reply.Changed? && removed == {} && tree == old(tree) && present == old(present) && same == old(same) && clock == old(clock)
      ensures t.Some? ==>
        && confirmed.Some? && confirmed.value.root == root && Lists(confirmed.value.files, old(tree))
        && t.value.start == State(confirmed.value.files, old(tree), old(present), old(same), {}, Files(0, false))
        && t.value.from == old(clock)
        && Leads(t.value, Now(confirmed.value.files, removed, Over(reply)), others, clock)
        && (reliable ==> Faultless(t.value))
      ensures reliable ==>
        (t.Some? <==> Previewable(old(tree)) && confirmed.Some? && confirmed.value.root == root && Lists(confirmed.value.files, old(tree)))
      ensures removed != {} ==> confirmed.Some? && confirmed.value.root == root && removed <= Names(confirmed.value.files)
      ensures reply.Removed? ==>
        && !present && tree == map[] && confirmed.Some? && confirmed.value.root == root
        && removed == Names(confirmed.value.files)
        && reply == Removed(|confirmed.value.files|, Bytes(confirmed.value.files))
      // Undisturbed, it removes those files, of the rest only directories, and all of it exactly on the current token.
      ensures Quiet() ==> Trimmed(tree, old(tree) - removed)
      ensures Quiet() && reliable && old(same) ==>
        (reply.Removed? <==>
          && Previewable(old(tree)) && confirmed.Some?
          && confirmed.value.root == root && Lists(confirmed.value.files, old(tree)))
      ensures paths == CleanedPaths(old(paths), root, removed, reply.Removed?)
      ensures files == CleanedFiles(old(files), old(paths), root, removed, reply.Removed?)
      ensures Quiet() && Backed(old(files), old(paths), root, old(tree)) ==> Backed(files, paths, root, tree)
    {
      hide Leads, Faultless, Bytes, WellFormed;
      removed, t := {}, None;
      var preview := PreviewRetainedFiles();
      if preview.None? || confirmed.None? || confirmed.value != preview.value.token {
        NothingGone(files, paths, root);
        assert tree - {} == tree;
        assert confirmed.Some? ==> confirmed.value == Token(confirmed.value.root, confirmed.value.files);
        if confirmed.Some? && preview.Some? && Lists(confirmed.value.files, tree) {
          ListingIsUnique(confirmed.value.files, preview.value.files, tree);
        }
        return Changed, removed, None;
      }
      ghost var trace;
      reply, removed, trace := RemoveAll(preview.value);
      t := Some(trace);
      RecordCleanedFiles(removed, reply.Removed?);
      if Quiet() && Backed(old(files), old(paths), root, old(tree)) {
        CleanupKeepsBacked(old(files), old(paths), root, old(tree), removed, tree, reply.Removed?);
      }
    }
  }

  lemma AscendingIsDistinct(list: seq<Retained>)
    requires Ascending(list)
    ensures forall i, j :: 0 <= i < j < |list| ==> list[i].name != list[j].name
  {
    forall i, j | 0 <= i < j < |list|
      ensures list[i].name != list[j].name
    {
      LessIsTotal(list[i].name, list[j].name);
    }
  }

  lemma NoElements(t: Tree, order: seq<Path>)
    ensures t - Elements(order[..0]) == t
  {
  }

  lemma SameOrder(directories: seq<Path>, order: seq<Path>, t: Tree)
    requires OrderOf(directories, t) && multiset(order) == multiset(directories)
    ensures OrderOf(order, t)
  {
    PermutationIsDistinct(directories, order);
  }

  lemma NothingTrimmed(t: Tree)
    ensures Trimmed(t, t)
  {
  }

  lemma ElementsGone(order: seq<Path>, count: nat, t: Tree)
    requires OrderOf(order, t) && OnlyDirectories(t) && count <= |order|
    ensures Trimmed(t - Elements(order[..count]), t)
    ensures t - Elements(order[..|order|]) == map[]
  {
    assert order[..|order|] == order;
  }

  lemma IndexesOneMore(paths: seq<string>, root: string, removed: set<Path>, i: nat)
    requires i < |paths|
    ensures RemovedIndexes(paths[..i + 1], root, removed)
         == RemovedIndexes(paths[..i], root, removed) + if Gone(root, paths[i], removed) then {i} else {}
  {
  }

  lemma ListedFilesGone(list: seq<Retained>, t: Tree)
    requires Lists(list, t) && Previewable(t)
    ensures OnlyDirectories(t - Names(list)) && |t - Names(list)| <= MAX_ENTRIES
  {
    SubsetIsSmaller((t - Names(list)).Keys, t.Keys);
    forall p | p in t && t[p].File?
      ensures p in Names(list)
    {
      assert Retained(p, t[p].size, t[p].modified) in list;
    }
  }
}
