/**
 The folder tree of one tenant as the recursive queries see it: the active folders, each with its
 parent pointer. Pointers are arbitrary: they may dangle, point at a deleted folder (which is not a
 key here), at the folder itself, or close a cycle.
 */
module FolderGraph {
  import opened Common

  type Parents = map<string, Option<string>>

  /** The parent a recursive query can step to: the pointed-at folder, if that is active. */
  function ParentOf(g: Parents, f: string): Option<string> {
    if f in g && g[f].Some? && g[f].value in g then g[f] else None
  }

  /** The folder `n` steps above `f`. */
  function Up(g: Parents, f: string, n: nat): Option<string>
    decreases n
  {
    if f !in g then None
    else if n == 0 then Some(f)
    else
      match ParentOf(g, f)
      case None => None
      case Some(p) => Up(g, p, n - 1)
  }

  /** There is a path of parent pointers from `f` to `a` through active folders. */
  ghost predicate Reaches(g: Parents, f: string, a: string) {
    exists n: nat :: Up(g, f, n) == Some(a)
  }

  /** The recursive union of `ancestor_folder_ids`: add the parents of what was found until nothing is new. */
  function AncestorClosure(g: Parents, found: set<string>): set<string>
    requires found <= g.Keys
    decreases g.Keys - found
  {
    var next := found + set c | c in found && ParentOf(g, c).Some? :: ParentOf(g, c).value;
    if next == found then found else AncestorClosure(g, next)
  }

  /** The recursive union of `active_folder_ids_in_subtree`: add the children of what was found. */
  function SubtreeClosure(g: Parents, found: set<string>): set<string>
    requires found <= g.Keys
    decreases g.Keys - found
  {
    var next := found + set c | c in g.Keys && ParentOf(g, c).Some? && ParentOf(g, c).value in found;
    if next == found then found else SubtreeClosure(g, next)
  }

  function AncestorFolderIds(g: Parents, ids: set<string>): set<string> {
    AncestorClosure(g, ids * g.Keys)
  }

  function SubtreeFolderIds(g: Parents, f: string): set<string> {
    SubtreeClosure(g, {f} * g.Keys)
  }

  // Path reasoning

  lemma {:induction false} UpEndsActive(g: Parents, f: string, n: nat)
    requires Up(g, f, n).Some?
    ensures f in g && Up(g, f, n).value in g
    decreases n
  {
    if n > 0 {
      UpEndsActive(g, ParentOf(g, f).value, n - 1);
    }
  }

  lemma {:induction false} UpSplit(g: Parents, f: string, m: nat, n: nat)
    requires Up(g, f, m).Some?
    ensures Up(g, f, m + n) == Up(g, Up(g, f, m).value, n)
    decreases m
  {
    if m > 0 {
      UpSplit(g, ParentOf(g, f).value, m - 1, n);
    }
  }

  lemma {:induction false} ReachesParent(g: Parents, f: string, a: string)
    requires Reaches(g, f, a) && ParentOf(g, a).Some?
    ensures Reaches(g, f, ParentOf(g, a).value)
  {
    var n: nat :| Up(g, f, n) == Some(a);
    UpSplit(g, f, n, 1);
    assert Up(g, a, 1) == Up(g, ParentOf(g, a).value, 0);
    assert Up(g, f, n + 1) == Some(ParentOf(g, a).value);
  }

  // The two closures compute reachability

  lemma {:induction false} AncestorClosureReaches(g: Parents, found: set<string>, a: string)
    requires found <= g.Keys
    ensures a in AncestorClosure(g, found) <==> exists s | s in found :: Reaches(g, s, a)
    decreases g.Keys - found
  {
    var next := found + set c | c in found && ParentOf(g, c).Some? :: ParentOf(g, c).value;
    if next == found {
      forall s, n: nat | s in found && Up(g, s, n) == Some(a)
        ensures a in found
      {
        ClosedUnderParents(g, found, s, n);
      }
      if a in found {
        assert Up(g, a, 0) == Some(a);
      }
    } else {
      AncestorClosureReaches(g, next, a);
      forall s | s in next && Reaches(g, s, a)
        ensures exists s' | s' in found :: Reaches(g, s', a)
      {
        if s !in found {
          var c :| c in found && ParentOf(g, c) == Some(s);
          var n: nat :| Up(g, s, n) == Some(a);
          assert Up(g, c, n + 1) == Some(a);
        }
      }
    }
  }

  lemma {:induction false} ClosedUnderParents(g: Parents, found: set<string>, s: string, n: nat)
    requires found <= g.Keys && s in found && Up(g, s, n).Some?
    requires forall c | c in found && ParentOf(g, c).Some? :: ParentOf(g, c).value in found
    ensures Up(g, s, n).value in found
    decreases n
  {
    if n > 0 {
      ClosedUnderParents(g, found, ParentOf(g, s).value, n - 1);
    }
  }

  lemma {:induction false} SubtreeClosureReaches(g: Parents, found: set<string>, f: string)
    requires found <= g.Keys
    ensures f in SubtreeClosure(g, found) <==> exists s | s in found :: Reaches(g, f, s)
    decreases g.Keys - found
  {
    var next := found + set c | c in g.Keys && ParentOf(g, c).Some? && ParentOf(g, c).value in found;
    if next == found {
      forall s, n: nat | s in found && Up(g, f, n) == Some(s)
        ensures f in found
      {
        ClosedUnderChildren(g, found, f, n);
      }
      if f in found {
        assert Up(g, f, 0) == Some(f);
      }
    } else {
      SubtreeClosureReaches(g, next, f);
      forall s | s in next && Reaches(g, f, s)
        ensures exists s' | s' in found :: Reaches(g, f, s')
      {
        if s !in found {
          ReachesParent(g, f, s);
        }
      }
    }
  }

  lemma {:induction false} ClosedUnderChildren(g: Parents, found: set<string>, f: string, n: nat)
    requires found <= g.Keys && Up(g, f, n).Some? && Up(g, f, n).value in found
    requires forall c | c in g.Keys && ParentOf(g, c).Some? && ParentOf(g, c).value in found :: c in found
    ensures f in found
    decreases n
  {
    if n > 0 {
      ClosedUnderChildren(g, found, ParentOf(g, f).value, n - 1);
    }
  }

  /** The ancestor query returns exactly what a path of active folders reaches from one of the ids. */
  lemma {:induction false} AncestorsAreReachable(g: Parents, ids: set<string>, a: string)
    ensures a in AncestorFolderIds(g, ids) <==> exists s | s in ids :: Reaches(g, s, a)
  {
    AncestorClosureReaches(g, ids * g.Keys, a);
    forall s, n: nat | s in ids && Up(g, s, n) == Some(a)
      ensures s in ids * g.Keys
    {
      UpEndsActive(g, s, n);
    }
  }

  /** The subtree query returns exactly the folders from which a path of active folders reaches `a`. */
  lemma {:induction false} SubtreeIsReachable(g: Parents, a: string, f: string)
    ensures f in SubtreeFolderIds(g, a) <==> Reaches(g, f, a)
  {
    SubtreeClosureReaches(g, {a} * g.Keys, f);
    forall n: nat | Up(g, f, n) == Some(a)
      ensures a in {a} * g.Keys
    {
      UpEndsActive(g, f, n);
    }
  }

  /** The two recursive queries are transposes of each other. */
  lemma {:induction false} AncestorsTransposeSubtree(g: Parents, f: string, a: string)
    ensures a in AncestorFolderIds(g, {f}) <==> f in SubtreeFolderIds(g, a)
  {
    AncestorsAreReachable(g, {f}, a);
    SubtreeIsReachable(g, a, f);
  }

  lemma {:induction false} ClosuresAreActive(g: Parents, ids: set<string>, f: string)
    ensures AncestorFolderIds(g, ids) <= g.Keys
    ensures SubtreeFolderIds(g, f) <= g.Keys
    ensures ids * g.Keys <= AncestorFolderIds(g, ids)
  {
    forall a | a in AncestorFolderIds(g, ids) ensures a in g {
      AncestorsAreReachable(g, ids, a);
      var s, n: nat :| s in ids && Up(g, s, n) == Some(a);
      UpEndsActive(g, s, n);
    }
    forall x | x in SubtreeFolderIds(g, f) ensures x in g {
      SubtreeIsReachable(g, f, x);
      var n: nat :| Up(g, x, n) == Some(f);
      UpEndsActive(g, x, n);
    }
    forall a | a in ids * g.Keys ensures a in AncestorFolderIds(g, ids) {
      AncestorsAreReachable(g, ids, a);
      assert Up(g, a, 0) == Some(a);
    }
  }

  // What a change to one folder can affect

  /** `g` and `h` differ at most in folder `f`: its pointer, or whether it is active. */
  ghost predicate AgreeExcept(g: Parents, h: Parents, f: string) {
    && g.Keys - {f} == h.Keys - {f}
    && forall x | x in g && x in h && x != f :: g[x] == h[x]
  }

  /** A path to `a` either exists in both graphs, or passes through `f`, which then reaches `a`. */
  lemma {:induction false} PathKeptOrThrough(g: Parents, h: Parents, f: string, x: string, n: nat, a: string)
    returns (k: nat)
    requires AgreeExcept(g, h, f) && Up(g, x, n) == Some(a)
    ensures Up(h, x, n) == Some(a) || (k <= n && Up(g, f, k) == Some(a))
    decreases n
  {
    k := n;
    if x != f {
      assert x in g.Keys - {f};
      if n > 0 {
        var p := ParentOf(g, x).value;
        if p == f {
          k := n - 1;
        } else {
          assert p in g.Keys - {f};
          k := PathKeptOrThrough(g, h, f, p, n - 1, a);
        }
      }
    }
  }

  /** What the old parent reached in the old graph it still reaches, whatever happens to `f`. */
  lemma {:induction false} OldParentStillReaches(g: Parents, h: Parents, f: string, a: string, k: nat)
    requires AgreeExcept(g, h, f) && a != f && Up(g, f, k) == Some(a)
    ensures ParentOf(g, f).Some? && Reaches(h, ParentOf(g, f).value, a)
    decreases k
  {
    var p := ParentOf(g, f).value;
    var m := PathKeptOrThrough(g, h, f, p, k - 1, a);
    if Up(h, p, k - 1) != Some(a) {
      OldParentStillReaches(g, h, f, a, m);
    }
  }

  /**
   The upsert of folder `f` turns `g` into `h`. A folder that neither `f` nor the previous parent of
   `f` reaches afterwards has the same subtree before and after.
   */
  lemma {:induction false} UpsertKeepsSubtree(g: Parents, h: Parents, f: string, a: string)
    requires AgreeExcept(g, h, f) && a != f
    requires a !in AncestorFolderIds(h, {f})
    requires ParentOf(g, f).Some? ==> a !in AncestorFolderIds(h, {ParentOf(g, f).value})
    ensures SubtreeFolderIds(g, a) == SubtreeFolderIds(h, a)
  {
    NotReached(h, f, a);
    if ParentOf(g, f).Some? {
      NotReached(h, ParentOf(g, f).value, a);
    }
    forall x ensures x in SubtreeFolderIds(g, a) <==> x in SubtreeFolderIds(h, a) {
      SubtreeIsReachable(g, a, x);
      SubtreeIsReachable(h, a, x);
      if n: nat :| Up(h, x, n) == Some(a) {
        var _ := PathKeptOrThrough(h, g, f, x, n, a);
      }
      if n: nat :| Up(g, x, n) == Some(a) {
        var k := PathKeptOrThrough(g, h, f, x, n, a);
        if Up(g, f, k) == Some(a) {
          OldParentStillReaches(g, h, f, a, k);
        }
      }
    }
  }

  lemma {:induction false} NotReached(g: Parents, f: string, a: string)
    requires a !in AncestorFolderIds(g, {f})
    ensures !Reaches(g, f, a)
  {
    AncestorsAreReachable(g, {f}, a);
    assert f in {f};
  }

  /** Deactivating folder `f` leaves the subtree of every folder that `f` did not reach alone. */
  lemma {:induction false} DeleteKeepsSubtree(g: Parents, f: string, a: string)
    requires a !in AncestorFolderIds(g, {f})
    ensures SubtreeFolderIds(g, a) == SubtreeFolderIds(g - {f}, a)
  {
    var h := g - {f};
    NotReached(g, f, a);
    forall x ensures x in SubtreeFolderIds(g, a) <==> x in SubtreeFolderIds(h, a) {
      SubtreeIsReachable(g, a, x);
      SubtreeIsReachable(h, a, x);
      if n: nat :| Up(g, x, n) == Some(a) {
        var _ := PathKeptOrThrough(g, h, f, x, n, a);
      }
      if n: nat :| Up(h, x, n) == Some(a) {
        var k := PathKeptOrThrough(h, g, f, x, n, a);
        assert Up(h, f, k) == None;
      }
    }
  }
}
