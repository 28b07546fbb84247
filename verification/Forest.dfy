/** Parent chains of the folder table. `api_collections.parent_id` carries no
    foreign key, so nothing here assumes that a parent exists or that chains end. */
module Forest {
  import opened Common

  type Id = string

  /** One row of `api_collections` (parent is an optional folder) or of
      `api_collection_items` (parent is a folder). `rest` stands for the columns
      that no modelled operation reads. */
  datatype Entry<P> = Entry(parent: P, name: string, sortOrder: int, updatedAt: string, rest: string)

  type Folders = map<Id, Entry<Option<Id>>>

  /** The folder reached from `start` by `n` parent steps; a missing row ends the chain. */
  ghost function Up(t: Folders, start: Option<Id>, n: nat): Option<Id> {
    if n == 0 then start
    else
      var below := Up(t, start, n - 1);
      if below.Some? && below.value in t then t[below.value].parent else None
  }

  ghost predicate OnChain(t: Folders, start: Option<Id>, x: Id) {
    exists n: nat :: Up(t, start, n) == Some(x)
  }

  /** The chain walks into an id that has no row. */
  ghost predicate Dangles(t: Folders, start: Option<Id>) {
    exists n: nat :: Up(t, start, n).Some? && Up(t, start, n).value !in t
  }

  ghost predicate Ends(t: Folders, start: Option<Id>) {
    exists n: nat :: Up(t, start, n) == None
  }

  ghost predicate ReachesRoot(t: Folders, start: Option<Id>) {
    Ends(t, start) && !Dangles(t, start)
  }

  ghost predicate ParentsExist(t: Folders) {
    forall x :: x in t && t[x].parent.Some? ==> t[x].parent.value in t
  }

  /** Every parent exists and every chain reaches a root in finitely many steps. */
  ghost predicate IsForest(t: Folders) {
    ParentsExist(t) && forall x :: x in t ==> Ends(t, Some(x))
  }

  /** The start folder and everything whose parent chain passes through it. */
  ghost function Subtree(t: Folders, root: Id): set<Id> {
    {root} + set x | x in t && OnChain(t, Some(x), root)
  }

  // ---- Chains ----

  lemma {:induction false} UpCompose(t: Folders, start: Option<Id>, a: nat, b: nat)
    ensures Up(t, start, a + b) == Up(t, Up(t, start, a), b)
    decreases b
  {
    if b > 0 {
      UpCompose(t, start, a, b - 1);
    }
  }

  lemma UpPastEnd(t: Folders, start: Option<Id>, n: nat, m: nat)
    requires n <= m && Up(t, start, n) == None
    ensures Up(t, start, m) == None
    decreases m
  {
    if n < m {
      UpPastEnd(t, start, n, m - 1);
    }
  }

  /** A chain that ends with every visited id present neither dangles nor holds
      any id outside the visited prefix. */
  lemma EndedChain(t: Folders, start: Option<Id>, n: nat, x: Id)
    requires Up(t, start, n) == None
    requires forall k :: 0 <= k < n ==> Up(t, start, k).Some? && Up(t, start, k).value in t
    requires forall k :: 0 <= k < n ==> Up(t, start, k) != Some(x)
    ensures ReachesRoot(t, start) && !OnChain(t, start, x)
  {
    forall m: nat | m >= n
      ensures Up(t, start, m) == None
    {
      UpPastEnd(t, start, n, m);
    }
  }

  /** A chain that repeats stays inside the prefix before the repetition. */
  lemma {:induction false} Repeats(t: Folders, start: Option<Id>, i: nat, n: nat, m: nat)
    requires i < n && Up(t, start, i) == Up(t, start, n)
    ensures exists k: nat :: k < n && Up(t, start, m) == Up(t, start, k)
    decreases m
  {
    if m >= n {
      Repeats(t, start, i, n, m - 1);
      var k: nat :| k < n && Up(t, start, m - 1) == Up(t, start, k);
      assert Up(t, start, m) == Up(t, start, k + 1);
      if k + 1 == n {
        assert Up(t, start, m) == Up(t, start, i);
      }
    }
  }

  /** A chain that revisits a present id never ends, never dangles and holds only
      the ids seen before the revisit. */
  lemma CyclicChain(t: Folders, start: Option<Id>, i: nat, n: nat, x: Id)
    requires i < n && Up(t, start, i) == Up(t, start, n)
    requires forall k :: 0 <= k < n ==> Up(t, start, k).Some? && Up(t, start, k).value in t
    requires forall k :: 0 <= k < n ==> Up(t, start, k) != Some(x)
    ensures !Ends(t, start) && !Dangles(t, start) && !OnChain(t, start, x)
  {
    forall m: nat
      ensures Up(t, start, m).Some? && Up(t, start, m).value in t && Up(t, start, m) != Some(x)
    {
      Repeats(t, start, i, n, m);
    }
  }

  /** A chain that dangles after `n` steps holds nothing beyond the missing id. */
  lemma DanglingChain(t: Folders, start: Option<Id>, n: nat, x: Id)
    requires Up(t, start, n).Some? && Up(t, start, n).value !in t
    requires forall k :: 0 <= k <= n ==> Up(t, start, k) != Some(x)
    ensures Dangles(t, start) && Ends(t, start) && !OnChain(t, start, x)
  {
    assert Up(t, start, n + 1) == None;
    forall m: nat | m > n
      ensures Up(t, start, m) == None
    {
      UpPastEnd(t, start, n + 1, m);
    }
  }

  /** In a forest every folder's chain reaches a root. */
  lemma ForestChains(t: Folders, start: Option<Id>)
    requires IsForest(t)
    requires start.Some? ==> start.value in t
    ensures ReachesRoot(t, start)
  {
    if start.None? {
      assert Up(t, start, 0) == None;
    }
    forall n: nat
      ensures Up(t, start, n).Some? ==> Up(t, start, n).value in t
    {
      StaysInside(t, start, n);
    }
  }

  lemma StaysInside(t: Folders, start: Option<Id>, n: nat)
    requires ParentsExist(t)
    requires start.Some? ==> start.value in t
    ensures Up(t, start, n).Some? ==> Up(t, start, n).value in t
    decreases n
  {
    if n > 0 {
      StaysInside(t, start, n - 1);
    }
  }

  // ---- Updating one row ----

  /** Chains that avoid `id` do not see a change of `id`'s row. */
  lemma {:induction false} UpUnchanged(t: Folders, t': Folders, id: Id, start: Option<Id>, n: nat)
    requires forall x :: x != id ==> (x in t <==> x in t')
    requires forall x :: x != id && x in t ==> t[x].parent == t'[x].parent
    requires forall k :: 0 <= k < n ==> Up(t, start, k) != Some(id)
    ensures Up(t', start, n) == Up(t, start, n)
    decreases n
  {
    if n > 0 {
      UpUnchanged(t, t', id, start, n - 1);
    }
  }

  /** A chain that ends still ends after `id` is given a parent whose own chain
      ends without meeting `id`. */
  lemma {:induction false} EndsAfterReparent(t: Folders, t': Folders, id: Id, start: Option<Id>, n: nat)
    requires forall x :: x != id ==> (x in t <==> x in t')
    requires forall x :: x != id && x in t ==> t[x].parent == t'[x].parent
    requires id in t' && Ends(t, t'[id].parent) && !OnChain(t, t'[id].parent, id)
    requires Up(t, start, n) == None
    ensures Ends(t', start)
  {
    var k := FirstVisit(t, start, id, n);
    UpUnchanged(t, t', id, start, k);
    if k < n {
      var p := t'[id].parent;
      var m: nat :| Up(t, p, m) == None;
      UpUnchanged(t, t', id, p, m);
      assert Up(t', start, k + 1) == p;
      UpCompose(t', start, k + 1, m);
    }
  }

  /** The first of the first `n` chain positions that holds `id`, or `n`. */
  lemma FirstVisit(t: Folders, start: Option<Id>, id: Id, n: nat) returns (k: nat)
    ensures k <= n && (k < n ==> Up(t, start, k) == Some(id))
    ensures forall j :: 0 <= j < k ==> Up(t, start, j) != Some(id)
  {
    k := 0;
    while k < n && Up(t, start, k) != Some(id)
      invariant k <= n
      invariant forall j :: 0 <= j < k ==> Up(t, start, j) != Some(id)
    {
      k := k + 1;
    }
  }

  /** Writing a folder row keeps the forest when the new parent exists and its
      chain does not pass through the written folder. */
  lemma WriteKeepsForest(t: Folders, id: Id, row: Entry<Option<Id>>)
    requires IsForest(t)
    requires row.parent.Some? ==> row.parent.value in t
    requires !OnChain(t, row.parent, id)
    ensures IsForest(t[id := row])
  {
    var t' := t[id := row];
    ForestChains(t, row.parent);
    forall x | x in t'
      ensures Ends(t', Some(x))
    {
      if x in t {
        var n: nat :| Up(t, Some(x), n) == None;
        EndsAfterReparent(t, t', id, Some(x), n);
      } else {
        assert Up(t, Some(x), 1) == None;
        EndsAfterReparent(t, t', id, Some(x), 1);
      }
    }
  }

  /** Chains look only at parents. */
  lemma {:induction false} SameParentsSameChains(t: Folders, t': Folders, start: Option<Id>, n: nat)
    requires t.Keys == t'.Keys
    requires forall x :: x in t ==> t[x].parent == t'[x].parent
    ensures Up(t', start, n) == Up(t, start, n)
    decreases n
  {
    if n > 0 {
      SameParentsSameChains(t, t', start, n - 1);
    }
  }

  lemma SameParentsKeepForest(t: Folders, t': Folders)
    requires IsForest(t) && t.Keys == t'.Keys
    requires forall x :: x in t ==> t[x].parent == t'[x].parent
    ensures IsForest(t')
  {
    forall x | x in t'
      ensures Ends(t', Some(x))
    {
      var n: nat :| Up(t, Some(x), n) == None;
      SameParentsSameChains(t, t', Some(x), n);
    }
  }

  // ---- Subtrees ----

  /** A set that holds the root and every child of its members covers the subtree. */
  lemma {:induction false} ClosedSetCovers(t: Folders, root: Id, s: set<Id>, x: Id, n: nat)
    requires root in s
    requires forall c :: c in t && t[c].parent.Some? && t[c].parent.value in s ==> c in s
    requires x in t && Up(t, Some(x), n) == Some(root)
    ensures x in s
    decreases n
  {
    if n > 0 {
      UpCompose(t, Some(x), 1, n - 1);
      assert Up(t, Some(x), 0) == Some(x);
      var p := t[x].parent;
      assert Up(t, Some(x), 1) == p;
      if p.None? {
        UpPastEnd(t, p, 0, n - 1);
        assert false;
      } else if p.value in t {
        ClosedSetCovers(t, root, s, p.value, n - 1);
      } else if n - 1 > 0 {
        UpPastEnd(t, p, 1, n - 1);
        assert false;
      }
    }
  }

  /** Children of a subtree member belong to the subtree. */
  lemma ChildInSubtree(t: Folders, root: Id, p: Id, c: Id)
    requires p in Subtree(t, root) && c in t && t[c].parent == Some(p)
    ensures c in Subtree(t, root)
  {
    assert Up(t, Some(c), 0) == Some(c);
    assert Up(t, Some(c), 1) == Some(p);
    if p != root {
      var n: nat :| Up(t, Some(p), n) == Some(root);
      UpCompose(t, Some(c), 1, n);
      assert Up(t, Some(c), 1 + n) == Some(root);
    }
  }

  /** Removing a whole subtree keeps the forest: no surviving chain meets it. */
  lemma RemoveSubtreeKeepsForest(t: Folders, root: Id)
    requires IsForest(t)
    ensures IsForest(t - Subtree(t, root))
  {
    var gone := Subtree(t, root);
    var t' := t - gone;
    forall x | x in t'
      ensures t'[x].parent.Some? ==> t'[x].parent.value in t'
    {
      if t[x].parent.Some? && t[x].parent.value in gone {
        ChildInSubtree(t, root, t[x].parent.value, x);
      }
    }
    forall x | x in t'
      ensures Ends(t', Some(x))
    {
      var n: nat :| Up(t, Some(x), n) == None;
      SurvivorChain(t, root, x, n);
    }
  }

  lemma {:induction false} SurvivorChain(t: Folders, root: Id, x: Id, n: nat)
    requires ParentsExist(t) && x in t && x !in Subtree(t, root)
    ensures Up(t - Subtree(t, root), Some(x), n) == Up(t, Some(x), n)
    ensures Up(t, Some(x), n).Some? ==> Up(t, Some(x), n).value in t - Subtree(t, root)
    decreases n
  {
    if n > 0 {
      SurvivorChain(t, root, x, n - 1);
      var y := Up(t, Some(x), n - 1);
      if y.Some? && t[y.value].parent.Some? && t[y.value].parent.value in Subtree(t, root) {
        ChildInSubtree(t, root, t[y.value].parent.value, y.value);
        assert false;
      }
    }
  }
}
