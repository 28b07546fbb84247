/** The collection store of crates/db: folders, saved requests, and the
    operations that rearrange them. Each public operation is one transaction. */
module Collections {
  import opened Common
  import opened Forest
  import TextOrder

  type Items = map<Id, Entry<Id>>
  datatype State = State(folders: Folders, items: Items)

  datatype Op =
    | UpsertFolder(id: Id, folder: Entry<Option<Id>>)
    | MoveFolder(id: Id, parent: Option<Id>, position: nat, now: string)
    | DeleteFolder(id: Id)
    | UpsertItem(id: Id, item: Entry<Id>)
    | MoveItem(id: Id, collection: Id, position: nat, now: string)
    | DeleteItem(id: Id)

  /** What every call must keep: the folders form a forest and every item's folder exists. */
  ghost predicate WellFormed(s: State) {
    && IsForest(s.folders)
    && forall i :: i in s.items ==> s.items[i].parent in s.folders
  }

  // ---- Listings and renumbering ----

  /** `ORDER BY sort_order, name`; rows that tie come in any order. */
  predicate Before<P>(a: Entry<P>, b: Entry<P>) {
    a.sortOrder < b.sortOrder || (a.sortOrder == b.sortOrder && TextOrder.Less(a.name, b.name))
  }

  ghost predicate IsSorted<P>(t: map<Id, Entry<P>>, ids: seq<Id>) {
    && (forall i :: 0 <= i < |ids| ==> ids[i] in t)
    && forall i, j :: 0 <= i < j < |ids| ==> !Before(t[ids[j]], t[ids[i]])
  }

  /** `ids` is an answer to `SELECT id ... WHERE parent = ? ORDER BY sort_order, name`. */
  ghost predicate IsListing<P>(t: map<Id, Entry<P>>, parent: P, ids: seq<Id>) {
    && NoDup(ids)
    && (forall x :: x in ids <==> x in t && t[x].parent == parent)
    && IsSorted(t, ids)
  }

  lemma NotBeforeTransitive<P>(a: Entry<P>, b: Entry<P>, c: Entry<P>)
    requires !Before(b, a) && !Before(c, b)
    ensures !Before(c, a)
  {
    TextOrder.Total(a.name, b.name);
    TextOrder.Total(b.name, c.name);
    if TextOrder.Less(a.name, b.name) && TextOrder.Less(b.name, c.name) {
      TextOrder.Transitive(a.name, b.name, c.name);
    }
    if TextOrder.Less(a.name, c.name) {
      TextOrder.Asymmetric(a.name, c.name);
    }
    if TextOrder.Less(a.name, b.name) {
      TextOrder.Asymmetric(a.name, b.name);
    }
    if TextOrder.Less(b.name, c.name) {
      TextOrder.Asymmetric(b.name, c.name);
    }
    TextOrder.Irreflexive(a.name);
  }

  lemma BeforeAsymmetric<P>(a: Entry<P>, b: Entry<P>)
    requires Before(a, b)
    ensures !Before(b, a)
  {
    if TextOrder.Less(a.name, b.name) {
      TextOrder.Asymmetric(a.name, b.name);
    }
  }

  method InsertInOrder<P>(t: map<Id, Entry<P>>, ids: seq<Id>, x: Id) returns (r: seq<Id>)
    requires IsSorted(t, ids) && NoDup(ids) && x in t && x !in ids
    ensures IsSorted(t, r) && NoDup(r)
    ensures forall y :: y in r <==> y == x || y in ids
  {
    var i := 0;
    while i < |ids| && !Before(t[x], t[ids[i]])
      invariant 0 <= i <= |ids|
      invariant forall k :: 0 <= k < i ==> !Before(t[x], t[ids[k]])
    {
      i := i + 1;
    }
    r := ids[..i] + [x] + ids[i..];
    InsertedMembers(ids, i, x);
    InsertedSorted(t, ids, i, x);
  }

  lemma InsertedMembers(ids: seq<Id>, i: nat, x: Id)
    requires NoDup(ids) && x !in ids && i <= |ids|
    ensures NoDup(ids[..i] + [x] + ids[i..])
    ensures forall y :: y in ids[..i] + [x] + ids[i..] <==> y == x || y in ids
  {
    assert ids == ids[..i] + ids[i..];
  }

  lemma InsertedSorted<P>(t: map<Id, Entry<P>>, ids: seq<Id>, i: nat, x: Id)
    requires IsSorted(t, ids) && x in t && i <= |ids| && (i < |ids| ==> Before(t[x], t[ids[i]]))
    requires forall k :: 0 <= k < i ==> ids[k] in t && !Before(t[x], t[ids[k]])
    ensures IsSorted(t, ids[..i] + [x] + ids[i..])
  {
    forall k | i <= k < |ids|
      ensures !Before(t[ids[k]], t[x])
    {
      BeforeAsymmetric(t[x], t[ids[i]]);
      if i < k {
        NotBeforeTransitive(t[x], t[ids[i]], t[ids[k]]);
      }
    }
  }

  method OrderedIds<P(==)>(t: map<Id, Entry<P>>, parent: P) returns (ids: seq<Id>)
    ensures IsListing(t, parent, ids)
  {
    var left := set x | x in t && t[x].parent == parent;
    ids := [];
    while left != {}
      invariant left <= t.Keys && IsSorted(t, ids) && NoDup(ids)
      invariant forall x :: x in t && t[x].parent == parent <==> x in left || x in ids
      invariant forall x :: x in ids ==> x !in left
      decreases left
    {
      var x :| x in left;
      ids := InsertInOrder(t, ids, x);
      left := left - {x};
    }
  }

  /** `ids.filter(|s| s != id)`: the listing that leaves the moved row out. */
  method Others<P(==)>(t: map<Id, Entry<P>>, parent: P, ids: seq<Id>, id: Id) returns (r: seq<Id>)
    requires IsListing(t, parent, ids)
    ensures IsListing(t - {id}, parent, r)
  {
    r := [];
    for k := 0 to |ids|
      invariant forall x :: x in r <==> x in ids[..k] && x != id
      invariant NoDup(r) && IsSorted(t - {id}, r)
    {
      assert ids[..k + 1] == ids[..k] + [ids[k]];
      if ids[k] != id {
        forall y | y in r
          ensures y != ids[k] && !Before(t[ids[k]], t[y])
        {
          var j :| 0 <= j < k && ids[j] == y;
        }
        r := r + [ids[k]];
      }
    }
    assert ids[..|ids|] == ids;
  }

  /** `UPDATE ... SET sort_order = idx` for each listed row. */
  method Renumber<P>(t: map<Id, Entry<P>>, ids: seq<Id>) returns (r: map<Id, Entry<P>>)
    requires NoDup(ids) && forall x :: x in ids ==> x in t
    ensures r.Keys == t.Keys
    ensures forall i :: 0 <= i < |ids| ==> r[ids[i]] == t[ids[i]].(sortOrder := AsI32(i))
    ensures forall x :: x in t && x !in ids ==> r[x] == t[x]
  {
    r := t;
    for k := 0 to |ids|
      invariant r.Keys == t.Keys
      invariant forall i :: 0 <= i < k ==> r[ids[i]] == t[ids[i]].(sortOrder := AsI32(i))
      invariant forall x :: x in t && x !in ids[..k] ==> r[x] == t[x]
    {
      r := r[ids[k] := r[ids[k]].(sortOrder := AsI32(k))];
    }
  }

  /** Position in the list is the stored sort order. */
  ghost predicate Numbered<P>(t: map<Id, Entry<P>>, ids: seq<Id>) {
    forall i :: 0 <= i < |ids| ==> ids[i] in t && t[ids[i]].sortOrder == AsI32(i)
  }

  ghost function Placed(others: seq<Id>, id: Id, position: nat): seq<Id> {
    var at := Min(position, |others|);
    others[..at] + [id] + others[at..]
  }

  /** The effect of a move, given the two sibling listings it worked from: `dest`
      lists the other children of the target and `left` the other children of the
      old parent, both in their order before the move. */
  ghost predicate MovedAs<P(!new)>(t: map<Id, Entry<P>>, id: Id, target: P, position: nat, now: string,
                             t': map<Id, Entry<P>>, dest: seq<Id>, left: seq<Id>) {
    && id in t && t'.Keys == t.Keys
    && IsListing(t - {id}, target, dest)
    && IsListing(t - {id}, t[id].parent, left)
    && Numbered(t', Placed(dest, id, position))
    && (t[id].parent != target ==> Numbered(t', left))
    && t'[id] == t[id].(parent := target, sortOrder := AsI32(Min(position, |dest|)),
                        updatedAt := if t[id].parent == target then t[id].updatedAt else now)
    && (forall x :: x in t && x != id ==> t'[x] == t[x].(sortOrder := t'[x].sortOrder))
    && (forall x :: x in t && x != id && t[x].parent != target && t[x].parent != t[id].parent ==> t'[x] == t[x])
  }

  ghost predicate Moved<P(!new)>(t: map<Id, Entry<P>>, id: Id, target: P, position: nat, now: string,
                           t': map<Id, Entry<P>>) {
    exists dest, left :: MovedAs(t, id, target, position, now, t', dest, left)
  }

  lemma PlacedMembers(others: seq<Id>, id: Id, position: nat)
    requires NoDup(others) && id !in others
    ensures NoDup(Placed(others, id, position))
    ensures forall x :: x in Placed(others, id, position) <==> x == id || x in others
  {
    var at := Min(position, |others|);
    assert others == others[..at] + others[at..];
  }

  /** Insert the moved row among its new siblings and renumber them. */
  method PlaceAmongSiblings<P(==)>(t: map<Id, Entry<P>>, id: Id, target: P, position: nat)
    returns (r: map<Id, Entry<P>>, ghost others: seq<Id>)
    requires id in t && t[id].parent == target
    ensures IsListing(t - {id}, target, others)
    ensures r.Keys == t.Keys
    ensures Numbered(r, Placed(others, id, position))
    ensures r[id] == t[id].(sortOrder := AsI32(Min(position, |others|)))
    ensures forall x :: x in t ==> r[x] == t[x].(sortOrder := r[x].sortOrder)
    ensures forall x :: x in t && t[x].parent != target ==> r[x] == t[x]
  {
    var targetIds := OrderedIds(t, target);
    var siblings := Others(t, target, targetIds, id);
    var at := Min(position, |siblings|);
    var arranged := siblings[..at] + [id] + siblings[at..];
    others := siblings;
    PlacedMembers(siblings, id, position);
    r := Renumber(t, arranged);
    assert arranged[at] == id;
    forall x | x in t
      ensures r[x] == t[x].(sortOrder := r[x].sortOrder)
    {
      if x in arranged {
        var i :| 0 <= i < |arranged| && arranged[i] == x;
      }
    }
  }

  /** The body shared by `move_collection` and `move_collection_item`. */
  method Rearrange<P(==,!new)>(t: map<Id, Entry<P>>, id: Id, target: P, position: nat, now: string)
    returns (t': map<Id, Entry<P>>)
    requires id in t
    ensures Moved(t, id, target, position, now, t')
  {
    var oldParent := t[id].parent;
    if oldParent == target {
      ghost var dest;
      t', dest := PlaceAmongSiblings(t, id, target, position);
      assert MovedAs(t, id, target, position, now, t', dest, dest);
    } else {
      var t1 := t[id := t[id].(parent := target, updatedAt := now)];
      var t2, dest := PlaceAmongSiblings(t1, id, target, position);
      assert t1 - {id} == t - {id};
      var oldIds := OrderedIds(t2, oldParent);
      t' := Renumber(t2, oldIds);
      GapClosed(t, id, target, position, now, t2, oldIds, t', dest);
    }
  }

  /** Rows that agree on the children of a parent are listed alike. */
  lemma SameListing<P(!new)>(t: map<Id, Entry<P>>, u: map<Id, Entry<P>>, parent: P, ids: seq<Id>)
    requires IsListing(u, parent, ids)
    requires forall x :: x in u && u[x].parent == parent ==> x in t && t[x] == u[x]
    requires forall x :: x in t && t[x].parent == parent ==> x in u && t[x] == u[x]
    ensures IsListing(t, parent, ids)
  {
  }

  /** Renumbering the old siblings leaves the freshly placed ones alone. */
  lemma GapClosed<P(!new)>(t: map<Id, Entry<P>>, id: Id, target: P, position: nat, now: string,
                     t2: map<Id, Entry<P>>, oldIds: seq<Id>, t': map<Id, Entry<P>>, dest: seq<Id>)
    requires id in t && t[id].parent != target && t2.Keys == t.Keys && t'.Keys == t.Keys
    requires IsListing(t - {id}, target, dest)
    requires Numbered(t2, Placed(dest, id, position))
    requires t2[id] == t[id].(parent := target, updatedAt := now, sortOrder := AsI32(Min(position, |dest|)))
    requires forall x :: x in t && x != id ==> t2[x] == t[x].(sortOrder := t2[x].sortOrder)
    requires forall x :: x in t && x != id && t[x].parent != target ==> t2[x] == t[x]
    requires IsListing(t2, t[id].parent, oldIds)
    requires forall i :: 0 <= i < |oldIds| ==> t'[oldIds[i]] == t2[oldIds[i]].(sortOrder := AsI32(i))
    requires forall x :: x in t2 && x !in oldIds ==> t'[x] == t2[x]
    ensures MovedAs(t, id, target, position, now, t', dest, oldIds)
  {
    PlacedMembers(dest, id, position);
    SameListing(t - {id}, t2, t[id].parent, oldIds);
    forall x | x in t && x != id
      ensures t'[x] == t[x].(sortOrder := t'[x].sortOrder)
    {
      if x in oldIds {
        var i :| 0 <= i < |oldIds| && oldIds[i] == x;
      }
    }
    forall x | x in Placed(dest, id, position)
      ensures t'[x] == t2[x]
    {
      assert t2[x].parent == target;
    }
  }

  // ---- What a move means for the siblings ----

  ghost function Children<P(!new)>(t: map<Id, Entry<P>>, parent: P): set<Id> {
    set x | x in t && t[x].parent == parent
  }

  /** The children of `parent` carry the sort orders 0..n-1, each exactly once. */
  ghost predicate NumberedFromZero<P(!new)>(t: map<Id, Entry<P>>, parent: P) {
    var c := Children(t, parent);
    && (forall x :: x in c ==> 0 <= t[x].sortOrder < |c|)
    && (forall x, y :: x in c && y in c && x != y ==> t[x].sortOrder != t[y].sortOrder)
  }

  lemma {:induction false} CountDistinct(ids: seq<Id>, s: set<Id>)
    requires NoDup(ids) && forall x :: x in ids <==> x in s
    ensures |ids| == |s|
    decreases |ids|
  {
    if ids == [] {
      assert s == {};
    } else {
      var rest := ids[1..];
      assert ids == [ids[0]] + rest;
      CountDistinct(rest, s - {ids[0]});
    }
  }

  /** Children numbered along a list carry 0..n-1 exactly while the numbers fit an i32. */
  lemma ListedInOrder<P(!new)>(t: map<Id, Entry<P>>, parent: P, ids: seq<Id>)
    requires NoDup(ids) && forall x :: x in ids <==> x in t && t[x].parent == parent
    requires Numbered(t, ids)
    ensures |ids| == |Children(t, parent)|
    ensures NumberedFromZero(t, parent) <==> |ids| <= I32_BOUND
  {
    var c := Children(t, parent);
    CountDistinct(ids, c);
    if |ids| > I32_BOUND {
      assert ids[I32_BOUND] in c && t[ids[I32_BOUND]].sortOrder == AsI32(I32_BOUND) < 0;
    } else {
      forall x | x in c
        ensures 0 <= t[x].sortOrder < |c| && ids[t[x].sortOrder] == x
      {
        var i :| 0 <= i < |ids| && ids[i] == x;
      }
    }
  }

  /** After a move the target's children are numbered 0..n-1, and the old parent's
      remaining children 0..m-1, exactly when there are at most 2^31 of them; the moved row
      is at min(requested, n-1), and no row is gained or lost. */
  lemma MoveNumbersSiblings<P(!new)>(t: map<Id, Entry<P>>, id: Id, target: P, position: nat, now: string,
                               t': map<Id, Entry<P>>)
    requires Moved(t, id, target, position, now, t')
    ensures t'.Keys == t.Keys && id in Children(t', target)
    ensures NumberedFromZero(t', target) <==> |Children(t', target)| <= I32_BOUND
    ensures NumberedFromZero(t', t[id].parent) <==> |Children(t', t[id].parent)| <= I32_BOUND
    ensures t'[id].sortOrder == AsI32(Min(position, |Children(t', target)| - 1))
  {
    var dest, left :| MovedAs(t, id, target, position, now, t', dest, left);
    MovedChildren(t, id, target, position, now, t', dest, left);
    ListedInOrder(t', target, Placed(dest, id, position));
    if t[id].parent != target {
      ListedInOrder(t', t[id].parent, left);
    }
  }

  /** After a move, the two lists are the children of the two parents. */
  lemma MovedChildren<P(!new)>(t: map<Id, Entry<P>>, id: Id, target: P, position: nat, now: string,
                         t': map<Id, Entry<P>>, dest: seq<Id>, left: seq<Id>)
    requires MovedAs(t, id, target, position, now, t', dest, left)
    ensures |t'| == |t| && NoDup(Placed(dest, id, position)) && NoDup(left)
    ensures forall x :: x in Placed(dest, id, position) <==> x in t' && t'[x].parent == target
    ensures t[id].parent != target ==> forall x :: x in left <==> x in t' && t'[x].parent == t[id].parent
  {
    PlacedMembers(dest, id, position);
    assert |t'.Keys| == |t'| && |t.Keys| == |t|;
  }

  /** The other siblings, old and new, keep their relative order. */
  lemma MoveKeepsOrder<P(!new)>(t: map<Id, Entry<P>>, id: Id, target: P, position: nat, now: string,
                          t': map<Id, Entry<P>>, x: Id, y: Id)
    requires Moved(t, id, target, position, now, t')
    requires x in t && |Children(t', t[x].parent)| <= I32_BOUND
    requires y in t && x != id && y != id && t[x].parent == t[y].parent && Before(t[x], t[y])
    requires t[x].parent == target || t[x].parent == t[id].parent
    ensures t'.Keys == t.Keys && t'[x].sortOrder < t'[y].sortOrder
  {
    var dest, left :| MovedAs(t, id, target, position, now, t', dest, left);
    MovedChildren(t, id, target, position, now, t', dest, left);
    var rest := t - {id};
    if t[x].parent == target {
      CountDistinct(Placed(dest, id, position), Children(t', target));
      PlacedInOrder(rest, target, dest, id, position, t', x, y);
    } else {
      CountDistinct(left, Children(t', t[id].parent));
      LeftInOrder(rest, t[id].parent, left, t', x, y);
    }
  }

  lemma LeftInOrder<P(!new)>(t: map<Id, Entry<P>>, parent: P, ids: seq<Id>, t': map<Id, Entry<P>>, x: Id, y: Id)
    requires IsListing(t, parent, ids) && x in ids && y in ids && Before(t[x], t[y]) && |ids| <= I32_BOUND
    requires Numbered(t', ids)
    ensures x in t' && y in t' && t'[x].sortOrder < t'[y].sortOrder
  {
    var i, j := Positions(t, parent, ids, x, y);
  }

  lemma PlacedInOrder<P(!new)>(t: map<Id, Entry<P>>, parent: P, ids: seq<Id>, id: Id, position: nat,
                         t': map<Id, Entry<P>>, x: Id, y: Id)
    requires IsListing(t, parent, ids) && x in ids && y in ids && Before(t[x], t[y]) && |ids| < I32_BOUND
    requires Numbered(t', Placed(ids, id, position))
    ensures x in t' && y in t' && t'[x].sortOrder < t'[y].sortOrder
  {
    var i, j := Positions(t, parent, ids, x, y);
    var at := Min(position, |ids|);
    assert Placed(ids, id, position)[if i < at then i else i + 1] == x;
    assert Placed(ids, id, position)[if j < at then j else j + 1] == y;
  }

  lemma Positions<P(!new)>(t: map<Id, Entry<P>>, parent: P, ids: seq<Id>, x: Id, y: Id) returns (i: nat, j: nat)
    requires IsListing(t, parent, ids) && x in ids && y in ids && Before(t[x], t[y])
    ensures i < j < |ids| && ids[i] == x && ids[j] == y
  {
    i :| i < |ids| && ids[i] == x;
    j :| j < |ids| && ids[j] == y;
    BeforeAsymmetric(t[x], t[y]);
  }

  // ---- The cycle check and the subtree delete ----

  const CYCLE_MESSAGE := "collection tree contains a pre-existing cycle"

  /** The ancestor walk ends on every parent relation and its four outcomes are
      exactly the four shapes a chain can have. */
  method WouldCreateCycle(t: Folders, moved: Id, target: Option<Id>) returns (r: Result<bool>)
    ensures r == Ok(true) <==> OnChain(t, target, moved)
    ensures r == Ok(false) <==> !OnChain(t, target, moved) && ReachesRoot(t, target)
    ensures r.Err? && r.error.NotFound? <==> !OnChain(t, target, moved) && Dangles(t, target)
    ensures r == Err(Validation(CYCLE_MESSAGE)) <==> !OnChain(t, target, moved) && !Ends(t, target)
  {
    var current := target;
    var visited: set<Id> := {};
    ghost var n := 0;
    while current.Some?
      invariant current == Up(t, target, n) && visited <= t.Keys
      invariant forall k :: 0 <= k < n ==> Up(t, target, k).Some? && Up(t, target, k).value in t
      invariant forall k :: 0 <= k < n ==> Up(t, target, k) != Some(moved)
      invariant forall v :: v in visited ==> exists k :: 0 <= k < n && Up(t, target, k) == Some(v)
      decreases t.Keys - visited
    {
      var cur := current.value;
      if cur == moved {
        return Ok(true);
      }
      if cur in visited {
        ghost var i :| 0 <= i < n && Up(t, target, i) == Some(cur);
        CyclicChain(t, target, i, n, moved);
        return Err(Validation(CYCLE_MESSAGE));
      }
      if cur !in t {
        DanglingChain(t, target, n, moved);
        return Err(NotFound("collection parent", cur));
      }
      visited := visited + {cur};
      current := t[cur].parent;
      n := n + 1;
    }
    EndedChain(t, target, n, moved);
    return Ok(false);
  }

  method AnyOrder(s: set<Id>) returns (ids: seq<Id>)
    ensures forall x :: x in ids <==> x in s
  {
    var left := s;
    ids := [];
    while left != {}
      invariant left <= s && forall x :: x in s <==> x in left || x in ids
      decreases left
    {
      var x :| x in left;
      ids, left := ids + [x], left - {x};
    }
  }

  /** The stack walk of `delete_collection_tree`, on any parent relation. */
  method CollectSubtree(t: Folders, root: Id) returns (visited: set<Id>)
    ensures visited == Subtree(t, root)
  {
    visited := {};
    var stack := [root];
    while stack != []
      invariant visited <= Subtree(t, root) && forall x :: x in stack ==> x in Subtree(t, root)
      invariant root in visited || root in stack
      invariant forall c :: c in t && t[c].parent.Some? && t[c].parent.value in visited ==> c in visited || c in stack
      decreases Subtree(t, root) - visited, |stack|
    {
      var current := stack[|stack| - 1];
      assert forall x :: x in stack <==> x == current || x in stack[..|stack| - 1] by {
        assert stack == stack[..|stack| - 1] + [current];
      }
      assert current in Subtree(t, root);
      stack := stack[..|stack| - 1];
      if current !in visited {
        visited := visited + {current};
        var children := AnyOrder(set c | c in t && t[c].parent == Some(current));
        forall c | c in children
          ensures c in Subtree(t, root)
        {
          ChildInSubtree(t, root, current, c);
        }
        stack := stack + children;
      }
    }
    forall x | x in Subtree(t, root)
      ensures x in visited
    {
      if x != root {
        var n: nat :| Up(t, Some(x), n) == Some(root);
        ClosedSetCovers(t, root, visited, x, n);
      }
    }
  }

  function ItemsOutside(items: Items, gone: set<Id>): Items {
    map i | i in items && items[i].parent !in gone :: items[i]
  }

  /** Two passes over the visited set; deleting a folder row also cascades to its items. */
  method DeleteRows(folders: Folders, items: Items, visited: set<Id>) returns (f: Folders, r: Items)
    ensures f == folders - visited
    ensures r == ItemsOutside(items, visited)
  {
    f, r := folders, items;
    var done: set<Id> := {};
    while visited - done != {}
      invariant done <= visited && r == ItemsOutside(items, done)
      decreases visited - done
    {
      var c :| c in visited - done;
      r := ItemsOutside(r, {c});
      done := done + {c};
    }
    done := {};
    while visited - done != {}
      invariant done <= visited && f == folders - done && r == ItemsOutside(items, visited)
      decreases visited - done
    {
      var c :| c in visited - done;
      f := f - {c};
      r := ItemsOutside(r, {c});
      done := done + {c};
    }
  }

  // ---- The store ----

  ghost predicate FolderTargetOk(t: Folders, id: Id, parent: Option<Id>) {
    && (parent.Some? ==> parent.value in t)
    && !OnChain(t, parent, id) && ReachesRoot(t, parent)
  }

  /** When a call succeeds. */
  ghost predicate Accepted(s: State, op: Op) {
    match op
    case UpsertFolder(id, folder) => FolderTargetOk(s.folders, id, folder.parent)
    case MoveFolder(id, parent, _, _) => id in s.folders && FolderTargetOk(s.folders, id, parent)
    case DeleteFolder(_) => true
    case UpsertItem(_, item) => item.parent in s.folders
    case MoveItem(id, collection, _, _) => id in s.items && collection in s.folders
    case DeleteItem(_) => true
  }

  function Stored<P>(e: Entry<P>): Entry<P>
    requires e.sortOrder >= 0
  {
    e.(sortOrder := AsI32(e.sortOrder))
  }

  ghost predicate FromClient(op: Op) {
    match op
    case UpsertFolder(_, e) => 0 <= e.sortOrder < U32_BOUND
    case UpsertItem(_, e) => 0 <= e.sortOrder < U32_BOUND
    case _ => true
  }

  /** One call: a rejected call changes nothing. */
  ghost predicate Step(s: State, op: Op, s': State)
    requires FromClient(op)
  {
    if !Accepted(s, op) then s' == s
    else
      match op
      case UpsertFolder(id, folder) => s' == s.(folders := s.folders[id := Stored(folder)])
      case MoveFolder(id, parent, position, now) =>
        s'.items == s.items && Moved(s.folders, id, parent, position, now, s'.folders)
      case DeleteFolder(id) =>
        var gone := Subtree(s.folders, id);
        && s'.folders == s.folders - gone
        && s'.items == ItemsOutside(s.items, gone)
      case UpsertItem(id, item) => s' == s.(items := s.items[id := Stored(item)])
      case MoveItem(id, collection, position, now) =>
        s'.folders == s.folders && Moved(s.items, id, collection, position, now, s'.items)
      case DeleteItem(id) => s' == s.(items := s.items - {id})
  }

  class CollectionStore {
    var folders: Folders
    var items: Items

    ghost function Contents(): State
      reads this
    {
      State(folders, items)
    }

    constructor ()
      ensures WellFormed(Contents())
    {
      folders, items := map[], map[];
    }

    method CheckTarget(id: Id, parent: Option<Id>) returns (r: Result<()>)
      ensures r.Ok? <==> FolderTargetOk(folders, id, parent)
    {
      if parent.Some? && parent.value !in folders {
        return Err(NotFound("target parent collection", parent.value));
      }
      var cycle := WouldCreateCycle(folders, id, parent);
      if cycle.Err? {
        return Err(cycle.error);
      }
      if cycle.value {
        return Err(Validation("cannot move a folder into its own descendant"));
      }
      return Ok(());
    }

    method UpsertFolder(id: Id, folder: Entry<Option<Id>>) returns (r: Result<()>)
      requires 0 <= folder.sortOrder < U32_BOUND
      modifies this
      ensures r.Ok? <==> old(Accepted(Contents(), Op.UpsertFolder(id, folder)))
      ensures Step(old(Contents()), Op.UpsertFolder(id, folder), Contents())
    {
      r := CheckTarget(id, folder.parent);
      if r.Ok? {
        folders := folders[id := Stored(folder)];
      }
    }

    method MoveFolder(id: Id, parent: Option<Id>, position: nat, now: string) returns (r: Result<()>)
      modifies this
      ensures r.Ok? <==> old(Accepted(Contents(), Op.MoveFolder(id, parent, position, now)))
      ensures Step(old(Contents()), Op.MoveFolder(id, parent, position, now), Contents())
    {
      r := CheckTarget(id, parent);
      if r.Ok? {
        if id !in folders {
          return Err(NotFound("collection", id));
        }
        folders := Rearrange(folders, id, parent, position, now);
      }
    }

    method DeleteFolder(id: Id) returns (r: Result<()>)
      modifies this
      ensures r.Ok? && Step(old(Contents()), Op.DeleteFolder(id), Contents())
    {
      var visited := CollectSubtree(folders, id);
      folders, items := DeleteRows(folders, items, visited);
      return Ok(());
    }

    /** The foreign key on `collection_id` rejects an unknown folder. */
    method UpsertItem(id: Id, item: Entry<Id>) returns (r: Result<()>)
      requires 0 <= item.sortOrder < U32_BOUND
      modifies this
      ensures r.Ok? <==> old(Accepted(Contents(), Op.UpsertItem(id, item)))
      ensures Step(old(Contents()), Op.UpsertItem(id, item), Contents())
    {
      if item.parent !in folders {
        return Err(QueryFailed(if id in items then "update collection item" else "insert collection item"));
      }
      items := items[id := Stored(item)];
      return Ok(());
    }

    method MoveItem(id: Id, collection: Id, position: nat, now: string) returns (r: Result<()>)
      modifies this
      ensures r.Ok? <==> old(Accepted(Contents(), Op.MoveItem(id, collection, position, now)))
      ensures Step(old(Contents()), Op.MoveItem(id, collection, position, now), Contents())
    {
      if id !in items {
        return Err(NotFound("collection item", id));
      }
      if collection !in folders {
        return Err(NotFound("target collection", collection));
      }
      items := Rearrange(items, id, collection, position, now);
      return Ok(());
    }

    method DeleteItem(id: Id) returns (r: Result<()>)
      modifies this
      ensures r.Ok? && Step(old(Contents()), Op.DeleteItem(id), Contents())
    {
      items := items - {id};
      return Ok(());
    }
  }

  // ---- Every run ----

  /** On a forest the check answers exactly "the folder is the target or an ancestor of it". */
  lemma ForestAcceptance(s: State, id: Id, parent: Option<Id>)
    requires IsForest(s.folders)
    ensures FolderTargetOk(s.folders, id, parent)
        <==> (parent.Some? ==> parent.value in s.folders) && !OnChain(s.folders, parent, id)
  {
    if parent.Some? ==> parent.value in s.folders {
      ForestChains(s.folders, parent);
    }
  }

  /** A move gives the entry its new parent and no other entry a different one. */
  lemma MoveReparents<P(!new)>(t: map<Id, Entry<P>>, id: Id, target: P, position: nat, now: string,
                               t': map<Id, Entry<P>>)
    requires Moved(t, id, target, position, now, t')
    ensures id in t && t'.Keys == t.Keys && t'[id].parent == target
    ensures forall x :: x in t && x != id ==> t'[x].parent == t[x].parent
  {
    var dest, left :| MovedAs(t, id, target, position, now, t', dest, left);
  }

  lemma StepKeepsWellFormed(s: State, op: Op, s': State)
    requires WellFormed(s) && FromClient(op) && Step(s, op, s')
    ensures WellFormed(s')
  {
    if Accepted(s, op) {
      match op
      case UpsertFolder(id, folder) =>
        WriteKeepsForest(s.folders, id, Stored(folder));
      case MoveFolder(id, parent, position, now) =>
        MoveReparents(s.folders, id, parent, position, now, s'.folders);
        WriteKeepsForest(s.folders, id, s'.folders[id]);
        SameParentsKeepForest(s.folders[id := s'.folders[id]], s'.folders);
      case DeleteFolder(id) =>
        RemoveSubtreeKeepsForest(s.folders, id);
      case UpsertItem(id, item) =>
      case MoveItem(id, collection, position, now) =>
        MoveReparents(s.items, id, collection, position, now, s'.items);
      case DeleteItem(id) =>
    }
  }

  ghost predicate IsRun(ops: seq<Op>, states: seq<State>) {
    && |states| == |ops| + 1
    && forall i :: 0 <= i < |ops| ==> FromClient(ops[i]) && Step(states[i], ops[i], states[i + 1])
  }

  /** Every state of every run keeps the folders a forest and every item housed. */
  lemma {:induction false} RunsKeepForest(ops: seq<Op>, states: seq<State>, k: nat)
    requires IsRun(ops, states) && WellFormed(states[0]) && k < |states|
    ensures WellFormed(states[k])
    decreases k
  {
    if k > 0 {
      RunsKeepForest(ops, states, k - 1);
      StepKeepsWellFormed(states[k - 1], ops[k - 1], states[k]);
    }
  }
}
