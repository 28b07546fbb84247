/** Tables whose rows have a primary key and a natural key: collapsing duplicates of
    a natural key, and writing by natural key. */
module KeyedTable {
  import opened Common

  datatype Row<K, V> = Row(key: K, value: V)

  type Order<!I> = (I, I) -> bool

  ghost predicate TotalOrder<I(!new)>(less: Order<I>) {
    && (forall a, b :: less(a, b) ==> !less(b, a))
    && (forall a, b :: a == b || less(a, b) || less(b, a))
    && (forall a, b, c :: less(a, b) && less(b, c) ==> less(a, c))
  }

  /** At most one row per natural key: what a unique index needs to be built. */
  ghost predicate Unique<I, K, V>(t: map<I, Row<K, V>>) {
    forall i, j :: i in t && j in t && t[i].key == t[j].key ==> i == j
  }

  /** `i` is MIN(id) of its natural key's group. */
  predicate IsGroupMin<I(==), K(==), V>(t: map<I, Row<K, V>>, less: Order<I>, i: I) {
    i in t && forall j :: j in t && t[j].key == t[i].key ==> i == j || less(i, j)
  }

  /** DELETE … WHERE id NOT IN (SELECT MIN(id) … GROUP BY key) */
  function Collapse<I(==), K(==), V>(t: map<I, Row<K, V>>, less: Order<I>): map<I, Row<K, V>> {
    map i | i in t && IsGroupMin(t, less, i) :: t[i]
  }

  ghost function Group<I, K, V>(t: map<I, Row<K, V>>, k: K): set<I> {
    set i | i in t && t[i].key == k
  }

  lemma {:induction false} LeastOf<I(!new)>(ids: set<I>, less: Order<I>) returns (least: I)
    requires TotalOrder(less) && ids != {}
    ensures least in ids && forall j :: j in ids ==> least == j || less(least, j)
    decreases |ids|
  {
    var some :| some in ids;
    if ids == {some} {
      return some;
    }
    var rest := ids - {some};
    var next := LeastOf(rest, less);
    least := if less(next, some) then next else some;
    assert forall j :: j in ids ==> j == some || j in rest;
  }

  /** Exactly the minimum row of each natural key survives, unchanged. */
  lemma CollapseKeepsMinimum<I(!new), K, V>(t: map<I, Row<K, V>>, less: Order<I>, k: K) returns (least: I)
    requires TotalOrder(less) && exists i :: i in t && t[i].key == k
    ensures Group(Collapse(t, less), k) == {least} && IsGroupMin(t, less, least)
    ensures Collapse(t, less)[least] == t[least]
  {
    var member :| member in t && t[member].key == k;
    assert member in Group(t, k);
    least := LeastOf(Group(t, k), less);
    forall i | i in Collapse(t, less) && t[i].key == k ensures i == least {
      assert least in Group(t, k) && i in Group(t, k);
    }
  }

  /** A row goes exactly when a smaller row has its natural key; no other row changes. */
  lemma CollapseDeletes<I(!new), K, V>(t: map<I, Row<K, V>>, less: Order<I>, i: I)
    requires TotalOrder(less) && i in t
    ensures i !in Collapse(t, less) <==> exists j :: j in t && t[j].key == t[i].key && less(j, i)
    ensures i in Collapse(t, less) ==> Collapse(t, less)[i] == t[i]
  {
    if i !in Collapse(t, less) {
      var j :| j in t && t[j].key == t[i].key && i != j && !less(i, j);
      assert less(j, i);
    }
  }

  lemma CollapseIsUnique<I(!new), K, V>(t: map<I, Row<K, V>>, less: Order<I>)
    requires TotalOrder(less)
    ensures Unique(Collapse(t, less))
  {
    var c := Collapse(t, less);
    forall i, j | i in c && j in c && c[i].key == c[j].key ensures i == j {
      assert IsGroupMin(t, less, i) && IsGroupMin(t, less, j);
    }
  }

  /** Where the index already holds there is nothing to collapse. */
  lemma CollapseOfUnique<I(!new), K, V>(t: map<I, Row<K, V>>, less: Order<I>)
    requires Unique(t)
    ensures Collapse(t, less) == t
  {
    forall i | i in t ensures IsGroupMin(t, less, i) {
    }
  }

  lemma CollapseIdempotent<I(!new), K, V>(t: map<I, Row<K, V>>, less: Order<I>)
    requires TotalOrder(less)
    ensures Collapse(Collapse(t, less), less) == Collapse(t, less)
  {
    CollapseIsUnique(t, less);
    CollapseOfUnique(Collapse(t, less), less);
  }

  // ---- Writing by natural key ----

  datatype Var<I, K, V> = Var(id: I, key: K, value: V)

  predicate Has<I(==), K(==), V>(t: map<I, Row<K, V>>, k: K) {
    exists i :: i in t && t[i].key == k
  }

  function Holder<I(!new, ==), K(==), V>(t: map<I, Row<K, V>>, k: K): (i: I)
    requires Unique(t) && Has(t, k)
    ensures i in t && t[i].key == k
  {
    assert forall a, b :: a in t && b in t && t[a].key == k && t[b].key == k ==> a == b;
    var i :| i in t && t[i].key == k;
    i
  }

  /** INSERT … ON CONFLICT(key) DO UPDATE SET value: a taken natural key is updated in
      place, otherwise the id must be new and the parent row must exist. */
  function Upsert<I(!new, ==), K(==), V>(t: map<I, Row<K, V>>, parent: K -> bool, v: Var<I, K, V>)
    : Result<map<I, Row<K, V>>>
    requires Unique(t)
  {
    if Has(t, v.key) then Ok(t[Holder(t, v.key) := Row(v.key, v.value)])
    else if v.id in t || !parent(v.key) then Err(QueryFailed("upsert variable"))
    else Ok(t[v.id := Row(v.key, v.value)])
  }

  /** An upsert keeps natural keys unique, sets its own key's value and touches no other row. */
  lemma UpsertWrites<I(!new), K, V>(t: map<I, Row<K, V>>, parent: K -> bool, v: Var<I, K, V>)
    requires Unique(t)
    requires Upsert(t, parent, v).Ok?
    ensures var u := Upsert(t, parent, v).value;
            && Unique(u) && Has(u, v.key)
            && Holder(u, v.key) == (if Has(t, v.key) then Holder(t, v.key) else v.id)
            && u[Holder(u, v.key)].value == v.value
            && OthersKept(t, u, v.key)
  {
    var u := Upsert(t, parent, v).value;
    var i := if Has(t, v.key) then Holder(t, v.key) else v.id;
    assert i in u && u[i] == Row(v.key, v.value);
    assert Unique(u);
  }

  ghost predicate OthersKept<I, K, V>(t: map<I, Row<K, V>>, u: map<I, Row<K, V>>, k: K) {
    && (forall i :: i in u && u[i].key != k ==> i in t && u[i] == t[i])
    && (forall i :: i in t && t[i].key != k ==> i in u && u[i] == t[i])
  }

  // ---- Replacing a set of keys ----

  function Cleared<I(==), K(==), V>(t: map<I, Row<K, V>>, cleared: K -> bool): map<I, Row<K, V>> {
    map i | i in t && !cleared(t[i].key) :: t[i]
  }

  /** Upserts in order, stopping at the first error. */
  function UpsertAll<I(!new, ==), K(==), V>(t: map<I, Row<K, V>>, parent: K -> bool,
                                            vars: seq<Var<I, K, V>>): (r: Result<map<I, Row<K, V>>>)
    requires Unique(t)
    ensures r.Ok? ==> Unique(r.value)
    decreases |vars|
  {
    if vars == [] then Ok(t)
    else
      var before := UpsertAll(t, parent, vars[..|vars| - 1]);
      if before.Err? then before
      else
        assert Upsert(before.value, parent, vars[|vars| - 1]).Ok?
               ==> Unique(Upsert(before.value, parent, vars[|vars| - 1]).value) by {
          if Upsert(before.value, parent, vars[|vars| - 1]).Ok? {
            UpsertWrites(before.value, parent, vars[|vars| - 1]);
          }
        }
        Upsert(before.value, parent, vars[|vars| - 1])
  }

  ghost predicate Writes<I, K, V>(vars: seq<Var<I, K, V>>, k: K) {
    exists i :: 0 <= i < |vars| && vars[i].key == k
  }

  /** The last variable written for the key. */
  function LastFor<I, K(==), V>(vars: seq<Var<I, K, V>>, k: K): Var<I, K, V>
    requires Writes(vars, k)
    decreases |vars|
  {
    var last := vars[|vars| - 1];
    if last.key == k then last else
    assert Writes(vars[..|vars| - 1], k) by {
      var i :| 0 <= i < |vars| && vars[i].key == k;
      assert vars[..|vars| - 1][i].key == k;
    }
    LastFor(vars[..|vars| - 1], k)
  }

  /** The first variable written for the key. */
  function FirstFor<I, K(==), V>(vars: seq<Var<I, K, V>>, k: K): Var<I, K, V>
    requires Writes(vars, k)
    decreases |vars|
  {
    if vars[0].key == k then vars[0] else
    assert Writes(vars[1..], k) by {
      var i :| 0 <= i < |vars| && vars[i].key == k;
      assert vars[1..][i - 1].key == k;
    }
    FirstFor(vars[1..], k)
  }

  lemma {:induction false} FirstForPrefix<I, K, V>(vars: seq<Var<I, K, V>>, last: Var<I, K, V>, k: K)
    requires Writes(vars, k)
    ensures Writes(vars + [last], k) && FirstFor(vars + [last], k) == FirstFor(vars, k)
    decreases |vars|
  {
    var i :| 0 <= i < |vars| && vars[i].key == k;
    assert (vars + [last])[i].key == k;
    if vars[0].key != k {
      assert vars[1..][i - 1].key == k;
      FirstForPrefix(vars[1..], last, k);
      assert (vars + [last])[1..] == vars[1..] + [last];
    }
  }

  lemma {:induction false} FirstForNew<I, K, V>(vars: seq<Var<I, K, V>>, last: Var<I, K, V>)
    requires !Writes(vars, last.key)
    ensures Writes(vars + [last], last.key) && FirstFor(vars + [last], last.key) == last
    decreases |vars|
  {
    assert (vars + [last])[|vars|].key == last.key;
    if vars != [] {
      assert vars[0].key != last.key;
      assert !Writes(vars[1..], last.key) by {
        assert forall i :: 0 <= i < |vars[1..]| ==> vars[1..][i] == vars[i + 1];
      }
      FirstForNew(vars[1..], last);
      assert (vars + [last])[1..] == vars[1..] + [last];
    }
  }

  /** The outcome of a sequence of upserts at one key. */
  ghost predicate WrittenAt<I(!new), K, V>(t: map<I, Row<K, V>>, vars: seq<Var<I, K, V>>, u: map<I, Row<K, V>>, k: K)
    requires Unique(t) && Unique(u)
  {
    if Writes(vars, k) then
      && Has(u, k) && u[Holder(u, k)].value == LastFor(vars, k).value
      && Holder(u, k) == if Has(t, k) then Holder(t, k) else FirstFor(vars, k).id
    else Group(u, k) == Group(t, k) && forall i :: i in Group(t, k) ==> u[i] == t[i]
  }

  /** Last writer wins: each written key holds the last value under the existing or
      first id, and every other key keeps its rows. */
  lemma {:induction false} LastWriterWins<I(!new), K, V>(t: map<I, Row<K, V>>, parent: K -> bool,
                                                         vars: seq<Var<I, K, V>>, k: K)
    requires Unique(t) && UpsertAll(t, parent, vars).Ok?
    ensures WrittenAt(t, vars, UpsertAll(t, parent, vars).value, k)
    decreases |vars|
  {
    if vars != [] {
      var n := |vars| - 1;
      var before, last := vars[..n], vars[n];
      assert vars == before + [last];
      var mid := UpsertAll(t, parent, before).value;
      LastWriterWins(t, parent, before, k);
      UpsertWrites(mid, parent, last);
      WriteOneMore(t, before, mid, last, UpsertAll(t, parent, vars).value, k);
    }
  }

  lemma WriteOneMore<I(!new), K, V>(t: map<I, Row<K, V>>, before: seq<Var<I, K, V>>, mid: map<I, Row<K, V>>,
                                    last: Var<I, K, V>, u: map<I, Row<K, V>>, k: K)
    requires Unique(t) && Unique(mid) && Unique(u) && WrittenAt(t, before, mid, k)
    requires Has(u, last.key) && u[Holder(u, last.key)].value == last.value && OthersKept(mid, u, last.key)
    requires Holder(u, last.key) == (if Has(mid, last.key) then Holder(mid, last.key) else last.id)
    ensures WrittenAt(t, before + [last], u, k)
  {
    var vars := before + [last];
    assert vars[..|before|] == before && vars[|before|] == last;
    if last.key == k {
      if Writes(before, k) {
        FirstForPrefix(before, last, k);
      } else {
        FirstForNew(before, last);
        assert Has(mid, k) <==> Has(t, k) by {
          assert forall i :: i in mid && mid[i].key == k <==> i in Group(mid, k);
          assert forall i :: i in t && t[i].key == k <==> i in Group(t, k);
        }
        if Has(t, k) {
          assert Holder(t, k) in Group(mid, k);
        }
      }
    } else {
      assert Writes(vars, k) <==> Writes(before, k) by {
        assert forall i :: 0 <= i < |before| ==> vars[i] == before[i];
      }
      assert Group(u, k) == Group(mid, k);
      if Writes(before, k) {
        FirstForPrefix(before, last, k);
        assert Holder(mid, k) in Group(u, k);
      }
    }
  }

  /** The i-th variable is the first with its key, and its key is not in the table. */
  ghost predicate Inserts<I, K, V>(t: map<I, Row<K, V>>, vars: seq<Var<I, K, V>>, i: nat)
    requires i < |vars|
  {
    !Has(t, vars[i].key) && !Writes(vars[..i], vars[i].key)
  }

  /** What an insert needs: a parent, and an id that no row and no earlier insert has. */
  ghost predicate CanInsert<I, K, V>(t: map<I, Row<K, V>>, parent: K -> bool, vars: seq<Var<I, K, V>>, i: nat)
    requires i < |vars|
  {
    && parent(vars[i].key) && vars[i].id !in t
    && forall j :: 0 <= j < i && Inserts(t, vars, j) ==> vars[j].id != vars[i].id
  }

  ghost predicate Acceptable<I, K, V>(t: map<I, Row<K, V>>, parent: K -> bool, vars: seq<Var<I, K, V>>) {
    forall i :: 0 <= i < |vars| && Inserts(t, vars, i) ==> CanInsert(t, parent, vars, i)
  }

  ghost function InsertedIds<I, K, V>(t: map<I, Row<K, V>>, vars: seq<Var<I, K, V>>): set<I> {
    set i | 0 <= i < |vars| && Inserts(t, vars, i) :: vars[i].id
  }

  lemma InsertsInPrefix<I, K, V>(t: map<I, Row<K, V>>, before: seq<Var<I, K, V>>, last: Var<I, K, V>)
    ensures forall i :: 0 <= i < |before| ==> (Inserts(t, before + [last], i) <==> Inserts(t, before, i))
    ensures Inserts(t, before + [last], |before|) <==> !Has(t, last.key) && !Writes(before, last.key)
  {
    var vars := before + [last];
    forall i | 0 <= i < |before| ensures Inserts(t, vars, i) <==> Inserts(t, before, i) {
      assert vars[..i] == before[..i] && vars[i] == before[i];
    }
    assert vars[..|before|] == before;
  }

  lemma AcceptablePlus<I, K, V>(t: map<I, Row<K, V>>, parent: K -> bool, before: seq<Var<I, K, V>>, last: Var<I, K, V>)
    ensures Acceptable(t, parent, before + [last])
            <==> Acceptable(t, parent, before)
                 && (!Has(t, last.key) && !Writes(before, last.key)
                     ==> parent(last.key) && last.id !in t && last.id !in InsertedIds(t, before))
    ensures InsertedIds(t, before + [last])
            == InsertedIds(t, before) + if !Has(t, last.key) && !Writes(before, last.key) then {last.id} else {}
  {
    var vars := before + [last];
    InsertsInPrefix(t, before, last);
    assert forall i :: 0 <= i < |before| && Inserts(t, before, i)
             ==> (CanInsert(t, parent, vars, i) <==> CanInsert(t, parent, before, i)) by {
      assert forall i :: 0 <= i < |before| ==> vars[i] == before[i];
    }
    assert vars[|before|] == last;
    assert Inserts(t, vars, |before|) ==> (CanInsert(t, parent, vars, |before|)
        <==> parent(last.key) && last.id !in t && last.id !in InsertedIds(t, before));
  }

  /** Replacing succeeds exactly when every variable that has to be inserted can be. */
  lemma {:induction false} AcceptedExactly<I(!new), K, V>(t: map<I, Row<K, V>>, parent: K -> bool,
                                                          vars: seq<Var<I, K, V>>)
    requires Unique(t)
    ensures UpsertAll(t, parent, vars).Ok? <==> Acceptable(t, parent, vars)
    ensures UpsertAll(t, parent, vars).Ok? ==> UpsertAll(t, parent, vars).value.Keys == t.Keys + InsertedIds(t, vars)
    decreases |vars|
  {
    if vars != [] {
      var n := |vars| - 1;
      var before, last := vars[..n], vars[n];
      assert vars == before + [last];
      AcceptedExactly(t, parent, before);
      AcceptablePlus(t, parent, before, last);
      if UpsertAll(t, parent, before).Ok? {
        var mid := UpsertAll(t, parent, before).value;
        LastWriterWins(t, parent, before, last.key);
        assert Has(mid, last.key) <==> Has(t, last.key) || Writes(before, last.key) by {
          assert forall i :: i in mid && mid[i].key == last.key <==> i in Group(mid, last.key);
          assert forall i :: i in t && t[i].key == last.key <==> i in Group(t, last.key);
          if Has(t, last.key) && !Writes(before, last.key) {
            assert Holder(t, last.key) in Group(mid, last.key);
          }
        }
      }
    }
  }
}
