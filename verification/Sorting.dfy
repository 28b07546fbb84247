/** Sorting by a total preorder, standing for the library sort and ORDER BY. */
module Sorting {

  type Le<!T> = (T, T) -> bool

  ghost predicate TotalPreorder<T(!new)>(le: Le<T>) {
    && (forall a, b :: le(a, b) || le(b, a))
    && (forall a, b, c :: le(a, b) && le(b, c) ==> le(a, c))
  }

  ghost predicate Sorted<T>(s: seq<T>, le: Le<T>) {
    forall i, j :: 0 <= i < j < |s| ==> le(s[i], s[j])
  }

  function Insert<T>(x: T, s: seq<T>, le: Le<T>): (r: seq<T>)
    ensures |r| == |s| + 1
  {
    if s == [] || le(x, s[0]) then [x] + s else [s[0]] + Insert(x, s[1..], le)
  }

  function Sort<T>(s: seq<T>, le: Le<T>): (r: seq<T>)
    ensures |r| == |s|
  {
    if s == [] then [] else Insert(s[0], Sort(s[1..], le), le)
  }

  lemma {:induction false} InsertAdds<T>(x: T, s: seq<T>, le: Le<T>)
    ensures multiset(Insert(x, s, le)) == multiset(s) + multiset{x}
    decreases |s|
  {
    if s != [] && !le(x, s[0]) {
      InsertAdds(x, s[1..], le);
      assert s == [s[0]] + s[1..];
    }
  }

  lemma {:induction false} InsertSorted<T(!new)>(x: T, s: seq<T>, le: Le<T>)
    requires TotalPreorder(le) && Sorted(s, le)
    ensures Sorted(Insert(x, s, le), le)
    decreases |s|
  {
    if s != [] {
      if le(x, s[0]) {
        assert forall i :: 0 <= i < |s| ==> le(x, s[i]);
      } else {
        InsertSorted(x, s[1..], le);
        var rest := Insert(x, s[1..], le);
        InsertAdds(x, s[1..], le);
        forall i | 0 <= i < |rest| ensures le(s[0], rest[i]) {
          assert rest[i] in multiset(rest);
          assert rest[i] == x || rest[i] in s[1..];
        }
      }
    }
  }

  /** The result is a sorted permutation. */
  lemma {:induction false} SortSorts<T(!new)>(s: seq<T>, le: Le<T>)
    requires TotalPreorder(le)
    ensures Sorted(Sort(s, le), le) && multiset(Sort(s, le)) == multiset(s)
    decreases |s|
  {
    if s != [] {
      SortSorts(s[1..], le);
      InsertSorted(s[0], Sort(s[1..], le), le);
      InsertAdds(s[0], Sort(s[1..], le), le);
      assert s == [s[0]] + s[1..];
    }
  }

  /** Elements that tie are equal. */
  ghost predicate NoTies<T>(s: seq<T>, le: Le<T>) {
    forall i, j :: 0 <= i < |s| && 0 <= j < |s| && le(s[i], s[j]) && le(s[j], s[i]) ==> s[i] == s[j]
  }

  lemma Headless<T>(s: seq<T>)
    requires s != []
    ensures multiset(s[1..]) == multiset(s) - multiset{s[0]} && |multiset(s)| == |s|
  {
    assert s == [s[0]] + s[1..];
  }

  /** Two sorted arrangements of the same elements, without ties. */
  ghost predicate Arranged<T>(a: seq<T>, b: seq<T>, le: Le<T>) {
    Sorted(a, le) && Sorted(b, le) && multiset(a) == multiset(b) && NoTies(a, le)
  }

  lemma ArrangedTail<T(!new)>(a: seq<T>, b: seq<T>, le: Le<T>)
    requires TotalPreorder(le) && Arranged(a, b, le) && a != []
    ensures b != [] && a[0] == b[0] && Arranged(a[1..], b[1..], le)
  {
    Headless(a);
    assert |multiset(b)| == |b|;
    Headless(b);
    SameHead(a, b, le);
  }

  /** There is one sorted arrangement of given elements. */
  lemma {:induction false} SortedUnique<T(!new)>(a: seq<T>, b: seq<T>, le: Le<T>)
    requires TotalPreorder(le) && Arranged(a, b, le)
    ensures a == b
    decreases |a|
  {
    if a == [] {
      assert |multiset(b)| == |b| == 0;
    } else {
      ArrangedTail(a, b, le);
      SortedUnique(a[1..], b[1..], le);
      assert a == [a[0]] + a[1..] && b == [b[0]] + b[1..];
    }
  }

  lemma SameHead<T(!new)>(a: seq<T>, b: seq<T>, le: Le<T>)
    requires TotalPreorder(le) && Arranged(a, b, le) && a != [] && b != []
    ensures a[0] == b[0]
  {
    assert b[0] in multiset(a) && a[0] in multiset(b);
    var i :| 0 <= i < |a| && a[i] == b[0];
    var j :| 0 <= j < |b| && b[j] == a[0];
    assert le(a[0], a[i]) && le(b[0], b[j]);
  }
}
