/** slices.SortFunc on elements a strict order tells apart. */
module Sorting {

  ghost predicate StrictOrder<T(!new)>(lt: (T, T) -> bool) {
    && (forall a :: !lt(a, a))
    && (forall a, b, c :: lt(a, b) && lt(b, c) ==> lt(a, c))
  }

  ghost predicate Sorted<T>(lt: (T, T) -> bool, s: seq<T>) {
    forall i, j :: 0 <= i < j < |s| ==> lt(s[i], s[j])
  }

  /** Any two different positions of s are comparable. */
  ghost predicate Comparable<T>(lt: (T, T) -> bool, s: seq<T>) {
    forall i, j :: 0 <= i < j < |s| ==> lt(s[i], s[j]) || lt(s[j], s[i])
  }

  function Insert<T>(lt: (T, T) -> bool, s: seq<T>, e: T): seq<T> {
    if s == [] || lt(e, s[0]) then [e] + s else [s[0]] + Insert(lt, s[1..], e)
  }

  function Sort<T>(lt: (T, T) -> bool, s: seq<T>): seq<T> {
    if s == [] then [] else Insert(lt, Sort(lt, s[1..]), s[0])
  }

  lemma {:induction false} InsertSorts<T(!new)>(lt: (T, T) -> bool, s: seq<T>, e: T)
    requires StrictOrder(lt) && Sorted(lt, s)
    requires forall x :: x in s ==> lt(x, e) || lt(e, x)
    ensures Sorted(lt, Insert(lt, s, e))
    ensures forall x :: x in Insert(lt, s, e) <==> x in s || x == e
  {
    if s != [] {
      var t := s[1..];
      assert s == [s[0]] + t;
      assert forall i :: 0 <= i < |t| ==> t[i] == s[i + 1];
      if !lt(e, s[0]) {
        assert s[0] in s;
        InsertSorts(lt, t, e);
        var r := Insert(lt, t, e);
        forall i | 0 <= i < |r| ensures lt(s[0], r[i]) {
          assert r[i] in t || r[i] == e;
        }
      }
    }
  }

  /** Sorting sorts, and keeps exactly the elements it was given. */
  lemma {:induction false} SortSorts<T(!new)>(lt: (T, T) -> bool, s: seq<T>)
    requires StrictOrder(lt) && Comparable(lt, s)
    ensures Sorted(lt, Sort(lt, s)) && |Sort(lt, s)| == |s|
    ensures forall x :: x in Sort(lt, s) <==> x in s
  {
    if s != [] {
      var t := s[1..];
      assert s == [s[0]] + t;
      assert forall i :: 0 <= i < |t| ==> t[i] == s[i + 1];
      SortSorts(lt, t);
      forall x | x in Sort(lt, t) ensures lt(x, s[0]) || lt(s[0], x) {
        var j :| 0 <= j < |t| && t[j] == x;
      }
      InsertSorts(lt, Sort(lt, t), s[0]);
      InsertLength(lt, Sort(lt, t), s[0]);
    }
  }

  lemma {:induction false} InsertLength<T>(lt: (T, T) -> bool, s: seq<T>, e: T)
    ensures |Insert(lt, s, e)| == |s| + 1
  {
    if s != [] {
      InsertLength(lt, s[1..], e);
    }
  }

  lemma Occupied<T>(s: seq<T>)
    requires s != []
    ensures exists x :: x in s
  {
    assert s[0] in s;
  }

  lemma SameFirst<T(!new)>(lt: (T, T) -> bool, a: seq<T>, b: seq<T>)
    requires StrictOrder(lt) && Sorted(lt, a) && Sorted(lt, b) && a != []
    requires forall x :: x in a <==> x in b
    ensures b != [] && a[0] == b[0]
  {
    assert a[0] in a;
    var j :| 0 <= j < |b| && b[j] == a[0];
    assert b[0] in b;
    var i :| 0 <= i < |a| && a[i] == b[0];
  }

  /** There is only one sorted arrangement of a set of elements. */
  lemma {:induction false} SortedUnique<T(!new)>(lt: (T, T) -> bool, a: seq<T>, b: seq<T>)
    requires StrictOrder(lt) && Sorted(lt, a) && Sorted(lt, b)
    requires forall x :: x in a <==> x in b
    ensures a == b
  {
    if a == [] {
      if b != [] {
        Occupied(b);
      }
    } else {
      SameFirst(lt, a, b);
      var p, q := a[1..], b[1..];
      assert a == [a[0]] + p && b == [b[0]] + q;
      forall x ensures x in p <==> x in q {
        if x in p {
          var i :| 0 <= i < |p| && p[i] == x;
          assert lt(a[0], a[i + 1]) && x in a;
        }
        if x in q {
          var i :| 0 <= i < |q| && q[i] == x;
          assert lt(b[0], b[i + 1]) && x in b;
        }
      }
      SortedUnique(lt, p, q);
    }
  }
}
