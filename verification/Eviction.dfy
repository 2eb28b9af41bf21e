/** What takeLRU removes, said without the loop that removes it. */
module Eviction {
  import opened Lru

  function Reverse(s: seq<Entry>): (r: seq<Entry>)
    ensures |r| == |s|
  {
    if s == [] then [] else [s[|s| - 1]] + Reverse(s[..|s| - 1])
  }

  /** The candidates f admits, in list order. */
  function Candidates(s: seq<Entry>, f: string): seq<Entry> {
    if f == "" then s else Of(s, f)
  }

  /** The entries whose keys are not in ks, in list order. */
  function Minus(s: seq<Entry>, ks: set<string>): seq<Entry> {
    if s == [] then [] else (if s[0].key in ks then [] else [s[0]]) + Minus(s[1..], ks)
  }

  lemma {:induction false} MinusConcat(a: seq<Entry>, b: seq<Entry>, ks: set<string>)
    ensures Minus(a + b, ks) == Minus(a, ks) + Minus(b, ks)
  {
    if a == [] {
      assert a + b == b;
    } else {
      var x, p, q := if a[0].key in ks then [] else [a[0]], Minus(a[1..], ks), Minus(b, ks);
      MinusConcat(a[1..], b, ks);
      assert (a + b)[0] == a[0] && (a + b)[1..] == a[1..] + b;
      assert Minus(a + b, ks) == x + (p + q);
      assert x + (p + q) == x + p + q;
    }
  }

  lemma {:induction false} MinusNone(s: seq<Entry>, ks: set<string>)
    requires forall e :: e in s ==> e.key !in ks
    ensures Minus(s, ks) == s
  {
    if s != [] {
      MinusNone(s[1..], ks);
    }
  }

  lemma {:induction false} MinusMembers(s: seq<Entry>, ks: set<string>)
    ensures forall e :: e in Minus(s, ks) <==> e in s && e.key !in ks
  {
    if s != [] {
      MinusMembers(s[1..], ks);
      assert s == [s[0]] + s[1..];
    }
  }

  lemma {:induction false} MinusTwice(s: seq<Entry>, a: set<string>, b: set<string>)
    ensures Minus(Minus(s, a), b) == Minus(s, a + b)
  {
    if s != [] {
      MinusTwice(s[1..], a, b);
      MinusConcat(if s[0].key in a then [] else [s[0]], Minus(s[1..], a), b);
    }
  }

  lemma {:induction false} OfMinus(s: seq<Entry>, ks: set<string>, f: string)
    ensures Of(Minus(s, ks), f) == Minus(Of(s, f), ks)
  {
    if s != [] {
      var x, t := s[..1], s[1..];
      OfMinus(t, ks, f);
      OfConcat(if s[0].key in ks then [] else x, Minus(t, ks), f);
      MinusConcat(if s[0].frontend == f then x else [], Of(t, f), ks);
    }
  }

  lemma CandidatesLast(s: seq<Entry>, f: string)
    requires s != []
    ensures var last, init := s[|s| - 1], s[..|s| - 1];
            Candidates(s, f) == Candidates(init, f) + (if Matches(f, last) then [last] else [])
  {
    assert s == s[..|s| - 1] + [s[|s| - 1]];
    OfConcat(s[..|s| - 1], [s[|s| - 1]], f);
  }

  /** Victims are candidates counted from the tail: enough of them for n bytes, or all of them. */
  lemma {:induction false} TakeRun(s: seq<Entry>, n: int, f: string)
    ensures var v := Take(s, n, f).victims;
            && |v| <= |Candidates(s, f)|
            && v == Reverse(Candidates(s, f))[..|v|]
            && (n > 0 ==> Bytes(v) >= n || |v| == |Candidates(s, f)|)
    decreases |s|
  {
    hide Candidates;
    if s == [] || n <= 0 {
      NoCandidates(f);
    } else {
      var last, init := s[|s| - 1], s[..|s| - 1];
      CandidatesLast(s, f);
      if Matches(f, last) {
        TakeRun(init, n - last.onDisk, f);
        BytesConcat([last], Take(init, n - last.onDisk, f).victims);
        var c := Candidates(s, f);
        assert c[..|c| - 1] == Candidates(init, f);
      } else {
        TakeRun(init, n, f);
        assert Candidates(s, f) == Candidates(init, f);
      }
    }
  }

  lemma NoCandidates(f: string)
    ensures Candidates([], f) == []
  {
  }

  /** No shorter run would have done: every proper prefix of the victims falls short of n. */
  lemma {:induction false} TakeStops(s: seq<Entry>, n: int, f: string, k: nat)
    requires k < |Take(s, n, f).victims|
    ensures Bytes(Take(s, n, f).victims[..k]) < n
    decreases |s|
  {
    var last, init := s[|s| - 1], s[..|s| - 1];
    if !Matches(f, last) {
      TakeStops(init, n, f, k);
    } else if k > 0 {
      var w := Take(init, n - last.onDisk, f).victims;
      TakeStops(init, n - last.onDisk, f, k - 1);
      assert ([last] + w)[..k] == [last] + w[..k - 1];
      BytesConcat([last], w[..k - 1]);
    }
  }

  lemma {:induction false} TakeMembers(s: seq<Entry>, n: int, f: string)
    ensures var t := Take(s, n, f);
            && (forall e :: e in t.victims ==> e in s && Matches(f, e))
            && (forall e :: e in s <==> e in t.victims || e in t.rest)
            && Bytes(t.victims) + Bytes(t.rest) == Bytes(s)
    decreases |s|
  {
    if s != [] && n > 0 {
      var last, init := s[|s| - 1], s[..|s| - 1];
      assert s == init + [last];
      TakeLast(init, last, n, f);
      var n' := if Matches(f, last) then n - last.onDisk else n;
      TakeMembers(init, n', f);
      var t := Take(init, n', f);
      hide Take, Bytes, Matches;
      BytesConcat(init, [last]);
      BytesConcat([last], t.victims);
      BytesConcat(t.rest, [last]);
      BytesOne(last);
      assert forall e :: e in s <==> e in init || e == last;
      assert forall e :: e in [last] + t.victims <==> e in t.victims || e == last;
      assert forall e :: e in t.rest + [last] <==> e in t.rest || e == last;
    }
  }

  lemma BytesOne(e: Entry)
    ensures Bytes([e]) == e.onDisk
  {
  }

  lemma MinusLast(init: seq<Entry>, last: Entry, ks: set<string>)
    requires forall e :: e in init ==> e.key != last.key
    ensures Minus(init + [last], ks + {last.key}) == Minus(init, ks)
    ensures last.key !in ks ==> Minus(init + [last], ks) == Minus(init, ks) + [last]
  {
    MinusConcat(init, [last], ks);
    MinusConcat(init, [last], ks + {last.key});
    MinusTwice(init, ks, {last.key});
    MinusMembers(init, ks);
    MinusNone(Minus(init, ks), {last.key});
  }

  lemma KeysOfFront(x: Entry, s: seq<Entry>)
    ensures KeysOf([x] + s) == KeysOf(s) + {x.key}
  {
    assert forall e :: e in [x] + s <==> e == x || e in s;
  }

  lemma DistinctLast(init: seq<Entry>, last: Entry)
    requires Distinct(init + [last])
    ensures Distinct(init) && forall e :: e in init ==> e.key != last.key
  {
    var s := init + [last];
    assert forall i :: 0 <= i < |init| ==> s[i] == init[i] && s[i].key != s[|init|].key;
  }

  /** What is left is the old list without the victims, its order untouched. */
  lemma {:induction false} TakeRest(s: seq<Entry>, n: int, f: string)
    requires Distinct(s)
    ensures Take(s, n, f).rest == Minus(s, KeysOf(Take(s, n, f).victims))
    decreases |s|
  {
    if s == [] || n <= 0 {
      MinusNone(s, KeysOf([]));
    } else {
      var last, init := s[|s| - 1], s[..|s| - 1];
      assert s == init + [last];
      var n' := if Matches(f, last) then n - last.onDisk else n;
      var u := Take(init, n', f).victims;
      DistinctLast(init, last);
      TakeRest(init, n', f);
      TakeMembers(init, n', f);
      TakeLast(init, last, n, f);
      hide Minus, Take, Distinct, KeysOf;
      MinusLast(init, last, KeysOf(u));
      KeysOfFront(last, u);
      KeysOfOnly(u, last.key);
    }
  }

  lemma KeysOfOnly(s: seq<Entry>, k: string)
    requires forall e :: e in s ==> e.key != k
    ensures k !in KeysOf(s)
  {
  }

  lemma TakeLast(init: seq<Entry>, last: Entry, n: int, f: string)
    requires n > 0
    ensures Take(init + [last], n, f) ==
            if Matches(f, last) then
              var t := Take(init, n - last.onDisk, f);
              Taken([last] + t.victims, t.rest)
            else
              var t := Take(init, n, f);
              Taken(t.victims, t.rest + [last])
  {
    var s := init + [last];
    assert s[..|s| - 1] == init;
  }

  /** A restricted pass leaves every other front-end's entries as they were. */
  lemma TakeSpares(s: seq<Entry>, n: int, f: string, g: string)
    requires Distinct(s) && f != "" && g != f
    ensures Of(Take(s, n, f).rest, g) == Of(s, g)
  {
    var v := KeysOf(Take(s, n, f).victims);
    TakeRest(s, n, f);
    TakeMembers(s, n, f);
    OfMinus(s, v, g);
    OfMembers(s, g);
    forall e | e in Of(s, g) ensures e.key !in v {
      assert e in s && e.frontend == g;
    }
    MinusNone(Of(s, g), v);
  }

  lemma OldestLast(s: seq<Entry>, x: Entry)
    requires s != [] && x in s && forall i, j :: 0 <= i < j < |s| ==> s[i].lastAccess >= s[j].lastAccess
    ensures s[|s| - 1].lastAccess <= x.lastAccess
  {
    var i :| 0 <= i < |s| && s[i] == x;
  }

  /** Every victim stands behind every candidate that is spared. */
  lemma {:induction false} TakesFromTail(s: seq<Entry>, n: int, f: string, v: Entry, x: Entry)
                returns (p: nat, q: nat)
    requires v in Take(s, n, f).victims && x in Take(s, n, f).rest && Matches(f, x)
    ensures p < q < |s| && s[p] == x && s[q] == v
    decreases |s|
  {
    var last, init := s[|s| - 1], s[..|s| - 1];
    assert s == init + [last];
    TakeLast(init, last, n, f);
    var n' := if Matches(f, last) then n - last.onDisk else n;
    TakeMembers(init, n', f);
    hide Take;
    if Matches(f, last) && v == last {
      p :| 0 <= p < |init| && init[p] == x;
      q := |s| - 1;
    } else {
      p, q := TakesFromTail(init, n', f, v, x);
    }
  }

  /** No victim was used later than a surviving candidate. */
  lemma {:induction false} TakesOldest(s: seq<Entry>, n: int, f: string, v: Entry, x: Entry)
    requires forall i, j :: 0 <= i < j < |s| ==> s[i].lastAccess >= s[j].lastAccess
    requires v in Take(s, n, f).victims && x in Take(s, n, f).rest && Matches(f, x)
    ensures v.lastAccess <= x.lastAccess
    decreases |s|
  {
    if s != [] && n > 0 {
      var last, init := s[|s| - 1], s[..|s| - 1];
      assert s == init + [last];
      TakeLast(init, last, n, f);
      TakeMembers(s, n, f);
      hide Take;
      if Matches(f, last) && v == last {
        OldestLast(s, x);
      } else {
        TakesOldest(init, if Matches(f, last) then n - last.onDisk else n, f, v, x);
      }
    }
  }

  /** Victims of a restricted pass are a matter of that front-end's own entries. */
  lemma {:induction false} TakeIsLocal(s: seq<Entry>, n: int, f: string)
    requires f != ""
    ensures Take(s, n, f).victims == Take(Of(s, f), n, f).victims
    decreases |s|
  {
    if s != [] {
      var last, init := s[|s| - 1], s[..|s| - 1];
      assert s == init + [last];
      OfConcat(init, [last], f);
      if n > 0 {
        if Matches(f, last) {
          assert Of(s, f)[..|Of(s, f)| - 1] == Of(init, f);
          TakeIsLocal(init, n - last.onDisk, f);
        } else {
          assert Of(s, f) == Of(init, f);
          TakeIsLocal(init, n, f);
        }
      }
    }
  }

  /** Asking for no more than there is frees at least that much. */
  lemma TakeFrees(s: seq<Entry>, n: int, f: string)
    requires n <= Bytes(Candidates(s, f))
    ensures Bytes(Take(s, n, f).victims) >= n || n <= 0
  {
    TakeRun(s, n, f);
    ReverseBytes(Candidates(s, f));
    var v := Take(s, n, f).victims;
    if n > 0 && |v| == |Candidates(s, f)| {
      assert v == Reverse(Candidates(s, f));
    }
  }

  lemma {:induction false} ReverseBytes(s: seq<Entry>)
    ensures Bytes(Reverse(s)) == Bytes(s)
    decreases |s|
  {
    if s != [] {
      var last, init := s[|s| - 1], s[..|s| - 1];
      assert s == init + [last];
      ReverseBytes(init);
      BytesConcat(init, [last]);
      BytesConcat([last], Reverse(init));
    }
  }

  /** Where everything is a candidate and there is enough: the shortest run from the tail, and what
      it leaves is at most what was asked for and more than that less the last victim. */
  lemma TakesLeast(s: seq<Entry>, n: int, f: string)
    requires Distinct(s) && Candidates(s, f) == s && 0 < n <= Bytes(s)
    ensures var t := Take(s, n, f);
            && 0 < |t.victims| <= |s| && t.victims == Reverse(s)[..|t.victims|]
            && t.rest == Minus(s, KeysOf(t.victims))
            && Bytes(s) - n - Reverse(s)[|t.victims| - 1].onDisk < Bytes(t.rest) <= Bytes(s) - n
  {
    hide Take, Minus, KeysOf, Reverse, Candidates, Distinct, Bytes, Matches;
    var v := Take(s, n, f).victims;
    TakeRun(s, n, f);
    TakeFrees(s, n, f);
    NoneHaveNoBytes(v);
    TakeMembers(s, n, f);
    TakeRest(s, n, f);
    TakeStops(s, n, f, |v| - 1);
    LastOf(v);
    assert v[|v| - 1] == Reverse(s)[|v| - 1];
  }

  lemma NoneHaveNoBytes(s: seq<Entry>)
    ensures s == [] ==> Bytes(s) == 0
  {
  }

  lemma LastOf(v: seq<Entry>)
    requires v != []
    ensures Bytes(v) == Bytes(v[..|v| - 1]) + v[|v| - 1].onDisk
  {
    assert v == v[..|v| - 1] + [v[|v| - 1]];
    BytesConcat(v[..|v| - 1], [v[|v| - 1]]);
    BytesOne(v[|v| - 1]);
  }
}
