/** The index read as a map from key to entry: what each operation does to it. */
module IndexMap {
  import opened Lru
  import opened Eviction

  ghost function Dict(s: seq<Entry>): map<string, Entry> {
    map k | k in KeysOf(s) :: Find(s, k)
  }

  lemma Lookup(s: seq<Entry>)
    requires Distinct(s)
    ensures forall k :: k in Dict(s) <==> Holds(s, k)
    ensures forall e :: e in s ==> e.key in Dict(s) && Dict(s)[e.key] == e
    ensures forall k :: k in Dict(s) ==> Dict(s)[k] in s && Dict(s)[k].key == k
  {
    forall e | e in s ensures Holds(s, e.key) && Find(s, e.key) == e {
      var i :| 0 <= i < |s| && s[i] == e;
    }
    forall k | Holds(s, k) ensures k in Dict(s) {
      var i :| 0 <= i < |s| && s[i].key == k;
      assert s[i] in s;
    }
  }

  /** Two lists with the same entries are the same map. */
  lemma SameDict(a: seq<Entry>, b: seq<Entry>)
    requires Distinct(a) && Distinct(b) && forall e :: e in a <==> e in b
    ensures Dict(a) == Dict(b)
  {
    Lookup(a);
    Lookup(b);
  }

  lemma DictFront(e: Entry, s: seq<Entry>)
    requires Distinct(s) && e.key !in Dict(s)
    ensures Distinct([e] + s) && Dict([e] + s) == Dict(s)[e.key := e]
  {
    hide Dict, Find;
    Lookup(s);
    forall i | 0 <= i < |s| ensures s[i].key != e.key {
      assert s[i] in s;
    }
    Lookup([e] + s);
    assert forall x :: x in [e] + s <==> x == e || x in s;
  }

  lemma DictMinus(s: seq<Entry>, ks: set<string>)
    requires Distinct(s)
    ensures Distinct(Minus(s, ks)) && Dict(Minus(s, ks)) == Dict(s) - ks
  {
    hide Dict, Distinct, Find, Holds;
    MinusKeepsDistinct(s, ks);
    MinusMembers(s, ks);
    Lookup(s);
    Lookup(Minus(s, ks));
  }

  lemma {:induction false} MinusKeepsDistinct(s: seq<Entry>, ks: set<string>)
    requires Distinct(s)
    ensures Distinct(Minus(s, ks))
  {
    if s != [] {
      var t := s[1..];
      MinusKeepsDistinct(t, ks);
      MinusMembers(t, ks);
      forall i | 0 <= i < |Minus(t, ks)| ensures Minus(t, ks)[i].key != s[0].key {
        assert Minus(t, ks)[i] in t;
      }
    }
  }

  /** Removing one key is removing a set of one. */
  lemma {:induction false} WithoutIsMinus(s: seq<Entry>, k: string)
    requires Distinct(s)
    ensures Without(s, k) == Minus(s, {k})
  {
    if s != [] {
      if s[0].key == k {
        MinusNone(s[1..], {k});
      } else {
        WithoutIsMinus(s[1..], k);
      }
    }
  }

  lemma DictWithout(s: seq<Entry>, k: string)
    requires Distinct(s)
    ensures Distinct(Without(s, k)) && Dict(Without(s, k)) == Dict(s) - {k}
  {
    WithoutIsMinus(s, k);
    DictMinus(s, {k});
  }

  lemma DictSet(ix: Index, e: Entry)
    requires Distinct(ix.order)
    ensures Distinct(Set(ix, e).order) && Dict(Set(ix, e).order) == Dict(ix.order)[e.key := e]
  {
    hide Dict, Distinct, Find, Without;
    DictWithout(ix.order, e.key);
    DictFront(e, Without(ix.order, e.key));
  }

  lemma DictAdd(ix: Index, e: Entry)
    requires Distinct(ix.order)
    ensures Distinct(AddIfAbsent(ix, e).order)
    ensures Dict(AddIfAbsent(ix, e).order) ==
            if e.key in Dict(ix.order) || e.key in ix.tombs then Dict(ix.order) else Dict(ix.order)[e.key := e]
  {
    hide Dict, Distinct, Find, Without, Holds;
    Lookup(ix.order);
    if e.key !in Dict(ix.order) {
      DictFront(e, ix.order);
    }
  }

  lemma DictTouch(ix: Index, k: string, at: int)
    requires Distinct(ix.order)
    ensures Distinct(Touch(ix, k, at).order)
    ensures var d := Dict(ix.order);
            Dict(Touch(ix, k, at).order) == if k in d then d[k := d[k].(lastAccess := at)] else d
  {
    hide Dict, Distinct, Find, Without, Holds;
    Lookup(ix.order);
    if Holds(ix.order, k) {
      DictWithout(ix.order, k);
      DictFront(Find(ix.order, k).(lastAccess := at), Without(ix.order, k));
    }
  }

  lemma DictTake(ix: Index, n: int, f: string)
    requires Distinct(ix.order)
    ensures Distinct(TakeLru(ix, n, f).order)
    ensures Dict(TakeLru(ix, n, f).order) == Dict(ix.order) - KeysOf(Take(ix.order, n, f).victims)
  {
    TakeRest(ix.order, n, f);
    DictMinus(ix.order, KeysOf(Take(ix.order, n, f).victims));
  }

  lemma DictFinish(ix: Index)
    requires Distinct(ix.order)
    ensures Distinct(FinishWalk(ix).order) && Dict(FinishWalk(ix).order) == Dict(ix.order)
  {
    SortsByAccess(ix.order);
    SameDict(FinishWalk(ix).order, ix.order);
  }
}
