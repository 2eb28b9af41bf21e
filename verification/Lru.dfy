/** The value the disk index stands for: objects from most to least recently
    used, plus what protects a start-up walk from concurrent deletes. The
    pointer structure that carries it is LruIndex.Index. */
module Lru {
  import opened Keys
  import opened Sorting

  /** What an object occupies beside its body. */
  const HEADER := 1024

  datatype Entry = Entry(key: string, frontend: string, size: int, onDisk: int, lastAccess: int, immutable: bool)

  datatype Index = Index(order: seq<Entry>, cold: bool, tombs: set<string>)

  ghost predicate Distinct(s: seq<Entry>) {
    forall i, j :: 0 <= i < j < |s| ==> s[i].key != s[j].key
  }

  function KeysOf(s: seq<Entry>): set<string> {
    set e | e in s :: e.key
  }

  lemma KeysOfAppend(s: seq<Entry>, e: Entry)
    ensures KeysOf(s + [e]) == KeysOf(s) + {e.key}
  {
    assert forall x :: x in s + [e] <==> x in s || x == e;
  }

  predicate Holds(s: seq<Entry>, k: string) {
    exists i :: 0 <= i < |s| && s[i].key == k
  }

  /* ---- totals ---- */

  function Bytes(s: seq<Entry>): int {
    if s == [] then 0 else s[0].onDisk + Bytes(s[1..])
  }

  /** The entries one front-end owns, in order. */
  function Of(s: seq<Entry>, f: string): seq<Entry> {
    if s == [] then [] else (if s[0].frontend == f then [s[0]] else []) + Of(s[1..], f)
  }

  lemma {:induction false} BytesConcat(a: seq<Entry>, b: seq<Entry>)
    ensures Bytes(a + b) == Bytes(a) + Bytes(b)
  {
    if a == [] {
      assert a + b == b;
    } else {
      BytesConcat(a[1..], b);
      assert (a + b)[1..] == a[1..] + b;
    }
  }

  lemma {:induction false} OfConcat(a: seq<Entry>, b: seq<Entry>, f: string)
    ensures Of(a + b, f) == Of(a, f) + Of(b, f)
  {
    if a == [] {
      assert a + b == b;
    } else {
      var x, p, q := if a[0].frontend == f then [a[0]] else [], Of(a[1..], f), Of(b, f);
      OfConcat(a[1..], b, f);
      assert (a + b)[0] == a[0] && (a + b)[1..] == a[1..] + b;
      assert Of(a + b, f) == x + (p + q);
      assert x + (p + q) == x + p + q;
    }
  }

  lemma {:induction false} OfMembers(s: seq<Entry>, f: string)
    ensures forall e :: e in Of(s, f) <==> e in s && e.frontend == f
  {
    if s != [] {
      OfMembers(s[1..], f);
      assert s == [s[0]] + s[1..];
    }
  }

  /** Totals of a front-end as the entry at i leaves. */
  lemma TotalsWithoutAt(s: seq<Entry>, i: nat, f: string)
    requires i < |s|
    ensures var r := s[..i] + s[i + 1..];
            && Bytes(r) == Bytes(s) - s[i].onDisk
            && (s[i].frontend == f ==>
                  |Of(r, f)| == |Of(s, f)| - 1 && Bytes(Of(r, f)) == Bytes(Of(s, f)) - s[i].onDisk)
            && (s[i].frontend != f ==> Of(r, f) == Of(s, f))
  {
    var a, x, b := s[..i], [s[i]], s[i + 1..];
    assert s == a + (x + b);
    BytesConcat(a, x + b);
    BytesConcat(x, b);
    BytesConcat(a, b);
    OfConcat(a, x + b, f);
    OfConcat(x, b, f);
    OfConcat(a, b, f);
    assert Of(x, f) == if s[i].frontend == f then x else [];
    BytesConcat(Of(a, f), Of(x, f) + Of(b, f));
    BytesConcat(Of(x, f), Of(b, f));
    BytesConcat(Of(a, f), Of(b, f));
  }

  /** Totals of a front-end as an entry arrives at the front. */
  lemma TotalsWithFront(x: Entry, s: seq<Entry>, f: string)
    ensures Bytes([x] + s) == Bytes(s) + x.onDisk
    ensures x.frontend == f ==> Of([x] + s, f) == [x] + Of(s, f)
    ensures x.frontend == f ==> Bytes(Of([x] + s, f)) == Bytes(Of(s, f)) + x.onDisk
    ensures x.frontend != f ==> Of([x] + s, f) == Of(s, f)
  {
    assert ([x] + s)[1..] == s;
    BytesConcat([x], Of(s, f));
  }

  /* ---- operations ---- */

  /** The list without the entry for k. */
  function Without(s: seq<Entry>, k: string): seq<Entry> {
    if s == [] then [] else if s[0].key == k then s[1..] else [s[0]] + Without(s[1..], k)
  }

  lemma {:induction false} WithoutAt(s: seq<Entry>, i: nat)
    requires i < |s| && Distinct(s)
    ensures Without(s, s[i].key) == s[..i] + s[i + 1..]
  {
    if i > 0 {
      assert s[0].key != s[i].key;
      WithoutAt(s[1..], i - 1);
      assert s[1..][..i - 1] == s[1..i];
      assert s[..i] == [s[0]] + s[1..i];
    }
  }

  lemma {:induction false} WithoutAbsent(s: seq<Entry>, k: string)
    requires !Holds(s, k)
    ensures Without(s, k) == s
  {
    if s != [] {
      assert s[0].key != k;
      assert forall i :: 0 <= i < |s[1..]| ==> s[1..][i] == s[i + 1];
      WithoutAbsent(s[1..], k);
    }
  }

  function Find(s: seq<Entry>, k: string): (r: Entry)
    requires Holds(s, k)
    ensures r in s && r.key == k
  {
    if s[0].key == k then s[0]
    else
      assert Holds(s[1..], k) by {
        var i :| 0 <= i < |s| && s[i].key == k;
        assert s[1..][i - 1].key == k;
      }
      Find(s[1..], k)
  }

  function Set(ix: Index, e: Entry): Index {
    ix.(order := [e] + Without(ix.order, e.key), tombs := ix.tombs - {e.key})
  }

  function AddIfAbsent(ix: Index, e: Entry): Index {
    if Holds(ix.order, e.key) || e.key in ix.tombs then ix
    else ix.(order := [e] + ix.order)
  }

  function Touch(ix: Index, k: string, at: int): Index {
    if Holds(ix.order, k) then
      ix.(order := [Find(ix.order, k).(lastAccess := at)] + Without(ix.order, k))
    else ix
  }

  function Remove(ix: Index, k: string): Index {
    ix.(order := Without(ix.order, k), tombs := if ix.cold then ix.tombs + {k} else ix.tombs)
  }

  /* ---- eviction ---- */

  /** "" restricts nothing, which is how takeLRU reads it. */
  predicate Matches(f: string, e: Entry) {
    f == "" || e.frontend == f
  }

  datatype Taken = Taken(victims: seq<Entry>, rest: seq<Entry>)

  /** Entries matching f, from the tail, until n bytes have been counted. */
  function Take(s: seq<Entry>, n: int, f: string): Taken {
    if s == [] || n <= 0 then Taken([], s)
    else
      var last, init := s[|s| - 1], s[..|s| - 1];
      if Matches(f, last) then
        var t := Take(init, n - last.onDisk, f);
        Taken([last] + t.victims, t.rest)
      else
        var t := Take(init, n, f);
        Taken(t.victims, t.rest + [last])
  }

  lemma TakeDone(s: seq<Entry>, n: int, f: string)
    requires s == [] || n <= 0
    ensures Take(s, n, f) == Taken([], s) && KeysOf([]) == {}
  {
  }

  lemma TakeUnfold(s: seq<Entry>, j: nat, n: int, f: string)
    requires 0 < j <= |s| && n > 0
    ensures Take(s[..j], n, f) ==
            if Matches(f, s[j - 1]) then
              var t := Take(s[..j - 1], n - s[j - 1].onDisk, f);
              Taken([s[j - 1]] + t.victims, t.rest)
            else
              var t := Take(s[..j - 1], n, f);
              Taken(t.victims, t.rest + [s[j - 1]])
  {
    assert s[..j][..j - 1] == s[..j - 1];
  }

  /** A take of n from s that has come down to position j, with m still to find. */
  ghost predicate Taking(s: seq<Entry>, n: int, f: string, j: int, m: int, victims: seq<Entry>, kept: seq<Entry>) {
    0 <= j <= |s| && var t := Take(s[..j], m, f); Take(s, n, f) == Taken(victims + t.victims, t.rest + kept)
  }

  lemma TakingStart(s: seq<Entry>, n: int, f: string)
    ensures Taking(s, n, f, |s|, n, [], [])
  {
    assert s[..|s|] == s;
  }

  lemma TakingStep(s: seq<Entry>, n: int, f: string, j: int, m: int, victims: seq<Entry>, kept: seq<Entry>)
    requires Taking(s, n, f, j, m, victims, kept) && j > 0 && m > 0
    ensures var e := s[j - 1];
            if Matches(f, e) then Taking(s, n, f, j - 1, m - e.onDisk, victims + [e], kept)
            else Taking(s, n, f, j - 1, m, victims, [e] + kept)
  {
    TakeUnfold(s, j, m, f);
    hide Take;
    var e := s[j - 1];
    var t := Take(s[..j - 1], if Matches(f, e) then m - e.onDisk else m, f);
    assert victims + ([e] + t.victims) == victims + [e] + t.victims;
    assert t.rest + [e] + kept == t.rest + ([e] + kept);
  }

  lemma TakingEnds(s: seq<Entry>, n: int, f: string, j: int, m: int, victims: seq<Entry>, kept: seq<Entry>)
    requires Taking(s, n, f, j, m, victims, kept) && (j == 0 || m <= 0)
    ensures Take(s, n, f) == Taken(victims, s[..j] + kept)
  {
    TakeDone(s[..j], m, f);
    assert victims + [] == victims;
  }

  function TakeLru(ix: Index, n: int, f: string): Index {
    var t := Take(ix.order, n, f);
    ix.(order := t.rest, tombs := if ix.cold then ix.tombs + KeysOf(t.victims) else ix.tombs)
  }

  /* ---- order repair after the walk ---- */

  /** Newest first, the key as a tie-break. */
  predicate Newer(a: Entry, b: Entry) {
    a.lastAccess > b.lastAccess || (a.lastAccess == b.lastAccess && Less(a.key, b.key))
  }

  function SortByAccess(s: seq<Entry>): seq<Entry> {
    Sort(Newer, s)
  }

  function FinishWalk(ix: Index): Index {
    Index(SortByAccess(ix.order), false, {})
  }

  lemma NewerOrders()
    ensures StrictOrder(Newer)
  {
    forall a: Entry ensures !Newer(a, a) {
      LessIrreflexive(a.key);
    }
    forall a, b, c | Newer(a, b) && Newer(b, c) ensures Newer(a, c) {
      if a.lastAccess == b.lastAccess == c.lastAccess {
        LessTransitive(a.key, b.key, c.key);
      }
    }
  }

  /** The repaired order is newest first and holds exactly what it held. */
  lemma SortsByAccess(s: seq<Entry>)
    requires Distinct(s)
    ensures Sorted(Newer, SortByAccess(s)) && Distinct(SortByAccess(s)) && |SortByAccess(s)| == |s|
    ensures forall x :: x in SortByAccess(s) <==> x in s
  {
    NewerOrders();
    forall i, j | 0 <= i < j < |s| ensures Newer(s[i], s[j]) || Newer(s[j], s[i]) {
      LessTotal(s[i].key, s[j].key);
    }
    SortSorts(Newer, s);
    var r := SortByAccess(s);
    forall i, j | 0 <= i < j < |r| ensures r[i].key != r[j].key {
      assert Newer(r[i], r[j]) && r[i] in s && r[j] in s;
      assert r[i] != r[j];
    }
  }

  lemma {:induction false} InsertTotals(s: seq<Entry>, e: Entry, f: string)
    ensures Bytes(Insert(Newer, s, e)) == e.onDisk + Bytes(s)
    ensures var r := Insert(Newer, s, e);
            |Of(r, f)| == |Of([e] + s, f)| && Bytes(Of(r, f)) == Bytes(Of([e] + s, f))
  {
    hide Of, Bytes, Newer;
    TotalsWithFront(e, s, f);
    if s != [] && !Newer(e, s[0]) {
      var t := s[1..];
      assert s == [s[0]] + t;
      InsertTotals(t, e, f);
      TotalsWithFront(e, t, f);
      TotalsWithFront(s[0], t, f);
      TotalsWithFront(s[0], Insert(Newer, t, e), f);
    }
  }

  lemma {:induction false} SortTotals(s: seq<Entry>, f: string)
    ensures Bytes(SortByAccess(s)) == Bytes(s)
    ensures |Of(SortByAccess(s), f)| == |Of(s, f)| && Bytes(Of(SortByAccess(s), f)) == Bytes(Of(s, f))
  {
    hide Of, Bytes, Insert, Newer;
    if s != [] {
      var t := s[1..];
      assert s == [s[0]] + t;
      SortTotals(t, f);
      InsertTotals(SortByAccess(t), s[0], f);
      TotalsWithFront(s[0], t, f);
      TotalsWithFront(s[0], SortByAccess(t), f);
    }
  }

  /* ---- persistence, on records ---- */

  datatype Record = Record(key: string, size: int, onDisk: int, lastAccess: int, immutable: bool)

  function RecordOf(e: Entry): Record {
    Record(e.key, e.size, e.onDisk, e.lastAccess, e.immutable)
  }

  /** What save writes: most recently used first. */
  function Records(s: seq<Entry>): (r: seq<Record>)
    ensures |r| == |s| && forall i :: 0 <= i < |s| ==> r[i] == RecordOf(s[i])
  {
    if s == [] then [] else [RecordOf(s[0])] + Records(s[1..])
  }

  predicate Usable(r: Record) {
    r.key != "" && r.onDisk > 0
  }

  function EntryOf(r: Record): Entry {
    Entry(r.key, FrontendDir(r.key), r.size, r.onDisk, r.lastAccess, r.immutable)
  }

  /** What load rebuilds: the usable records, in their order. */
  function Loaded(rs: seq<Record>): seq<Entry> {
    if rs == [] then [] else (if Usable(rs[0]) then [EntryOf(rs[0])] else []) + Loaded(rs[1..])
  }

  lemma LoadedNext(rs: seq<Record>, i: nat)
    requires i < |rs|
    ensures Loaded(rs[i..]) == (if Usable(rs[i]) then [EntryOf(rs[i])] else []) + Loaded(rs[i + 1..])
  {
    assert rs[i..][1..] == rs[i + 1..];
  }

  /** An entry a Put, a hit or the walk can have made for a non-empty key. */
  predicate WellMade(e: Entry) {
    e.key != "" && e.onDisk > 0 && e.frontend == FrontendDir(e.key)
  }

  /** Loading what was saved gives the index back exactly when every entry is well made. */
  lemma {:induction false} SaveLoad(s: seq<Entry>)
    ensures Loaded(Records(s)) == s <==> forall i :: 0 <= i < |s| ==> WellMade(s[i])
    ensures |Loaded(Records(s))| <= |s|
  {
    if s != [] {
      var t := s[1..];
      SaveLoad(t);
      assert Records(s)[1..] == Records(t);
      assert forall i :: 0 <= i < |t| ==> t[i] == s[i + 1];
      if Loaded(Records(s)) == s {
        assert Usable(Records(s)[0]);
        assert Loaded(Records(s))[1..] == Loaded(Records(t));
        forall i | 0 <= i < |s| ensures WellMade(s[i]) {
          if i > 0 { assert t[i - 1] == s[i]; }
        }
      } else if WellMade(s[0]) {
        assert Loaded(Records(t)) != t;
      }
    }
  }

  /** The repair that follows a load keeps the order exactly when it was newest first already. */
  lemma RepairKeeps(s: seq<Entry>)
    requires Distinct(s)
    ensures SortByAccess(s) == s <==> Sorted(Newer, s)
    ensures (forall i, j :: 0 <= i < j < |s| ==> s[i].lastAccess > s[j].lastAccess) ==> SortByAccess(s) == s
  {
    SortsByAccess(s);
    NewerOrders();
    if Sorted(Newer, s) {
      SortedUnique(Newer, SortByAccess(s), s);
    }
  }
}
