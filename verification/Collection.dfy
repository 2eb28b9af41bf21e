/** One collector pass and one admission, on the value of the index
    (engine/gc/gc.go). The imperative pass is Store.Gc. */
module Collection {
  import opened Keys
  import opened Lru
  import opened Eviction
  import opened IndexMap
  import opened Int64
  import opened Watermarks

  /** An index as operations leave it, its total a number an int64 can hold. */
  ghost predicate Sound(s: seq<Entry>) {
    Distinct(s) && (forall e :: e in s ==> WellMade(e)) && Bytes(s) <= INT64_MAX
  }

  /** What a cap of percent makes of one front-end's entries. */
  function CapVictims(s: seq<Entry>, budget: int, f: string, percent: int): seq<Entry>
    requires budget >= 0
  {
    if percent <= 0 || percent > 100 then []
    else
      var limit := Pct(budget, percent);
      var used := Bytes(Of(s, f));
      if used > limit then Take(Of(s, f), used - limit, f).victims else []
  }

  /** The keys the caps of fs claim, as one set: no order of front-ends is involved. */
  ghost function OverCapsOf(s: seq<Entry>, budget: int, budgets: map<string, int>, fs: set<string>): set<string>
    requires budget >= 0 && fs <= budgets.Keys
  {
    set f, e | f in fs && e in CapVictims(s, budget, f, budgets[f]) :: e.key
  }

  ghost function OverCaps(s: seq<Entry>, budget: int, budgets: map<string, int>): set<string>
    requires budget >= 0
  {
    OverCapsOf(s, budget, budgets, budgets.Keys)
  }

  function Target(budget: int, c: Config, headroom: int): (t: int)
    requires budget >= 0
    ensures t >= 0
  {
    var t := Pct(budget, Low(c)) - headroom;
    if t < 0 then 0 else t
  }

  /** The total pass evicts when the volume is over the high mark and over its target. */
  predicate Evicts(s: seq<Entry>, budget: int, c: Config, headroom: int)
    requires budget >= 0
  {
    Wrap64(Bytes(s) + headroom) > Pct(budget, High(c)) && Bytes(s) > Target(budget, c, headroom)
  }

  /** The pass over the whole volume. */
  function TotalPass(s: seq<Entry>, budget: int, c: Config, headroom: int): seq<Entry>
    requires budget >= 0
  {
    if Wrap64(Bytes(s) + headroom) <= Pct(budget, High(c)) then s
    else if Bytes(s) > Target(budget, c, headroom) then Take(s, Bytes(s) - Target(budget, c, headroom), "").rest
    else s
  }

  /** The keys a pass evicts. */
  ghost function CollectGone(s: seq<Entry>, budget: int, c: Config, headroom: int): set<string> {
    if budget <= 0 then {}
    else
      var over := OverCaps(s, budget, c.budgets);
      over + TotalGone(Minus(s, over), budget, c, headroom)
  }

  ghost function TotalGone(s: seq<Entry>, budget: int, c: Config, headroom: int): set<string>
    requires budget >= 0
  {
    if Evicts(s, budget, c, headroom) then KeysOf(Take(s, Bytes(s) - Target(budget, c, headroom), "").victims) else {}
  }

  ghost function Collected(s: seq<Entry>, budget: int, c: Config, headroom: int): seq<Entry> {
    if budget <= 0 then s
    else TotalPass(Minus(s, OverCaps(s, budget, c.budgets)), budget, c, headroom)
  }

  /* ---- helpers on sums ---- */

  lemma {:induction false} BytesNonNegative(s: seq<Entry>)
    requires forall e :: e in s ==> e.onDisk >= 0
    ensures Bytes(s) >= 0
  {
    if s != [] {
      BytesNonNegative(s[1..]);
    }
  }

  lemma {:induction false} MinusShrinks(s: seq<Entry>, ks: set<string>)
    requires forall e :: e in s ==> e.onDisk >= 0
    ensures Bytes(Minus(s, ks)) <= Bytes(s)
  {
    if s != [] {
      MinusShrinks(s[1..], ks);
      BytesConcat(if s[0].key in ks then [] else [s[0]], Minus(s[1..], ks));
    }
  }

  lemma MinusSound(s: seq<Entry>, ks: set<string>)
    requires Sound(s)
    ensures Sound(Minus(s, ks))
  {
    MinusKeepsDistinct(s, ks);
    MinusMembers(s, ks);
    MinusShrinks(s, ks);
  }

  /* ---- one front-end's cap ---- */

  lemma {:induction false} OfNone(s: seq<Entry>, f: string)
    requires forall e :: e in s ==> e.frontend != f
    ensures Of(s, f) == []
  {
    if s != [] {
      OfNone(s[1..], f);
    }
  }

  /** Nothing is filed under "", so a cap spelled "" evicts nothing: takeLRU never sees an empty restriction. */
  lemma EmptyNameSpares(s: seq<Entry>, budget: int, percent: int)
    requires Sound(s) && budget >= 0
    ensures Of(s, "") == [] && CapVictims(s, budget, "", percent) == []
  {
    OfNone(s, "");
    if 0 < percent <= 100 {
      PctBounds(budget, percent);
    }
  }

  lemma KeysOfNone()
    ensures KeysOf([]) == {}
  {
  }

  lemma SoundDistinct(s: seq<Entry>)
    requires Sound(s)
    ensures Distinct(s)
  {
  }

  /** A cap's victims are that front-end's own entries, and removing them honours the cap. */
  lemma CapHonoured(s: seq<Entry>, budget: int, f: string, percent: int)
    requires Sound(s) && budget >= 0 && 0 < percent <= 100
    ensures forall e :: e in CapVictims(s, budget, f, percent) ==> e in s && e.frontend == f
    ensures Bytes(Minus(Of(s, f), KeysOf(CapVictims(s, budget, f, percent)))) <= Pct(budget, percent)
  {
    hide Take, Minus, Bytes, Pct, Sound, KeysOf;
    var o, v := Of(s, f), CapVictims(s, budget, f, percent);
    SoundDistinct(s);
    OfMembers(s, f);
    var n := Bytes(o) - Pct(budget, percent);
    if n > 0 {
      EmptyNameSpares(s, budget, percent);
      PctBounds(budget, percent);
      OfDistinct(s, f);
      OfOf(o, f);
      TakeMembers(o, n, f);
      TakeRest(o, n, f);
      TakeFrees(o, n, f);
    } else {
      KeysOfNone();
      MinusNone(o, {});
    }
  }

  lemma {:induction false} OfOf(o: seq<Entry>, f: string)
    requires forall e :: e in o ==> e.frontend == f
    ensures Of(o, f) == o
  {
    if o != [] {
      OfOf(o[1..], f);
    }
  }

  lemma {:induction false} OfDistinct(s: seq<Entry>, f: string)
    requires Distinct(s)
    ensures Distinct(Of(s, f))
  {
    if s != [] {
      var t := s[1..];
      OfDistinct(t, f);
      OfMembers(t, f);
      forall i | 0 <= i < |Of(t, f)| ensures Of(t, f)[i].key != s[0].key {
        assert Of(t, f)[i] in t;
      }
    }
  }

  /** Only f's own cap touches f: OverCaps restricted to f is CapVictims of f. */
  lemma CapsIndependent(s: seq<Entry>, budget: int, budgets: map<string, int>, f: string)
    requires Sound(s) && budget >= 0
    ensures var v := if f in budgets then CapVictims(s, budget, f, budgets[f]) else [];
            Minus(Of(s, f), OverCaps(s, budget, budgets)) == Minus(Of(s, f), KeysOf(v))
  {
    var v := if f in budgets then CapVictims(s, budget, f, budgets[f]) else [];
    OfMembers(s, f);
    forall e | e in Of(s, f) ensures e.key in OverCaps(s, budget, budgets) <==> e.key in KeysOf(v) {
      if e.key in OverCaps(s, budget, budgets) {
        var g, x :| g in budgets && x in CapVictims(s, budget, g, budgets[g]) && x.key == e.key;
        CapHonoured(s, budget, g, budgets[g]);
        assert x in s && e in s;
        assert x == e by { SameKey(s, x, e); }
      }
    }
    MinusAgree(Of(s, f), OverCaps(s, budget, budgets), KeysOf(v));
  }

  lemma SameKey(s: seq<Entry>, a: Entry, b: Entry)
    requires Distinct(s) && a in s && b in s && a.key == b.key
    ensures a == b
  {
  }

  lemma {:induction false} MinusAgree(s: seq<Entry>, a: set<string>, b: set<string>)
    requires forall e :: e in s ==> (e.key in a <==> e.key in b)
    ensures Minus(s, a) == Minus(s, b)
  {
    if s != [] {
      MinusAgree(s[1..], a, b);
    }
  }

  /* ---- the pass ---- */

  lemma TotalPassMinus(s: seq<Entry>, budget: int, c: Config, headroom: int)
    requires Distinct(s) && budget >= 0
    ensures TotalPass(s, budget, c, headroom) == Minus(s, TotalGone(s, budget, c, headroom))
  {
    if Evicts(s, budget, c, headroom) {
      TakeRest(s, Bytes(s) - Target(budget, c, headroom), "");
    } else {
      MinusNone(s, {});
    }
  }

  /** A pass only removes: what stays is the old list, in its order, minus what it evicted. */
  lemma CollectedMinus(s: seq<Entry>, budget: int, c: Config, headroom: int)
    requires Sound(s)
    ensures Collected(s, budget, c, headroom) == Minus(s, CollectGone(s, budget, c, headroom))
    ensures Sound(Collected(s, budget, c, headroom))
  {
    if budget <= 0 {
      MinusNone(s, {});
    } else {
      var over := OverCaps(s, budget, c.budgets);
      MinusSound(s, over);
      TotalPassMinus(Minus(s, over), budget, c, headroom);
      MinusTwice(s, over, TotalGone(Minus(s, over), budget, c, headroom));
    }
    MinusSound(s, CollectGone(s, budget, c, headroom));
  }

  lemma CapVictimsOwn(s: seq<Entry>, budget: int, f: string, percent: int)
    requires Sound(s) && budget >= 0
    ensures forall e :: e in CapVictims(s, budget, f, percent) ==> e in s && e.frontend == f
  {
    if 0 < percent <= 100 {
      CapHonoured(s, budget, f, percent);
    }
  }

  /** A front-end loses nothing to the caps of others. */
  lemma OthersSpare(s: seq<Entry>, budget: int, caps: map<string, int>, done: set<string>, f: string)
    requires Sound(s) && budget >= 0 && done <= caps.Keys && f !in done
    ensures forall e :: e in s && e.frontend == f ==> e.key !in OverCapsOf(s, budget, caps, done)
  {
    SoundDistinct(s);
    hide CapVictims, Sound;
    forall e | e in s && e.frontend == f ensures e.key !in OverCapsOf(s, budget, caps, done) {
      if e.key in OverCapsOf(s, budget, caps, done) {
        var g, x :| g in done && x in CapVictims(s, budget, g, caps[g]) && x.key == e.key;
        CapVictimsOwn(s, budget, g, caps[g]);
        SameKey(s, x, e);
      }
    }
  }

  lemma OverCapsAdd(s: seq<Entry>, budget: int, caps: map<string, int>, done: set<string>, f: string)
    requires budget >= 0 && done <= caps.Keys && f in caps
    ensures OverCapsOf(s, budget, caps, done + {f})
            == OverCapsOf(s, budget, caps, done) + KeysOf(CapVictims(s, budget, f, caps[f]))
  {
    hide CapVictims;
  }

  /** One more front-end's cap, whatever was done before it: the state that makes every
      iteration order of the Budgets map give the same index. */
  lemma CapStep(s: seq<Entry>, budget: int, budgets: map<string, int>, done: set<string>, f: string)
    requires Sound(s) && budget >= 0 && done <= budgets.Keys && f in budgets && f !in done
    ensures var gone := OverCapsOf(s, budget, budgets, done);
            var cur := Minus(s, gone);
            var v := CapVictims(s, budget, f, budgets[f]);
            && Of(cur, f) == Of(s, f)
            && OverCapsOf(s, budget, budgets, done + {f}) == gone + KeysOf(v)
            && Minus(cur, KeysOf(v)) == Minus(s, gone + KeysOf(v))
            && (f != "" ==> forall n :: Take(cur, n, f).victims == Take(Of(s, f), n, f).victims)
  {
    hide Take, Minus, Of, CapVictims, Sound, OverCapsOf, KeysOf;
    var gone := OverCapsOf(s, budget, budgets, done);
    var cur := Minus(s, gone);
    OfMinus(s, gone, f);
    OfMembers(s, f);
    OthersSpare(s, budget, budgets, done, f);
    MinusNone(Of(s, f), gone);
    MinusTwice(s, gone, KeysOf(CapVictims(s, budget, f, budgets[f])));
    OverCapsAdd(s, budget, budgets, done, f);
    if f != "" {
      forall n ensures Take(cur, n, f).victims == Take(Of(s, f), n, f).victims {
        TakeIsLocal(cur, n, f);
      }
    }
  }

  /** After a pass every front-end is within its own cap. */
  lemma CollectHonoursCaps(s: seq<Entry>, budget: int, c: Config, headroom: int, f: string)
    requires Sound(s) && budget > 0 && f in c.budgets && 0 < c.budgets[f] <= 100
    ensures Bytes(Of(Collected(s, budget, c, headroom), f)) <= Pct(budget, c.budgets[f])
  {
    var over := OverCaps(s, budget, c.budgets);
    var s1 := Minus(s, over);
    MinusSound(s, over);
    var more := TotalGone(s1, budget, c, headroom);
    TotalPassMinus(s1, budget, c, headroom);
    OfMinus(s1, more, f);
    OfMinus(s, over, f);
    CapsIndependent(s, budget, c.budgets, f);
    CapHonoured(s, budget, f, c.budgets[f]);
    OfMembers(s1, f);
    MinusShrinks(Of(s1, f), more);
  }

  /** A pass that evicts stops at its target, and would not have reached it with one victim fewer. */
  lemma TotalPassStops(s: seq<Entry>, budget: int, c: Config, headroom: int)
    requires Sound(s) && budget >= 0 && Evicts(s, budget, c, headroom)
    ensures var t := Target(budget, c, headroom);
            var v := Take(s, Bytes(s) - t, "").victims;
            var r := Bytes(TotalPass(s, budget, c, headroom));
            v != [] && t - v[|v| - 1].onDisk < r <= t
  {
    hide Pct, Target, Sound, Take;
    var t := Target(budget, c, headroom);
    var n := Bytes(s) - t;
    var v := Take(s, n, "").victims;
    TakeMembers(s, n, "");
    TakeFrees(s, n, "");
    assert v != [];
    TakeStops(s, n, "", |v| - 1);
    assert v == v[..|v| - 1] + [v[|v| - 1]];
    BytesConcat(v[..|v| - 1], [v[|v| - 1]]);
  }

  /** One Collect ends at or under the high mark when the low mark does not lie above it. */
  lemma CollectUnderHigh(s: seq<Entry>, budget: int, c: Config)
    requires Sound(s) && budget > 0 && Pct(budget, Low(c)) <= Pct(budget, High(c))
    ensures Bytes(Collected(s, budget, c, 0)) <= Pct(budget, High(c))
  {
    var s1 := Minus(s, OverCaps(s, budget, c.budgets));
    MinusSound(s, OverCaps(s, budget, c.budgets));
    PctBounds(budget, Low(c));
    SoundBytes(s1);
    if Evicts(s1, budget, c, 0) {
      TotalPassStops(s1, budget, c, 0);
    }
  }

  /* ---- what a pass leaves alone ---- */

  /** A cap takes something exactly from a front-end over it; then it takes the shortest run from
      the tail of the front-end's own entries that brings it within. */
  lemma CapTakesLeast(s: seq<Entry>, budget: int, f: string, percent: int)
    requires Sound(s) && budget >= 0
    ensures var o, v := Of(s, f), CapVictims(s, budget, f, percent);
            if 0 < percent <= 100 && Bytes(o) > Pct(budget, percent) then
              && 0 < |v| <= |o| && v == Reverse(o)[..|v|]
              && Pct(budget, percent) - v[|v| - 1].onDisk < Bytes(Minus(o, KeysOf(v))) <= Pct(budget, percent)
            else v == []
  {
    hide Take, Minus, Pct, Sound, KeysOf, Reverse, Of, Distinct, Bytes;
    var o := Of(s, f);
    if 0 < percent <= 100 && Bytes(o) > Pct(budget, percent) {
      PctBounds(budget, percent);
      SoundDistinct(s);
      OfDistinct(s, f);
      OfMembers(s, f);
      OfOf(o, f);
      TakesLeast(o, Bytes(o) - Pct(budget, percent), f);
    }
  }

  /** After all caps each front-end is as it was, or just within its own cap. */
  lemma CapsTakeLeast(s: seq<Entry>, budget: int, caps: map<string, int>, f: string)
    requires Sound(s) && budget >= 0
    ensures var o, r := Of(s, f), Of(Minus(s, OverCaps(s, budget, caps)), f);
            if f in caps && 0 < caps[f] <= 100 && Bytes(o) > Pct(budget, caps[f]) then
              exists n :: 0 < n <= |o| && r == Minus(o, KeysOf(Reverse(o)[..n]))
                          && Pct(budget, caps[f]) - Reverse(o)[n - 1].onDisk < Bytes(r) <= Pct(budget, caps[f])
            else r == o
  {
    hide Take, Minus, Pct, Sound, KeysOf, Reverse, Of, CapVictims, OverCaps, Bytes;
    var o := Of(s, f);
    OfMinus(s, OverCaps(s, budget, caps), f);
    CapsIndependent(s, budget, caps, f);
    KeysOfNone();
    MinusNone(o, {});
    if f in caps {
      CapTakesLeast(s, budget, f, caps[f]);
      var v := CapVictims(s, budget, f, caps[f]);
      if v != [] {
        assert v[|v| - 1] == Reverse(o)[|v| - 1];
      }
    }
  }

  ghost predicate WithinCaps(s: seq<Entry>, budget: int, caps: map<string, int>)
    requires budget >= 0
  {
    forall f :: f in caps && 0 < caps[f] <= 100 ==> Bytes(Of(s, f)) <= Pct(budget, caps[f])
  }

  /** The room a pass leaves: the low mark less the headroom, and never less than nothing. */
  lemma TargetIs(budget: int, c: Config, headroom: int)
    requires budget >= 0
    ensures Pct(budget, Low(c)) >= headroom ==> Target(budget, c, headroom) == Pct(budget, Low(c)) - headroom
    ensures Pct(budget, Low(c)) < headroom ==> Target(budget, c, headroom) == 0
  {
  }

  /** A pass changes nothing if and only if every cap is met and the volume, headroom included, is
      at or under the high mark or, without it, at or under what the pass would leave. */
  lemma PassLeavesAlone(s: seq<Entry>, budget: int, c: Config, headroom: int)
    requires Sound(s) && budget > 0 && headroom >= 0 && Bytes(s) + headroom <= INT64_MAX
    ensures Collected(s, budget, c, headroom) == s <==>
              && WithinCaps(s, budget, c.budgets)
              && (Bytes(s) + headroom <= Pct(budget, High(c))
                  || Bytes(s) <= (if Pct(budget, Low(c)) >= headroom then Pct(budget, Low(c)) - headroom else 0))
  {
    SoundBytes(s);
    var over := OverCaps(s, budget, c.budgets);
    if WithinCaps(s, budget, c.budgets) {
      NoneOver(s, budget, c.budgets);
      MinusNone(s, {});
      if Evicts(s, budget, c, headroom) {
        TotalPassStops(s, budget, c, headroom);
      }
    } else {
      hide Take, Minus, Pct, Sound, KeysOf, Of, Collected;
      var f :| f in c.budgets && 0 < c.budgets[f] <= 100 && Bytes(Of(s, f)) > Pct(budget, c.budgets[f]);
      CollectHonoursCaps(s, budget, c, headroom, f);
    }
  }

  lemma NoneOver(s: seq<Entry>, budget: int, caps: map<string, int>)
    requires Sound(s) && budget >= 0 && WithinCaps(s, budget, caps)
    ensures OverCaps(s, budget, caps) == {}
  {
    hide Sound, CapVictims, Bytes, Of, Pct;
    forall f | f in caps ensures CapVictims(s, budget, f, caps[f]) == [] {
      CapTakesLeast(s, budget, f, caps[f]);
    }
  }

  /** What a pass takes beside the caps: the shortest run from the tail that brings the volume to
      its target, and that only over the high mark. */
  lemma TotalPassTakesLeast(s: seq<Entry>, budget: int, c: Config, headroom: int)
    requires Sound(s) && budget > 0 && headroom >= 0 && Bytes(s) + headroom <= INT64_MAX
    ensures var r := TotalPass(s, budget, c, headroom);
            var t := if Pct(budget, Low(c)) >= headroom then Pct(budget, Low(c)) - headroom else 0;
            if Bytes(s) + headroom > Pct(budget, High(c)) && Bytes(s) > t then
              exists n :: 0 < n <= |s| && r == Minus(s, KeysOf(Reverse(s)[..n]))
                          && t - Reverse(s)[n - 1].onDisk < Bytes(r) <= t
            else r == s
  {
    hide Take, Minus, Pct, Sound, KeysOf, Reverse, Distinct, Bytes, Low, High;
    SoundBytes(s);
    SoundDistinct(s);
    if Evicts(s, budget, c, headroom) {
      PctBounds(budget, Low(c));
      TakesLeast(s, Bytes(s) - Target(budget, c, headroom), "");
    }
  }

  /** An entry as a Put, a hit and the walk make it. */
  predicate Real(e: Entry) {
    e.size >= 0 && e.onDisk == HEADER + e.size
  }

  lemma {:induction false} RealBytes(s: seq<Entry>)
    requires forall e :: e in s ==> Real(e)
    ensures s == [] || Bytes(s) >= HEADER
  {
    if s != [] {
      assert s[0] in s;
      RealBytes(s[1..]);
    }
  }

  /** A low mark under a single header leaves nothing behind, so the high mark holds then too. */
  lemma CollectUnderHeader(s: seq<Entry>, budget: int, c: Config)
    requires Sound(s) && (forall e :: e in s ==> Real(e)) && budget > 0 && Pct(budget, Low(c)) < HEADER
    ensures Bytes(Collected(s, budget, c, 0)) <= Pct(budget, High(c))
  {
    hide Sound, Pct, Real;
    var s1, r := Minus(s, OverCaps(s, budget, c.budgets)), Collected(s, budget, c, 0);
    MinusSound(s, OverCaps(s, budget, c.budgets));
    PctBounds(budget, High(c));
    PctBounds(budget, Low(c));
    SoundBytes(s1);
    CollectedMinus(s, budget, c, 0);
    MinusMembers(s, CollectGone(s, budget, c, 0));
    RealBytes(r);
    if Evicts(s1, budget, c, 0) {
      TotalPassStops(s1, budget, c, 0);
    }
  }

  /** Otherwise it need not: an object of an uncapped front-end that fills the volume to the
      low mark stays, over the high mark. */
  lemma CollectOverHigh(budget: int, c: Config, f: string) returns (s: seq<Entry>)
    requires 0 < budget <= INT64_MAX && Token(f) && f !in c.budgets
    requires Pct(budget, Low(c)) > Pct(budget, High(c)) && Pct(budget, Low(c)) >= HEADER
    ensures Sound(s) && (forall e :: e in s ==> Real(e))
    ensures Bytes(Collected(s, budget, c, 0)) > Pct(budget, High(c))
  {
    PctBounds(budget, High(c));
    PctBounds(budget, Low(c));
    TokenIsItsDir(f);
    var e := Entry(f, f, Pct(budget, Low(c)) - HEADER, Pct(budget, Low(c)), 0, false);
    s := [e];
    assert Bytes(s) == e.onDisk;
    OthersSpare(s, budget, c.budgets, c.budgets.Keys, f);
    MinusNone(s, OverCaps(s, budget, c.budgets));
  }

  /** So, some front-end being uncapped, a pass ends at or under the high mark on every index
      operations can make if and only if the low mark is not above it or is under a header. */
  lemma CollectHighExact(budget: int, c: Config, f: string)
    requires 0 < budget <= INT64_MAX && Token(f) && f !in c.budgets
    ensures (forall s :: Sound(s) && (forall e :: e in s ==> Real(e)) ==>
                           Bytes(Collected(s, budget, c, 0)) <= Pct(budget, High(c)))
            <==> Pct(budget, Low(c)) <= Pct(budget, High(c)) || Pct(budget, Low(c)) < HEADER
  {
    hide Sound, Collected, Pct, Bytes, Real;
    if Pct(budget, Low(c)) <= Pct(budget, High(c)) || Pct(budget, Low(c)) < HEADER {
      forall s | Sound(s) && (forall e :: e in s ==> Real(e))
        ensures Bytes(Collected(s, budget, c, 0)) <= Pct(budget, High(c))
      {
        if Pct(budget, Low(c)) <= Pct(budget, High(c)) {
          CollectUnderHigh(s, budget, c);
        } else {
          CollectUnderHeader(s, budget, c);
        }
      }
    } else {
      var s := CollectOverHigh(budget, c, f);
    }
  }

  /* ---- admission ---- */

  datatype Admission = Admission(admitted: bool, collects: bool)

  ghost function AdmitSpec(s: seq<Entry>, budget: int, c: Config, size: int): Admission {
    if size <= 0 then Admission(true, false)
    else if size > budget then Admission(false, false)
    else if Wrap64(Bytes(s) + size) <= budget then Admission(true, false)
    else Admission(Wrap64(Bytes(Collected(s, budget, c, size)) + size) <= budget, true)
  }

  /** The index after an admission. */
  ghost function Admitted(s: seq<Entry>, budget: int, c: Config, size: int): seq<Entry> {
    if AdmitSpec(s, budget, c, size).collects then Collected(s, budget, c, size) else s
  }

  /** A pass with headroom makes room for anything the budget can hold at all. */
  lemma CollectMakesRoom(s: seq<Entry>, budget: int, c: Config, size: int)
    requires Sound(s) && 0 < size <= budget && Bytes(s) + size <= INT64_MAX
    ensures Bytes(Collected(s, budget, c, size)) + size <= budget
  {
    hide Sound, Minus, OverCaps, TotalPass, Bytes, Pct, High, Low;
    var over := OverCaps(s, budget, c.budgets);
    MinusSound(s, over);
    SoundMinusShrinks(s, over);
    TotalPassMakesRoom(Minus(s, over), budget, c, size);
  }

  lemma SoundMinusShrinks(s: seq<Entry>, ks: set<string>)
    requires Sound(s)
    ensures Bytes(Minus(s, ks)) <= Bytes(s)
  {
    MinusShrinks(s, ks);
  }

  lemma TotalPassMakesRoom(s: seq<Entry>, budget: int, c: Config, size: int)
    requires Sound(s) && 0 < size <= budget && Bytes(s) + size <= INT64_MAX
    ensures Bytes(TotalPass(s, budget, c, size)) + size <= budget
  {
    hide Sound, Take, Bytes, Pct, High, Low;
    PctBounds(budget, High(c));
    PctBounds(budget, Low(c));
    SoundBytes(s);
    if Evicts(s, budget, c, size) {
      TotalPassStops(s, budget, c, size);
    }
  }

  /** Admit refuses exactly what exceeds the whole budget, and evicts for nothing it refuses or that
      fits already. An admitted size fits beside what is used exactly when the sum Admit computes
      fits an int64: a sum that wraps reads as room. */
  lemma AdmitExact(s: seq<Entry>, budget: int, c: Config, size: int)
    requires Sound(s) && size > 0
    ensures AdmitSpec(s, budget, c, size).admitted <==> size <= budget
    ensures size <= budget <= INT64_MAX ==>
              (Bytes(Admitted(s, budget, c, size)) + size <= budget <==> Bytes(s) + size <= INT64_MAX)
    ensures size > budget || Bytes(s) + size <= budget ==> Admitted(s, budget, c, size) == s
    ensures Sound(Admitted(s, budget, c, size))
  {
    hide Collected;
    SoundBytes(s);
    if size <= budget && Bytes(s) + size <= INT64_MAX {
      CollectMakesRoom(s, budget, c, size);
      CollectedMinus(s, budget, c, size);
      SoundBytes(Collected(s, budget, c, size));
    }
  }

  lemma SoundBytes(s: seq<Entry>)
    requires Sound(s)
    ensures 0 <= Bytes(s) <= INT64_MAX
  {
    BytesNonNegative(s);
  }
}
