/** Recency told by what was done: evictions take the keys whose last Put or hit is longest ago
    (engine/disk/disk.go, observe and Put; engine/disk/index.go, takeLRU). */
module LastUse {
  import opened Tiers
  import opened Lru
  import opened Eviction
  import opened IndexMap
  import opened Volume
  import opened Walk
  import opened Recency

  /** The key a step uses: a Get that hits, a Put that stores or finds its write-once key there. */
  ghost function Used(w: Walking, step: Step): Option<string> {
    match step
    case DoGet(k, at) => if k in w.vol.files && w.vol.files[k].Good? then Some(k) else None
    case DoPut(k, body, m, at, lim, trouble) =>
      var e := Put(w.vol, k, body, m, at, lim, trouble, {}).error;
      if e == None || e == Some(Exists) then Some(k) else None
    case _ => None
  }

  /** When a key was last used before step i: one more than the step's number, or done if it was
      not used since the walk's end. */
  ghost function Last(ws: seq<Walking>, steps: seq<Step>, done: nat, i: nat, k: string): nat
    requires |ws| == |steps| + 1 && done <= i < |ws|
  {
    if i == done then done
    else if Used(ws[i - 1], steps[i - 1]) == Some(k) then i
    else Last(ws, steps, done, i - 1, k)
  }

  lemma {:induction false} LastBounds(ws: seq<Walking>, steps: seq<Step>, done: nat, i: nat, k: string)
    requires |ws| == |steps| + 1 && done <= i < |ws|
    ensures done <= Last(ws, steps, done, i, k) <= i
    ensures var l := Last(ws, steps, done, i, k);
            && (l > done ==> Used(ws[l - 1], steps[l - 1]) == Some(k))
            && (forall j :: l <= j < i ==> Used(ws[j], steps[j]) != Some(k))
  {
    hide Used;
    if i > done && Used(ws[i - 1], steps[i - 1]) != Some(k) {
      LastBounds(ws, steps, done, i - 1, k);
    }
  }

  /** What a step does to a warm index: a key used comes to the head with the step's time, and the
      rest is the old list less some keys, that one among them. */
  ghost predicate Moves(w: Walking, step: Step, w': Walking, gone: set<string>) {
    var s, s' := w.vol.ix.order, w'.vol.ix.order;
    match Used(w, step)
    case None => s' == Minus(s, gone)
    case Some(k) =>
      && k in gone && s' != [] && s' == [s'[0]] + Minus(s, gone)
      && s'[0].key == k && s'[0].lastAccess == step.at
  }

  lemma GetMoves(dir: string -> int, w: Walking, k: string, at: int, w': Walking) returns (gone: set<string>)
    requires Inv(dir, w) && !w.vol.ix.cold && Next(dir, w, DoGet(k, at), w')
    ensures Moves(w, DoGet(k, at), w', gone)
  {
    var s := w.vol.ix.order;
    InvWarm(dir, w);
    if k in w.vol.files {
      WarmHolds(dir, w, k);
      HitIsUse(w.vol, k, at, {});
      gone := {k};
    } else {
      MinusNone(s, {});
      gone := {};
    }
  }

  /** A warm index holds every file. */
  lemma WarmHolds(dir: string -> int, w: Walking, k: string)
    requires Inv(dir, w) && !w.vol.ix.cold && k in w.vol.files
    ensures w.vol.files[k].Good? && Holds(w.vol.ix.order, k)
  {
    Lookup(w.vol.ix.order);
  }

  lemma PutMoves(dir: string -> int, w: Walking, step: Step, w': Walking) returns (gone: set<string>)
    requires Inv(dir, w) && !w.vol.ix.cold && step.DoPut? && Next(dir, w, step, w')
    ensures Moves(w, step, w', gone)
  {
    hide Inv, AdmitGone, AdmitOk, Minus, Lru.Without, Holds, Find, Distinct;
    var s, k := w.vol.ix.order, step.key;
    InvWarm(dir, w);
    if step.trouble == Cancelled || k == "" {
      MinusNone(s, {});
      gone := {};
    } else if step.m.immutable && k in w.vol.files {
      WarmHolds(dir, w, k);
      TouchMoves(s, k);
      gone := {k};
    } else {
      var out := AdmitGone(s, step.lim, Claim(step.m));
      WithoutBoth(s, out, k);
      gone := if Used(w, step) == None then out else out + {k};
    }
  }

  lemma WithoutBoth(s: seq<Entry>, out: set<string>, k: string)
    requires Distinct(s)
    ensures Without(Minus(s, out), k) == Minus(s, out + {k})
  {
    hide Minus, Without, Distinct;
    MinusKeepsDistinct(s, out);
    WithoutIsMinus(Minus(s, out), k);
    MinusTwice(s, out, {k});
  }

  lemma TouchMoves(s: seq<Entry>, k: string)
    requires Distinct(s) && Holds(s, k)
    ensures Without(s, k) == Minus(s, {k}) && Find(s, k).key == k
  {
    WithoutIsMinus(s, k);
    FoundKey(s, k);
  }

  lemma FoundKey(s: seq<Entry>, k: string)
    requires Holds(s, k)
    ensures Find(s, k).key == k
  {
  }

  lemma StepMoves(dir: string -> int, w: Walking, step: Step, w': Walking) returns (gone: set<string>)
    requires Inv(dir, w) && !w.vol.ix.cold && Next(dir, w, step, w')
    ensures Moves(w, step, w', gone)
  {
    hide Inv;
    match step
    case DoGet(k, at) => gone := GetMoves(dir, w, k, at, w');
    case DoPut(_, _, _, _, _, _) => gone := PutMoves(dir, w, step, w');
    case DoDelete(k) =>
      InvWarm(dir, w);
      WithoutIsMinus(w.vol.ix.order, k);
      gone := {k};
    case DoEvict(n, f) =>
      InvWarm(dir, w);
      TakeRest(w.vol.ix.order, n, f);
      gone := KeysOf(Take(w.vol.ix.order, n, f).victims);
    case _ =>
      InvWarm(dir, w);
      MinusNone(w.vol.ix.order, {});
      gone := {};
  }

  /** The list from head to tail is in order of last use, and entries used since the walk carry the
      time of that use. */
  ghost predicate InUseOrder(ws: seq<Walking>, steps: seq<Step>, done: nat, i: nat, s: seq<Entry>)
    requires |ws| == |steps| + 1 && done <= i < |ws|
  {
    && (forall p, q :: 0 <= p < q < |s| ==> Before(ws, steps, done, i, s[q].key, s[p].key))
    && (forall p :: 0 <= p < |s| ==> Timed(ws, steps, done, i, s[p]))
  }

  /** a was last used before b, or neither was used since the walk. */
  ghost predicate Before(ws: seq<Walking>, steps: seq<Step>, done: nat, i: nat, a: string, b: string)
    requires |ws| == |steps| + 1 && done <= i < |ws|
  {
    Last(ws, steps, done, i, a) < Last(ws, steps, done, i, b) || Last(ws, steps, done, i, a) == done
  }

  ghost predicate Timed(ws: seq<Walking>, steps: seq<Step>, done: nat, i: nat, e: Entry)
    requires |ws| == |steps| + 1 && done <= i < |ws|
  {
    var l := Last(ws, steps, done, i, e.key);
    done < l <= |steps| ==> (steps[l - 1].DoGet? || steps[l - 1].DoPut?) && e.lastAccess == steps[l - 1].at
  }

  lemma {:induction false} MinusInOrder(ws: seq<Walking>, steps: seq<Step>, done: nat, i: nat, s: seq<Entry>,
                                        gone: set<string>)
    requires |ws| == |steps| + 1 && done <= i < |ws| && InUseOrder(ws, steps, done, i, s)
    ensures InUseOrder(ws, steps, done, i, Minus(s, gone))
  {
    hide Before, Timed;
    if s != [] {
      var t := s[1..];
      assert forall p :: 0 <= p < |t| ==> t[p] == s[p + 1];
      MinusInOrder(ws, steps, done, i, t, gone);
      MinusMembers(t, gone);
      var r := Minus(t, gone);
      forall q | 0 <= q < |r| ensures Before(ws, steps, done, i, r[q].key, s[0].key) {
        assert r[q] in t;
        var p :| 0 <= p < |t| && t[p] == r[q];
        assert Before(ws, steps, done, i, s[p + 1].key, s[0].key);
      }
    }
  }

  lemma WarmStays(dir: string -> int, w: Walking, step: Step, w': Walking)
    requires Next(dir, w, step, w') && !w.vol.ix.cold
    ensures !w'.vol.ix.cold
  {
    hide AdmitGone, AdmitOk, Minus, Lru.Without, Take, KeysOf;
  }

  /** A step that does not use a key leaves its last use as it was. */
  lemma InOrderNext(ws: seq<Walking>, steps: seq<Step>, done: nat, i: nat, s: seq<Entry>)
    requires |ws| == |steps| + 1 && done < i < |ws| && InUseOrder(ws, steps, done, i - 1, s)
    requires forall e :: e in s ==> Used(ws[i - 1], steps[i - 1]) != Some(e.key)
    ensures InUseOrder(ws, steps, done, i, s)
  {
    hide Used;
    forall p | 0 <= p < |s| ensures Last(ws, steps, done, i, s[p].key) == Last(ws, steps, done, i - 1, s[p].key) {
      assert s[p] in s;
    }
    forall p, q | 0 <= p < q < |s| ensures Before(ws, steps, done, i, s[q].key, s[p].key) {
      assert Before(ws, steps, done, i - 1, s[q].key, s[p].key);
    }
    forall p | 0 <= p < |s| ensures Timed(ws, steps, done, i, s[p]) {
      assert Timed(ws, steps, done, i - 1, s[p]);
    }
  }

  lemma HeadInOrder(ws: seq<Walking>, steps: seq<Step>, done: nat, i: nat, e: Entry, s: seq<Entry>)
    requires |ws| == |steps| + 1 && done < i < |ws| && InUseOrder(ws, steps, done, i, s)
    requires Used(ws[i - 1], steps[i - 1]) == Some(e.key) && e.lastAccess == steps[i - 1].at
    requires forall x :: x in s ==> x.key != e.key
    ensures InUseOrder(ws, steps, done, i, [e] + s)
  {
    var r := [e] + s;
    forall q | 0 <= q < |s| ensures Before(ws, steps, done, i, s[q].key, e.key) {
      assert s[q] in s;
      LastBounds(ws, steps, done, i - 1, s[q].key);
    }
    hide Before, Timed;
    assert forall p :: 0 < p < |r| ==> r[p] == s[p - 1];
    assert Timed(ws, steps, done, i, e) by { UsedTimed(ws, steps, done, i, e); }
  }

  lemma UsedTimed(ws: seq<Walking>, steps: seq<Step>, done: nat, i: nat, e: Entry)
    requires |ws| == |steps| + 1 && done < i < |ws|
    requires Used(ws[i - 1], steps[i - 1]) == Some(e.key) && e.lastAccess == steps[i - 1].at
    ensures Timed(ws, steps, done, i, e)
  {
  }

  lemma StepInOrder(ws: seq<Walking>, steps: seq<Step>, done: nat, i: nat, gone: set<string>)
    requires |ws| == |steps| + 1 && done < i < |ws| && InUseOrder(ws, steps, done, i - 1, ws[i - 1].vol.ix.order)
    requires Moves(ws[i - 1], steps[i - 1], ws[i], gone)
    ensures InUseOrder(ws, steps, done, i, ws[i].vol.ix.order)
  {
    hide InUseOrder, Minus, Used;
    var s := ws[i - 1].vol.ix.order;
    MinusInOrder(ws, steps, done, i - 1, s, gone);
    MinusMembers(s, gone);
    InOrderNext(ws, steps, done, i, Minus(s, gone));
    if Used(ws[i - 1], steps[i - 1]).Some? {
      HeadInOrder(ws, steps, done, i, ws[i].vol.ix.order[0], Minus(s, gone));
    }
  }

  lemma StartsInOrder(ws: seq<Walking>, steps: seq<Step>, done: nat, s: seq<Entry>)
    requires |ws| == |steps| + 1 && done < |ws|
    ensures InUseOrder(ws, steps, done, done, s)
  {
  }

  lemma {:induction false} RunInOrder(dir: string -> int, ws: seq<Walking>, steps: seq<Step>, done: nat, i: nat)
    requires Run(dir, ws, steps) && NoRace(ws, steps) && done <= i < |ws| && !ws[done].vol.ix.cold
    ensures InUseOrder(ws, steps, done, i, ws[i].vol.ix.order) && !ws[i].vol.ix.cold
  {
    hide Inv, Next, Races, Start, InUseOrder, Moves;
    if i == done {
      StartsInOrder(ws, steps, done, ws[i].vol.ix.order);
    } else {
      RunInOrder(dir, ws, steps, done, i - 1);
      RunKeeps(dir, ws, steps, i - 1);
      WarmStays(dir, ws[i - 1], steps[i - 1], ws[i]);
      var gone := StepMoves(dir, ws[i - 1], steps[i - 1], ws[i]);
      StepInOrder(ws, steps, done, i, gone);
    }
  }

  /** In every run, from the end of the walk on and whatever the clock says, an eviction takes no key
      whose last use comes after that of a candidate it spares. */
  lemma EvictsLeastRecentlyUsed(dir: string -> int, ws: seq<Walking>, steps: seq<Step>, done: nat, i: nat,
                                n: int, f: string, victim: Entry, spared: Entry)
    requires Run(dir, ws, steps) && NoRace(ws, steps) && done <= i < |ws| && !ws[done].vol.ix.cold
    requires victim in Take(ws[i].vol.ix.order, n, f).victims
    requires spared in Take(ws[i].vol.ix.order, n, f).rest && Matches(f, spared)
    ensures var u, v := Last(ws, steps, done, i, spared.key), Last(ws, steps, done, i, victim.key);
            v <= u && (v > done ==> v < u)
  {
    RunInOrder(dir, ws, steps, done, i);
    hide Run, NoRace, Take, Last;
    var p, q := TakesFromTail(ws[i].vol.ix.order, n, f, victim, spared);
    assert Before(ws, steps, done, i, victim.key, spared.key);
    LastBounds(ws, steps, done, i, spared.key);
  }
}
