/** Runs in which the walk loses its race: which entries have no file, and until when
    (engine/disk/disk.go, walk; engine/disk/index.go). */
module Phantoms {
  import opened Tiers
  import opened Lru
  import opened Eviction
  import opened IndexMap
  import opened Volume
  import opened Walk

  /** The key a step turns into a phantom: the walk's unlink of a file replaced since. */
  function Raced(w: Walking, step: Step): set<string> {
    if Races(w, step) then {w.held.key} else {}
  }

  /** The keys a step writes, deletes or evicts. */
  ghost function Healed(w: Walking, step: Step): set<string> {
    match step
    case DoPut(k, body, m, at, lim, trouble) =>
      if trouble == Cancelled || k == "" || (m.immutable && k in w.vol.files) then {}
      else AdmitGone(w.vol.ix.order, lim, Claim(m))
           + (if Put(w.vol, k, body, m, at, lim, trouble, {}).error == None then {k} else {})
    case DoDelete(k) => {k}
    case DoEvict(n, f) => KeysOf(Take(w.vol.ix.order, n, f).victims)
    case _ => {}
  }

  /** The index without the phantoms. */
  ghost function Clean(w: Walking, p: set<string>): Walking {
    w.(vol := w.vol.(ix := w.vol.ix.(order := Minus(w.vol.ix.order, p))))
  }

  /** p are the entries without a file; without them the walk's invariant holds. */
  ghost predicate Haunted(dir: string -> int, w: Walking, p: set<string>) {
    && Distinct(w.vol.ix.order)
    && (forall k :: k in p ==> k in Dict(w.vol.ix.order) && k !in w.vol.files)
    && (w.held != Nothing ==> w.held.key !in p)
    && Inv(dir, Clean(w, p))
  }

  /** The invariant is a matter of what the index maps keys to. */
  lemma InvByDict(dir: string -> int, a: Walking, b: Walking)
    requires Inv(dir, a) && b == a.(vol := a.vol.(ix := a.vol.ix.(order := b.vol.ix.order)))
    requires Distinct(b.vol.ix.order) && Dict(b.vol.ix.order) == Dict(a.vol.ix.order)
    ensures Inv(dir, b)
  {
    hide Dict, Distinct;
  }

  lemma CleanDict(w: Walking, p: set<string>)
    requires Distinct(w.vol.ix.order)
    ensures Distinct(Clean(w, p).vol.ix.order) && Dict(Clean(w, p).vol.ix.order) == Dict(w.vol.ix.order) - p
  {
    DictMinus(w.vol.ix.order, p);
  }

  lemma ReclaimHaunts(dir: string -> int, w: Walking, p: set<string>, gone: set<string>)
    requires Haunted(dir, w, p)
    ensures Haunted(dir, w.(vol := Reclaimed(w.vol, gone, {})), p - gone)
  {
    hide Dict, Distinct, Inv;
    var t := w.(vol := Reclaimed(w.vol, gone, {}));
    var c := Clean(w, p);
    CleanDict(w, p);
    DictMinus(w.vol.ix.order, gone);
    CleanDict(t, p - gone);
    ReclaimKeeps(dir, c, gone);
    DictMinus(c.vol.ix.order, gone);
    InvByDict(dir, c.(vol := Reclaimed(c.vol, gone, {})), Clean(t, p - gone));
  }

  lemma DeleteHaunts(dir: string -> int, w: Walking, p: set<string>, k: string)
    requires Haunted(dir, w, p)
    ensures Haunted(dir, w.(vol := Deleted(w.vol, k, {})), p - {k})
  {
    hide Dict, Distinct, Inv, Lru.Without;
    var t := w.(vol := Deleted(w.vol, k, {}));
    var c := Clean(w, p);
    CleanDict(w, p);
    DictWithout(w.vol.ix.order, k);
    CleanDict(t, p - {k});
    DeleteKeeps(dir, c, k);
    DictWithout(c.vol.ix.order, k);
    InvByDict(dir, c.(vol := Deleted(c.vol, k, {})), Clean(t, p - {k}));
  }

  lemma TouchHaunts(dir: string -> int, w: Walking, p: set<string>, k: string, at: int)
    requires Haunted(dir, w, p) && k !in p
    ensures Haunted(dir, w.(vol := w.vol.(ix := Touch(w.vol.ix, k, at))), p)
  {
    hide Dict, Distinct, Inv, Touch;
    var t := w.(vol := w.vol.(ix := Touch(w.vol.ix, k, at)));
    var c := Clean(w, p);
    CleanDict(w, p);
    DictTouch(w.vol.ix, k, at);
    TouchRest(w.vol.ix, k, at);
    CleanDict(t, p);
    TouchKeeps(dir, c, k, at);
    DictTouch(c.vol.ix, k, at);
    TouchRest(c.vol.ix, k, at);
    InvByDict(dir, c.(vol := c.vol.(ix := Touch(c.vol.ix, k, at))), Clean(t, p));
  }

  lemma TouchRest(ix: Index, k: string, at: int)
    ensures Touch(ix, k, at).cold == ix.cold && Touch(ix, k, at).tombs == ix.tombs
  {
  }

  lemma WriteHaunts(dir: string -> int, w: Walking, p: set<string>, k: string, body: Body, m: Meta, at: int)
    requires Haunted(dir, w, p)
    ensures Haunted(dir, w.(vol := Written(w.vol, k, body, m, at)), p - {k})
  {
    hide Dict, Distinct, Inv, Lru.Without;
    var t, e := w.(vol := Written(w.vol, k, body, m, at)), EntryFor(k, |body|, at, m.immutable);
    var c := Clean(w, p);
    CleanDict(w, p);
    DictSet(w.vol.ix, e);
    CleanDict(t, p - {k});
    WriteKeeps(dir, c, k, body, m, at);
    DictSet(c.vol.ix, e);
    InvByDict(dir, c.(vol := Written(c.vol, k, body, m, at)), Clean(t, p - {k}));
  }

  lemma AddHaunts(dir: string -> int, w: Walking, p: set<string>, e: Entry)
    requires Haunted(dir, w, p) && e.key !in p
    requires Inv(dir, Clean(w, p).(vol := Clean(w, p).vol.(ix := AddIfAbsent(Clean(w, p).vol.ix, e))))
    ensures Haunted(dir, w.(vol := w.vol.(ix := AddIfAbsent(w.vol.ix, e))), p)
  {
    hide Dict, Distinct, Inv, AddIfAbsent;
    var t := w.(vol := w.vol.(ix := AddIfAbsent(w.vol.ix, e)));
    var c := Clean(w, p);
    CleanDict(w, p);
    DictAdd(w.vol.ix, e);
    AddKeepsRest(w.vol.ix, e);
    CleanDict(t, p);
    DictAdd(c.vol.ix, e);
    AddKeepsRest(c.vol.ix, e);
    InvByDict(dir, c.(vol := c.vol.(ix := AddIfAbsent(c.vol.ix, e))), Clean(t, p));
  }

  lemma PutHaunts(dir: string -> int, w: Walking, p: set<string>, step: Step)
    requires Haunted(dir, w, p) && step.DoPut?
    ensures Haunted(dir, w.(vol := Put(w.vol, step.key, step.body, step.m, step.at, step.lim, step.trouble, {}).st),
                    p - Healed(w, step))
  {
    hide Haunted, Reclaimed, Written, AdmitGone, AdmitOk, Touch;
    var k, m := step.key, step.m;
    if step.trouble == Cancelled || k == "" {
      assert p - {} == p;
    } else if m.immutable && k in w.vol.files {
      FilesAreReal(dir, w, p, k);
      TouchHaunts(dir, w, p, k, step.at);
      assert p - {} == p;
    } else {
      var gone := AdmitGone(w.vol.ix.order, step.lim, Claim(m));
      var w1 := w.(vol := Reclaimed(w.vol, gone, {}));
      ReclaimHaunts(dir, w, p, gone);
      WriteHaunts(dir, w1, p - gone, k, step.body, m, step.at);
      assert p - gone - {k} == p - (gone + {k}) && p - gone == p - (gone + {});
    }
  }

  lemma FilesAreReal(dir: string -> int, w: Walking, p: set<string>, k: string)
    requires Haunted(dir, w, p) && k in w.vol.files
    ensures k !in p
  {
  }

  lemma GetHaunts(dir: string -> int, w: Walking, p: set<string>, k: string, at: int)
    requires Haunted(dir, w, p)
    ensures Haunted(dir, w.(vol := Looked(w.vol, k, at, {})), p)
  {
    hide Touch, AddIfAbsent, Inv, Dict, Distinct, Lru.Without;
    if k in w.vol.files {
      FilesAreReal(dir, w, p, k);
      match w.vol.files[k]
      case Rot =>
        DeleteHaunts(dir, w, p, k);
        assert p - {k} == p;
      case Good(o) =>
        hide Haunted, Holds;
        if Holds(w.vol.ix.order, k) {
          TouchHaunts(dir, w, p, k, at);
        } else {
          HauntedInv(dir, w, p);
          HitKeeps(dir, Clean(w, p), k, o, at);
          AddHaunts(dir, w, p, EntryFor(k, o.meta.size, at, o.meta.immutable));
        }
    }
  }

  lemma HauntedInv(dir: string -> int, w: Walking, p: set<string>)
    requires Haunted(dir, w, p)
    ensures Inv(dir, Clean(w, p)) && Distinct(w.vol.ix.order)
    ensures w.held != Nothing ==> w.held.key !in p
  {
  }

  /** A lost race: the entry stays, its file goes. */
  lemma RaceHaunts(dir: string -> int, w: Walking, p: set<string>, w': Walking)
    requires Haunted(dir, w, p) && Next(dir, w, UnlinkHeld, w') && Races(w, UnlinkHeld)
    ensures Haunted(dir, w', p + {w.held.key})
  {
    hide Dict, Distinct;
    var k, q := w.held.key, p + {w.held.key};
    CleanDict(w, p);
    CleanDict(w', q);
    var c, c' := Clean(w, p), Clean(w', q);
    assert Dict(c'.vol.ix.order) == Dict(c.vol.ix.order) - {k};
    assert k in Dict(c.vol.ix.order) && w'.vol.files == w.vol.files - {k};
    assert NoPhantom(c'.vol);
  }

  /** The walk's other steps. */
  lemma WalkerHaunts(dir: string -> int, w: Walking, p: set<string>, step: Step, w': Walking)
    requires Haunted(dir, w, p) && Next(dir, w, step, w') && !Races(w, step)
    requires step.ListDir? || step.Open? || step.UnlinkHeld? || step.Finish?
    ensures Haunted(dir, w', p)
  {
    hide Dict, Distinct, FinishWalk;
    CleanDict(w, p);
    if step.Finish? {
      DictFinish(w.vol.ix);
      FinishClears(w.vol.ix);
    }
    CleanDict(w', p);
  }

  lemma AddHeldHaunts(dir: string -> int, w: Walking, p: set<string>, at: int, w': Walking)
    requires Haunted(dir, w, p) && Next(dir, w, AddHeld(at), w')
    ensures Haunted(dir, w', p)
  {
    hide Dict, Distinct, Inv, AddIfAbsent;
    var e := EntryFor(w.held.key, w.held.obj.meta.size, at, w.held.obj.meta.immutable);
    var c := Clean(w, p);
    var c' := c.(held := Nothing, vol := c.vol.(ix := AddIfAbsent(c.vol.ix, e)));
    CleanDict(w, p);
    DictAdd(w.vol.ix, e);
    AddKeepsRest(w.vol.ix, e);
    CleanDict(w', p);
    WalkerKeeps(dir, c, AddHeld(at), c');
    DictAdd(c.vol.ix, e);
    AddKeepsRest(c.vol.ix, e);
    InvByDict(dir, c', Clean(w', p));
  }

  lemma StepHaunts(dir: string -> int, w: Walking, p: set<string>, step: Step, w': Walking)
    requires Haunted(dir, w, p) && Next(dir, w, step, w')
    ensures Haunted(dir, w', p + Raced(w, step) - Healed(w, step))
  {
    hide Haunted, Put, Looked, Deleted, AdmitGone;
    assert p + {} == p && p - {} == p;
    match step
    case DoPut(_, _, _, _, _, _) => PutHaunts(dir, w, p, step);
    case DoGet(k, at) => GetHaunts(dir, w, p, k, at);
    case DoDelete(k) => DeleteHaunts(dir, w, p, k);
    case DoEvict(n, f) =>
      HauntedInv(dir, w, p);
      EvictedReclaims(w.vol, n, f, {});
      ReclaimHaunts(dir, w, p, KeysOf(Take(w.vol.ix.order, n, f).victims));
    case AddHeld(at) => AddHeldHaunts(dir, w, p, at, w');
    case UnlinkHeld =>
      if Races(w, step) {
        RaceHaunts(dir, w, p, w');
        assert p + {w.held.key} - {} == p + {w.held.key};
      } else {
        WalkerHaunts(dir, w, p, step, w');
      }
    case _ => WalkerHaunts(dir, w, p, step, w');
  }

  /** The phantoms before step i: raced, and not written, deleted or evicted since. */
  ghost function Left(ws: seq<Walking>, steps: seq<Step>, i: nat): set<string>
    requires |ws| == |steps| + 1 && i < |ws|
  {
    if i == 0 then {}
    else Left(ws, steps, i - 1) + Raced(ws[i - 1], steps[i - 1]) - Healed(ws[i - 1], steps[i - 1])
  }

  lemma {:induction false} LeftIs(ws: seq<Walking>, steps: seq<Step>, i: nat, k: string)
    requires |ws| == |steps| + 1 && i < |ws|
    ensures k in Left(ws, steps, i) <==>
              exists j :: 0 <= j < i && k in Raced(ws[j], steps[j])
                          && forall h :: j <= h < i ==> k !in Healed(ws[h], steps[h])
  {
    hide Raced, Healed;
    if i > 0 {
      LeftIs(ws, steps, i - 1, k);
    }
  }

  lemma StartHaunts(dir: string -> int, w: Walking)
    requires Start(dir, w)
    ensures Haunted(dir, w, {})
  {
    StartKeeps(dir, w);
    hide Inv, Dict;
    MinusNone([], {});
    assert Clean(w, {}) == w;
  }

  lemma {:induction false} RunHaunts(dir: string -> int, ws: seq<Walking>, steps: seq<Step>, i: nat)
    requires Run(dir, ws, steps) && i < |ws|
    ensures Haunted(dir, ws[i], Left(ws, steps, i))
  {
    hide Haunted, Next, Raced, Healed, Start;
    if i == 0 {
      StartHaunts(dir, ws[0]);
    } else {
      RunHaunts(dir, ws, steps, i - 1);
      StepHaunts(dir, ws[i - 1], Left(ws, steps, i - 1), steps[i - 1], ws[i]);
    }
  }

  /** In every run, races lost or not, the entries without a file are exactly the raced keys that
      have not been written, deleted or evicted since; so a walk that ran to its end leaves the
      index exact if and only if there is none. */
  lemma ExactUnlessHaunted(dir: string -> int, ws: seq<Walking>, steps: seq<Step>, i: nat)
    requires Run(dir, ws, steps) && i < |ws|
    ensures forall k :: k in Left(ws, steps, i) <==> k in Dict(ws[i].vol.ix.order) && k !in ws[i].vol.files
    ensures NoPhantom(ws[i].vol) <==> Left(ws, steps, i) == {}
    ensures !ws[i].vol.ix.cold ==> (Exact(ws[i].vol) <==> Left(ws, steps, i) == {})
  {
    hide Dict, Distinct, Left;
    RunHaunts(dir, ws, steps, i);
    var w, p := ws[i], Left(ws, steps, i);
    CleanDict(w, p);
    var d := Dict(w.vol.ix.order);
    assert forall k :: k in d && k !in p ==> k in Dict(Clean(w, p).vol.ix.order);
    if p != {} {
      var k :| k in p;
      assert k in d && k !in w.vol.files;
    }
  }
}
