/** After the walk the list is in order of use, as long as the clock does not
    run backwards, so evictions take the oldest (engine/disk/index.go). */
module Recency {
  import opened Tiers
  import opened Lru
  import opened Eviction
  import opened IndexMap
  import opened Volume
  import opened Walk

  ghost predicate Recent(s: seq<Entry>, now: int) {
    && (forall i, j :: 0 <= i < j < |s| ==> s[i].lastAccess >= s[j].lastAccess)
    && (forall e :: e in s ==> e.lastAccess <= now)
  }

  lemma {:induction false} MinusRecent(s: seq<Entry>, ks: set<string>, now: int)
    requires Recent(s, now)
    ensures Recent(Minus(s, ks), now)
  {
    if s != [] {
      var t := s[1..];
      assert forall i :: 0 <= i < |t| ==> t[i] == s[i + 1];
      MinusRecent(t, ks, now);
      MinusMembers(s, ks);
      MinusMembers(t, ks);
      forall x | x in Minus(t, ks) ensures s[0].lastAccess >= x.lastAccess {
        var i :| 0 <= i < |t| && t[i] == x;
      }
    }
  }

  lemma FrontRecent(e: Entry, s: seq<Entry>, was: int, now: int)
    requires Recent(s, was) && was <= now && e.lastAccess == now
    ensures Recent([e] + s, now)
  {
    forall i | 0 <= i < |s| ensures s[i].lastAccess <= now {
      assert s[i] in s;
    }
  }

  lemma LaterRecent(s: seq<Entry>, was: int, now: int)
    requires Recent(s, was) && was <= now
    ensures Recent(s, now)
  {
  }

  lemma FinishRecent(ix: Index, now: int)
    requires Distinct(ix.order) && forall e :: e in ix.order ==> e.lastAccess <= now
    ensures Recent(FinishWalk(ix).order, now)
  {
    SortsByAccess(ix.order);
    var r := SortByAccess(ix.order);
    forall i, j | 0 <= i < j < |r| ensures r[i].lastAccess >= r[j].lastAccess {
      assert Newer(r[i], r[j]);
    }
  }

  lemma TouchRecent(ix: Index, k: string, was: int, now: int)
    requires Distinct(ix.order) && Recent(ix.order, was) && was <= now
    ensures Recent(Touch(ix, k, now).order, now)
  {
    hide Recent, Find, Without;
    LaterRecent(ix.order, was, now);
    if Holds(ix.order, k) {
      WithoutIsMinus(ix.order, k);
      MinusRecent(ix.order, {k}, was);
      FrontRecent(Find(ix.order, k).(lastAccess := now), Without(ix.order, k), was, now);
    }
  }

  lemma PutRecent(st: State, k: string, body: Body, m: Meta, lim: Option<Limits>, trouble: Trouble, was: int,
                  now: int)
    requires Distinct(st.ix.order) && Recent(st.ix.order, was) && was <= now
    ensures var ix := Put(st, k, body, m, now, lim, trouble, {}).st.ix; Recent(ix.order, now) && ix.cold == st.ix.cold
  {
    hide Recent, Without, AdmitGone, AdmitOk, Minus;
    LaterRecent(st.ix.order, was, now);
    TouchRecent(st.ix, k, was, now);
    var gone := AdmitGone(st.ix.order, lim, Claim(m));
    var s := Minus(st.ix.order, gone);
    MinusRecent(st.ix.order, gone, was);
    MinusKeepsDistinct(st.ix.order, gone);
    LaterRecent(s, was, now);
    WithoutIsMinus(s, k);
    MinusRecent(s, {k}, was);
    FrontRecent(EntryFor(k, |body|, now, m.immutable), Without(s, k), was, now);
  }

  lemma GetRecent(st: State, k: string, was: int, now: int)
    requires Distinct(st.ix.order) && Recent(st.ix.order, was) && was <= now
    ensures var ix := Looked(st, k, now, {}).ix; Recent(ix.order, now) && ix.cold == st.ix.cold
  {
    hide Recent, Without;
    LaterRecent(st.ix.order, was, now);
    TouchRecent(st.ix, k, was, now);
    WithoutIsMinus(st.ix.order, k);
    MinusRecent(st.ix.order, {k}, now);
    if k in st.files && st.files[k].Good? {
      FrontRecent(EntryFor(k, st.files[k].obj.meta.size, now, st.files[k].obj.meta.immutable), st.ix.order, was, now);
    }
  }

  /** The clock reading a step uses, when it uses one. */
  predicate At(step: Step, now: int) {
    match step
    case DoPut(_, _, _, at, _, _) => at == now
    case DoGet(_, at) => at == now
    case _ => true
  }

  lemma DeleteRecent(st: State, k: string, now: int)
    requires Distinct(st.ix.order) && Recent(st.ix.order, now)
    ensures var ix := Deleted(st, k, {}).ix; Recent(ix.order, now) && ix.cold == st.ix.cold
  {
    hide Recent, Without;
    WithoutIsMinus(st.ix.order, k);
    MinusRecent(st.ix.order, {k}, now);
  }

  lemma EvictRecent(ix: Index, n: int, f: string, now: int)
    requires Distinct(ix.order) && Recent(ix.order, now)
    ensures Recent(TakeLru(ix, n, f).order, now)
  {
    hide Recent, Take, KeysOf;
    TakeRest(ix.order, n, f);
    MinusRecent(ix.order, KeysOf(Take(ix.order, n, f).victims), now);
  }

  lemma InvWarm(dir: string -> int, w: Walking)
    requires Inv(dir, w) && !w.vol.ix.cold
    ensures w.unlisted == {} && w.held == Nothing && Distinct(w.vol.ix.order)
  {
  }

  lemma StepRecent(dir: string -> int, w: Walking, step: Step, w': Walking, was: int, now: int)
    requires Inv(dir, w) && !w.vol.ix.cold && Next(dir, w, step, w') && At(step, now) && was <= now
    requires Recent(w.vol.ix.order, was)
    ensures Recent(w'.vol.ix.order, now) && !w'.vol.ix.cold
  {
    InvWarm(dir, w);
    hide Recent, Inv, Distinct, Put, Looked, Deleted, Take, KeysOf, Unlinked;
    LaterRecent(w.vol.ix.order, was, now);
    match step
    case DoPut(k, body, m, at, lim, trouble) => PutRecent(w.vol, k, body, m, lim, trouble, was, now);
    case DoGet(k, at) => GetRecent(w.vol, k, was, now);
    case DoDelete(k) => DeleteRecent(w.vol, k, now);
    case DoEvict(n, f) => EvictRecent(w.vol.ix, n, f, now);
    case _ =>
  }

  /** From the end of the walk on, in every run whose clock does not go back. */
  lemma {:induction false} WarmRecent(dir: string -> int, ws: seq<Walking>, steps: seq<Step>, clock: seq<int>,
                                      done: nat, i: nat)
    requires Run(dir, ws, steps) && NoRace(ws, steps) && |clock| == |ws|
    requires done < i < |ws| && steps[done] == Finish
    requires forall e :: e in ws[done].vol.ix.order ==> e.lastAccess <= clock[done]
    requires forall j :: done <= j < |steps| ==> clock[j] <= clock[j + 1] && At(steps[j], clock[j + 1])
    ensures Recent(ws[i].vol.ix.order, clock[i]) && !ws[i].vol.ix.cold
  {
    hide Recent, Inv, At, Next, Races;
    if i == done + 1 {
      RunKeeps(dir, ws, steps, done);
      InvDistinct(dir, ws[done]);
      FinishRecent(ws[done].vol.ix, clock[done]);
      FinishStep(dir, ws[done], ws[i]);
      LaterRecent(ws[i].vol.ix.order, clock[done], clock[i]);
    } else {
      WarmRecent(dir, ws, steps, clock, done, i - 1);
      RunKeeps(dir, ws, steps, i - 1);
      StepRecent(dir, ws[i - 1], steps[i - 1], ws[i], clock[i - 1], clock[i]);
    }
  }

  lemma FinishStep(dir: string -> int, w: Walking, w': Walking)
    requires Next(dir, w, Finish, w')
    ensures w'.vol.ix == FinishWalk(w.vol.ix) && !w'.vol.ix.cold
  {
  }

  /** In such a run no eviction takes an object used later than a candidate it spares. */
  lemma EvictsOldest(dir: string -> int, ws: seq<Walking>, steps: seq<Step>, clock: seq<int>, done: nat, i: nat,
                     n: int, f: string, victim: Entry, spared: Entry)
    requires Run(dir, ws, steps) && NoRace(ws, steps) && |clock| == |ws|
    requires done < i < |ws| && steps[done] == Finish
    requires forall e :: e in ws[done].vol.ix.order ==> e.lastAccess <= clock[done]
    requires forall j :: done <= j < |steps| ==> clock[j] <= clock[j + 1] && At(steps[j], clock[j + 1])
    requires victim in Take(ws[i].vol.ix.order, n, f).victims
    requires spared in Take(ws[i].vol.ix.order, n, f).rest && Matches(f, spared)
    ensures victim.lastAccess <= spared.lastAccess
  {
    WarmRecent(dir, ws, steps, clock, done, i);
    TakesOldest(ws[i].vol.ix.order, n, f, victim, spared);
  }
}
