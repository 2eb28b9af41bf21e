/** A volume whose Puts are honest about their size never outgrows its budget
    (engine/disk/disk.go, Put; engine/gc/gc.go, Admit). */
module Budget {
  import opened Keys
  import opened Tiers
  import opened Lru
  import opened Eviction
  import opened IndexMap
  import opened Int64
  import opened Collection
  import opened Volume
  import opened Walk

  /** Files have names and lengths. */
  ghost predicate Named(files: map<string, File>) {
    "" !in files && forall k :: k in files && files[k].Good? ==> files[k].obj.meta.size >= 0
  }

  /** A warm index over its volume. */
  ghost predicate Settled(dir: string -> int, w: Walking) {
    Inv(dir, w) && !w.vol.ix.cold && Named(w.vol.files)
  }

  lemma SettledSound(dir: string -> int, w: Walking)
    requires Settled(dir, w) && Bytes(w.vol.ix.order) <= INT64_MAX
    ensures Sound(w.vol.ix.order)
  {
    Lookup(w.vol.ix.order);
    forall e | e in w.vol.ix.order ensures WellMade(e) {
      assert e.key in Dict(w.vol.ix.order);
    }
  }

  lemma WithoutBytes(s: seq<Entry>, k: string)
    requires Sound(s)
    ensures Bytes(Without(s, k)) == Bytes(s) - (if Holds(s, k) then Find(s, k).onDisk else 0)
    ensures Bytes(Without(s, k)) <= Bytes(s)
  {
    Lookup(s);
    if Holds(s, k) {
      var i :| 0 <= i < |s| && s[i].key == k;
      assert s[i] in s;
      WithoutAt(s, i);
      TotalsWithoutAt(s, i, "");
    } else {
      WithoutAbsent(s, k);
    }
  }

  lemma TouchBytes(ix: Index, k: string, at: int)
    requires Sound(ix.order)
    ensures Bytes(Touch(ix, k, at).order) == Bytes(ix.order)
  {
    hide Sound, Find;
    WithoutBytes(ix.order, k);
    if Holds(ix.order, k) {
      TotalsWithFront(Find(ix.order, k).(lastAccess := at), Without(ix.order, k), "");
    }
  }

  lemma ReclaimBytes(s: seq<Entry>, gone: set<string>)
    requires Sound(s)
    ensures Sound(Minus(s, gone)) && Bytes(Minus(s, gone)) <= Bytes(s)
  {
    MinusSound(s, gone);
    MinusShrinks(s, gone);
  }

  /** A declared size whose admission int64 arithmetic gets right under a budget: neither the sum
      with the header nor, if that is admitted at all, the sum with what is used can wrap. */
  predicate Fits64(size: int, budget: int) {
    size <= INT64_MAX - HEADER && (HEADER + size > budget || budget + HEADER + size <= INT64_MAX)
  }

  /** Up to 2^62 only the sum with the header matters. */
  lemma SmallBudgetsFit(size: int, budget: int)
    requires budget <= INT64_MAX / 2
    ensures Fits64(size, budget) <==> size <= INT64_MAX - HEADER
  {
  }

  /** The claim wraps exactly for the sizes the header carries past int64, and Admit lets it by. */
  lemma ClaimWraps(m: Meta)
    requires 0 <= m.size <= INT64_MAX
    ensures Claim(m) <= 0 <==> m.size > INT64_MAX - HEADER
  {
  }

  /** What any Put can do to the total: at most the bytes by which the body exceeds its claim,
      when the claim fits. It is refused for space exactly when header and declared size exceed
      the budget and their sum does not wrap. */
  lemma PutBytes(st: State, k: string, body: Body, m: Meta, at: int, lim: Limits, trouble: Trouble)
    requires Sound(st.ix.order) && Bytes(st.ix.order) <= lim.budget <= INT64_MAX && 0 <= m.size <= INT64_MAX
    ensures var o := Put(st, k, body, m, at, Some(lim), trouble, {});
            && (o.error == None && Fits64(m.size, lim.budget) ==>
                  Bytes(o.st.ix.order) <= lim.budget + |body| - m.size)
            && (o.error != None ==> Bytes(o.st.ix.order) <= lim.budget)
            && (trouble != Cancelled && k != "" && !(m.immutable && k in st.files) ==>
                  (o.error == Some(NoSpace) <==> HEADER + m.size > lim.budget && m.size <= INT64_MAX - HEADER))
  {
    hide Sound, Minus, Without, Touch, FrontendDir, Bytes, CollectGone, Collected;
    var s := st.ix.order;
    TouchBytes(st.ix, k, at);
    var size := Claim(m);
    if size > 0 {
      AdmitExact(s, lim.budget, lim.cfg, size);
    }
    var gone := AdmitGone(s, Some(lim), size);
    CollectedMinus(s, lim.budget, lim.cfg, size);
    NothingGone(s);
    assert Minus(s, gone) == Admitted(s, lim.budget, lim.cfg, size);
    ReclaimBytes(s, gone);
    WithoutBytes(Minus(s, gone), k);
    TotalsWithFront(EntryFor(k, |body|, at, m.immutable), Without(Minus(s, gone), k), "");
  }

  /** Whether a Put of a body within its declared size can take a settled volume past its budget. */
  ghost predicate StaysWithin(dir: string -> int, m: Meta, lim: Limits) {
    forall w: Walking, k, body: Body, at, trouble ::
      Settled(dir, w) && Bytes(w.vol.ix.order) <= lim.budget && |body| <= m.size ==>
        Bytes(Put(w.vol, k, body, m, at, Some(lim), trouble, {}).st.ix.order) <= lim.budget
  }

  /** It cannot if and only if the declared size fits. */
  lemma PutStaysWithin(dir: string -> int, m: Meta, lim: Limits)
    requires 0 <= m.size <= INT64_MAX && 0 <= lim.budget <= INT64_MAX
    ensures StaysWithin(dir, m, lim) <==> Fits64(m.size, lim.budget)
  {
    hide Put, Sound, Bytes, Settled;
    if Fits64(m.size, lim.budget) {
      forall w: Walking, k, body: Body, at, trouble |
        Settled(dir, w) && Bytes(w.vol.ix.order) <= lim.budget && |body| <= m.size
        ensures Bytes(Put(w.vol, k, body, m, at, Some(lim), trouble, {}).st.ix.order) <= lim.budget
      {
        SettledSound(dir, w);
        PutBytes(w.vol, k, body, m, at, lim, trouble);
      }
    } else {
      var w, body := Overflow(dir, m, lim);
      assert Bytes(Put(w.vol, "k", body, m, 0, Some(lim), Works, {}).st.ix.order) > lim.budget;
    }
  }

  /** The input: an empty volume when the claim itself wraps, one object that fills the budget
      when the total does. */
  lemma Overflow(dir: string -> int, m: Meta, lim: Limits) returns (w: Walking, body: Body)
    requires 0 <= m.size <= INT64_MAX && 0 <= lim.budget <= INT64_MAX && !Fits64(m.size, lim.budget)
    ensures Settled(dir, w) && Bytes(w.vol.ix.order) <= lim.budget && |body| <= m.size
    ensures Bytes(Put(w.vol, "k", body, m, 0, Some(lim), Works, {}).st.ix.order) > lim.budget
  {
    hide Put, FrontendDir, Settled;
    if m.size > INT64_MAX - HEADER {
      var n := if lim.budget < HEADER then 0 else lim.budget - HEADER + 1;
      body := seq(n, i => 0);
      w := Walking(State(map[], Index([], false, {})), {}, {}, Nothing);
      EmptySettled(dir);
      ClaimWraps(m);
    } else {
      body := seq(m.size, i => 0);
      w := OneObject(dir, lim.budget);
    }
    LetBy(w.vol, body, m, lim);
  }

  lemma EmptySettled(dir: string -> int)
    ensures Settled(dir, Walking(State(map[], Index([], false, {})), {}, {}, Nothing))
  {
    Lookup([]);
  }

  /** A settled volume with one object, of any size on disk from a header up. */
  lemma OneObject(dir: string -> int, onDisk: int) returns (w: Walking)
    requires onDisk >= HEADER
    ensures Settled(dir, w) && Bytes(w.vol.ix.order) == onDisk
    ensures !Holds(w.vol.ix.order, "k") && "k" !in w.vol.files
  {
    hide FrontendDir;
    var o := Stored(seq(onDisk - HEADER, i => 0), Meta(0, 0, "", false));
    var e := EntryFor("f", onDisk - HEADER, 0, false);
    w := Walking(State(map["f" := Good(o)], Index([e], false, {})), {}, {}, Nothing);
    BytesOne(e);
    Lookup([e]);
    assert e in [e];
  }

  /** A Put that admission lets by without a pass adds its bytes to the total. */
  lemma LetBy(st: State, body: Body, m: Meta, lim: Limits)
    requires !Holds(st.ix.order, "k") && "k" !in st.files
    requires AdmitSpec(st.ix.order, lim.budget, lim.cfg, Claim(m)) == Admission(true, false)
    ensures Bytes(Put(st, "k", body, m, 0, Some(lim), Works, {}).st.ix.order) == Bytes(st.ix.order) + HEADER + |body|
  {
    hide Bytes, FrontendDir, AdmitSpec;
    ReclaimedNothing(st, {});
    WithoutAbsent(st.ix.order, "k");
    TotalsWithFront(EntryFor("k", |body|, 0, m.immutable), st.ix.order, "");
  }

  lemma NothingGone(s: seq<Entry>)
    ensures Minus(s, {}) == s
  {
    MinusNone(s, {});
  }

  lemma PutNames(st: State, k: string, body: Body, m: Meta, at: int, lim: Option<Limits>, trouble: Trouble)
    requires Named(st.files)
    ensures Named(Put(st, k, body, m, at, lim, trouble, {}).st.files)
  {
    hide AdmitGone, AdmitOk;
  }

  /** A step of a client that tells the truth and declares a size that fits, under one collector
      with a fixed budget. */
  predicate Honest(step: Step, lim: Limits) {
    match step
    case DoPut(_, body, m, _, l, _) => l == Some(lim) && |body| <= m.size && Fits64(m.size, lim.budget)
    case DoGet(_, _) => true
    case DoDelete(_) => true
    case DoEvict(_, _) => true
    case _ => false
  }

  lemma HonestStep(dir: string -> int, w: Walking, step: Step, w': Walking, lim: Limits)
    requires Settled(dir, w) && Honest(step, lim) && Next(dir, w, step, w')
    requires Bytes(w.vol.ix.order) <= lim.budget <= INT64_MAX
    ensures Settled(dir, w') && Bytes(w'.vol.ix.order) <= lim.budget
  {
    hide Bytes, Sound, Put, Touch, Without, Take, Dict, Minus, Inv;
    StepKeeps(dir, w, step, w');
    SettledSound(dir, w);
    var s := w.vol.ix.order;
    match step
    case DoPut(k, body, m, at, l, trouble) =>
      PutBytes(w.vol, k, body, m, at, lim, trouble);
      PutNames(w.vol, k, body, m, at, l, trouble);
      StaysWarm(w.vol, k, body, m, at, l, trouble);
    case DoGet(k, at) =>
      TouchBytes(w.vol.ix, k, at);
      if k in w.vol.files { KnownFile(dir, w, k); }
      WithoutBytes(s, k);
      TouchKeepsWarm(w.vol.ix, k, at);
    case DoDelete(k) => WithoutBytes(s, k);
    case DoEvict(n, f) =>
      SettledDistinct(dir, w);
      TakeRest(s, n, f);
      ReclaimBytes(s, KeysOf(Take(s, n, f).victims));
  }

  lemma SettledDistinct(dir: string -> int, w: Walking)
    requires Settled(dir, w)
    ensures Distinct(w.vol.ix.order)
  {
  }

  lemma TouchKeepsWarm(ix: Index, k: string, at: int)
    ensures Touch(ix, k, at).cold == ix.cold
  {
  }

  lemma StaysWarm(st: State, k: string, body: Body, m: Meta, at: int, lim: Option<Limits>, trouble: Trouble)
    ensures Put(st, k, body, m, at, lim, trouble, {}).st.ix.cold == st.ix.cold
  {
    hide AdmitGone, AdmitOk;
    TouchKeepsWarm(st.ix, k, at);
  }

  lemma KnownFile(dir: string -> int, w: Walking, k: string)
    requires Settled(dir, w) && k in w.vol.files
    ensures w.vol.files[k].Good? && Holds(w.vol.ix.order, k)
  {
    Lookup(w.vol.ix.order);
  }

  /** No sequence of honest operations that starts within the budget ever leaves it. */
  lemma {:induction false} NeverOverBudget(dir: string -> int, ws: seq<Walking>, steps: seq<Step>, lim: Limits,
                                           i: nat)
    requires |ws| == |steps| + 1 && i < |ws|
    requires Settled(dir, ws[0]) && Bytes(ws[0].vol.ix.order) <= lim.budget <= INT64_MAX
    requires forall j :: 0 <= j < |steps| ==> Honest(steps[j], lim) && Next(dir, ws[j], steps[j], ws[j + 1])
    ensures Settled(dir, ws[i]) && Bytes(ws[i].vol.ix.order) <= lim.budget
  {
    hide Settled, Bytes, Honest, Next;
    if i > 0 {
      NeverOverBudget(dir, ws, steps, lim, i - 1);
      HonestStep(dir, ws[i - 1], steps[i - 1], ws[i], lim);
    }
  }
}
