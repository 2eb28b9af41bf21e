/** The start-up walk running beside whole operations (engine/disk/disk.go,
    walk and observe; engine/disk/index.go, addIfAbsent and tombs). The walk
    is split where it can be interrupted: listing a directory, reading a
    header, adding the entry, unlinking what it could not read. */
module Walk {
  import opened Keys
  import opened Tiers
  import opened Lru
  import opened IndexMap
  import opened Volume

  /** What the walk has in hand between two of its steps. */
  datatype Held = Nothing | Header(key: string, obj: Object) | Unreadable(key: string)

  datatype Walking = Walking(vol: State, unlisted: set<int>, listed: set<string>, held: Held)

  datatype Step =
    | ListDir(d: int, names: set<string>)
    | Open(key: string)
    | AddHeld(at: int)
    | UnlinkHeld
    | Finish
    | DoPut(key: string, body: Body, m: Meta, at: int, lim: Option<Limits>, trouble: Trouble)
    | DoGet(key: string, at: int)
    | DoDelete(key: string)
    | DoEvict(n: int, f: string)

  /** dir says which directory of the tree a key's file lives in. */
  ghost predicate Start(dir: string -> int, w: Walking) {
    && w.vol.ix == Index([], true, {})
    && (forall k :: k in w.vol.files ==> dir(k) in w.unlisted)
    && w.listed == {} && w.held == Nothing
  }

  /** A directory listing names every file that is there now; it may also name files long gone. */
  ghost predicate Lists(dir: string -> int, files: map<string, File>, d: int, names: set<string>) {
    forall k :: k in files && dir(k) == d ==> k in names
  }

  ghost predicate Next(dir: string -> int, w: Walking, step: Step, w': Walking) {
    match step
    case ListDir(d, names) =>
      d in w.unlisted && Lists(dir, w.vol.files, d, names) &&
      w' == w.(unlisted := w.unlisted - {d}, listed := w.listed + names)
    case Open(k) =>
      k in w.listed && w.held == Nothing &&
      w' == w.(listed := w.listed - {k}, held := Opened(w.vol.files, k))
    case AddHeld(at) =>
      w.held.Header? &&
      w' == w.(held := Nothing, vol := w.vol.(ix := AddIfAbsent(w.vol.ix,
               EntryFor(w.held.key, w.held.obj.meta.size, at, w.held.obj.meta.immutable))))
    case UnlinkHeld =>
      w.held.Unreadable? && w' == w.(held := Nothing, vol := w.vol.(files := w.vol.files - {w.held.key}))
    case Finish =>
      w.vol.ix.cold && w.unlisted == {} && w.listed == {} && w.held == Nothing &&
      w' == w.(vol := w.vol.(ix := FinishWalk(w.vol.ix)))
    case DoPut(k, body, m, at, lim, trouble) => w' == w.(vol := Put(w.vol, k, body, m, at, lim, trouble, {}).st)
    case DoGet(k, at) => w' == w.(vol := Looked(w.vol, k, at, {}))
    case DoDelete(k) => w' == w.(vol := Deleted(w.vol, k, {}))
    case DoEvict(n, f) =>
      w' == w.(vol := State(Unlinked(w.vol.files, KeysOf(Take(w.vol.ix.order, n, f).victims), {}),
          TakeLru(w.vol.ix, n, f)))
  }

  function Opened(files: map<string, File>, k: string): Held {
    if k !in files then Nothing
    else match files[k]
      case Good(o) => Header(k, o)
      case Rot => Unreadable(k)
  }

  predicate IsGood(files: map<string, File>, k: string) {
    k in files && files[k].Good?
  }

  /** The entry tells the truth about the file. */
  predicate Truthful(e: Entry, o: Object) {
    e.frontend == FrontendDir(e.key) && e.size == o.meta.size && e.onDisk == HEADER + o.meta.size
        && e.immutable == o.meta.immutable
  }

  /** Every entry stands for a file on the volume, with its current size. */
  ghost predicate NoPhantom(st: State) {
    forall k :: k in Dict(st.ix.order) ==> IsGood(st.files, k) && Truthful(Dict(st.ix.order)[k], st.files[k].obj)
  }

  /** Index and volume agree: same keys, current sizes, nothing missed. */
  ghost predicate Exact(st: State) {
    NoPhantom(st) && forall k :: k in st.files ==> k in Dict(st.ix.order)
  }

  /** What every step keeps. */
  ghost predicate Inv(dir: string -> int, w: Walking) {
    var d, files := Dict(w.vol.ix.order), w.vol.files;
    && Distinct(w.vol.ix.order)
    && NoPhantom(w.vol)
    && (forall k :: k in w.vol.ix.tombs ==> k !in files)
    && (forall k :: k in files ==>
          k in d || k in w.listed || dir(k) in w.unlisted || (w.held != Nothing && w.held.key == k))
    && (w.held.Header? ==> w.held.key in d || w.held.key in w.vol.ix.tombs
                           || (w.held.key in files && files[w.held.key] == Good(w.held.obj)))
    && (w.held.Unreadable? ==> IsGood(files, w.held.key) ==> w.held.key in d)
    && (!w.vol.ix.cold ==> w.unlisted == {} && w.listed == {} && w.held == Nothing)
  }

  /** The one race the walk can lose: the file it found unreadable has been replaced by a
      good one before it unlinks the name. */
  predicate Races(w: Walking, step: Step) {
    step.UnlinkHeld? && w.held.Unreadable? && IsGood(w.vol.files, w.held.key)
  }

  lemma StartKeeps(dir: string -> int, w: Walking)
    requires Start(dir, w)
    ensures Inv(dir, w)
  {
    Lookup([]);
  }

  lemma WalkerKeeps(dir: string -> int, w: Walking, step: Step, w': Walking)
    requires Inv(dir, w) && Next(dir, w, step, w') && !Races(w, step)
    requires step.ListDir? || step.Open? || step.AddHeld? || step.UnlinkHeld? || step.Finish?
    ensures Inv(dir, w')
  {
    hide Dict, Distinct, AddIfAbsent, FinishWalk, FrontendDir;
    match step
    case AddHeld(at) =>
      DictAdd(w.vol.ix, EntryFor(w.held.key, w.held.obj.meta.size, at, w.held.obj.meta.immutable));
      AddKeepsRest(w.vol.ix, EntryFor(w.held.key, w.held.obj.meta.size, at, w.held.obj.meta.immutable));
    case Finish =>
      DictFinish(w.vol.ix);
      FinishClears(w.vol.ix);
    case _ =>
  }

  lemma AddKeepsRest(ix: Index, e: Entry)
    ensures AddIfAbsent(ix, e).cold == ix.cold && AddIfAbsent(ix, e).tombs == ix.tombs
  {
  }

  lemma FinishClears(ix: Index)
    ensures !FinishWalk(ix).cold && FinishWalk(ix).tombs == {}
  {
  }

  /** Forgetting keys together with their files, remembered as dead while the walk runs. */
  lemma ForgetKeeps(dir: string -> int, w: Walking, gone: set<string>, w': Walking)
    requires Inv(dir, w)
    requires Distinct(w'.vol.ix.order) && Dict(w'.vol.ix.order) == Dict(w.vol.ix.order) - gone
    requires w' == w.(vol := State(w.vol.files - gone, w.vol.ix.(order := w'.vol.ix.order,
                      tombs := if w.vol.ix.cold then w.vol.ix.tombs + gone else w.vol.ix.tombs)))
    ensures Inv(dir, w')
  {
    hide Dict, Distinct;
  }

  lemma ReclaimKeeps(dir: string -> int, w: Walking, gone: set<string>)
    requires Inv(dir, w)
    ensures Inv(dir, w.(vol := Reclaimed(w.vol, gone, {})))
  {
    DictMinus(w.vol.ix.order, gone);
    assert gone - {} == gone;
    ForgetKeeps(dir, w, gone, w.(vol := Reclaimed(w.vol, gone, {})));
  }

  lemma DeleteKeeps(dir: string -> int, w: Walking, k: string)
    requires Inv(dir, w)
    ensures Inv(dir, w.(vol := Deleted(w.vol, k, {})))
  {
    DictWithout(w.vol.ix.order, k);
    assert {k} - {} == {k};
    ForgetKeeps(dir, w, {k}, w.(vol := Deleted(w.vol, k, {})));
  }

  lemma TouchKeeps(dir: string -> int, w: Walking, k: string, at: int)
    requires Inv(dir, w)
    ensures Inv(dir, w.(vol := w.vol.(ix := Touch(w.vol.ix, k, at))))
  {
    hide Dict, Distinct, FrontendDir, Find, Without, Holds;
    DictTouch(w.vol.ix, k, at);
  }

  lemma WriteKeeps(dir: string -> int, w: Walking, k: string, body: Body, m: Meta, at: int)
    requires Inv(dir, w)
    ensures Inv(dir, w.(vol := Written(w.vol, k, body, m, at)))
  {
    hide Dict, Distinct, FrontendDir, Without;
    DictSet(w.vol.ix, EntryFor(k, |body|, at, m.immutable));
  }

  lemma PutKeeps(dir: string -> int, w: Walking, k: string, body: Body, m: Meta, at: int,
                 lim: Option<Limits>, trouble: Trouble)
    requires Inv(dir, w)
    ensures Inv(dir, w.(vol := Put(w.vol, k, body, m, at, lim, trouble, {}).st))
  {
    hide Inv, Reclaimed, Written, AdmitGone, AdmitOk, Touch;
    TouchKeeps(dir, w, k, at);
    var gone := AdmitGone(w.vol.ix.order, lim, Claim(m));
    ReclaimKeeps(dir, w, gone);
    WriteKeeps(dir, w.(vol := Reclaimed(w.vol, gone, {})), k, body, m, at);
  }

  lemma GetKeeps(dir: string -> int, w: Walking, k: string, at: int)
    requires Inv(dir, w)
    ensures Inv(dir, w.(vol := Looked(w.vol, k, at, {})))
  {
    if k in w.vol.files {
      match w.vol.files[k]
      case Rot => DeleteKeeps(dir, w, k);
      case Good(o) =>
        if Holds(w.vol.ix.order, k) {
          TouchKeeps(dir, w, k, at);
        } else {
          HitKeeps(dir, w, k, o, at);
        }
    }
  }

  /** A hit on a file the walk has not reached: the index takes it with its current size. */
  lemma HitKeeps(dir: string -> int, w: Walking, k: string, o: Object, at: int)
    requires Inv(dir, w) && k in w.vol.files && w.vol.files[k] == Good(o)
    ensures Inv(dir, w.(vol := w.vol.(ix := AddIfAbsent(w.vol.ix, EntryFor(k, o.meta.size, at, o.meta.immutable)))))
  {
    hide Dict, Distinct, FrontendDir, AddIfAbsent;
    var e := EntryFor(k, o.meta.size, at, o.meta.immutable);
    DictAdd(w.vol.ix, e);
    AddKeepsRest(w.vol.ix, e);
  }

  /** Every step but the lost race keeps the invariant. */
  lemma StepKeeps(dir: string -> int, w: Walking, step: Step, w': Walking)
    requires Inv(dir, w) && Next(dir, w, step, w') && !Races(w, step)
    ensures Inv(dir, w')
  {
    hide Inv, Put, Looked, Deleted;
    match step
    case DoPut(k, body, m, at, lim, trouble) => PutKeeps(dir, w, k, body, m, at, lim, trouble);
    case DoGet(k, at) => GetKeeps(dir, w, k, at);
    case DoDelete(k) => DeleteKeeps(dir, w, k);
    case DoEvict(n, f) =>
      InvDistinct(dir, w);
      EvictedReclaims(w.vol, n, f, {});
      ReclaimKeeps(dir, w, KeysOf(Take(w.vol.ix.order, n, f).victims));
    case _ => WalkerKeeps(dir, w, step, w');
  }

  lemma InvDistinct(dir: string -> int, w: Walking)
    requires Inv(dir, w)
    ensures Distinct(w.vol.ix.order)
  {
  }

  /** Losing the race leaves a phantom, and nothing else does. */
  lemma RaceExact(dir: string -> int, w: Walking, step: Step, w': Walking)
    requires Inv(dir, w) && Next(dir, w, step, w')
    ensures NoPhantom(w'.vol) <==> !Races(w, step)
  {
    if Races(w, step) {
      assert w.held.key in Dict(w'.vol.ix.order) && w.held.key !in w'.vol.files;
    } else {
      StepKeeps(dir, w, step, w');
    }
  }

  ghost predicate Run(dir: string -> int, ws: seq<Walking>, steps: seq<Step>) {
    && |ws| == |steps| + 1 && Start(dir, ws[0])
    && forall i :: 0 <= i < |steps| ==> Next(dir, ws[i], steps[i], ws[i + 1])
  }

  ghost predicate NoRace(ws: seq<Walking>, steps: seq<Step>)
    requires |ws| == |steps| + 1
  {
    forall i :: 0 <= i < |steps| ==> !Races(ws[i], steps[i])
  }

  lemma {:induction false} RunKeeps(dir: string -> int, ws: seq<Walking>, steps: seq<Step>, i: nat)
    requires Run(dir, ws, steps) && NoRace(ws, steps) && i < |ws|
    ensures Inv(dir, ws[i])
  {
    hide Inv, Next, Races, Start;
    if i == 0 {
      StartKeeps(dir, ws[0]);
    } else {
      RunKeeps(dir, ws, steps, i - 1);
      StepKeeps(dir, ws[i - 1], steps[i - 1], ws[i]);
    }
  }

  /** A walk that ran to its end, whatever ran beside it, leaves the index exact, and it stays exact. */
  lemma WalkExact(dir: string -> int, ws: seq<Walking>, steps: seq<Step>, i: nat)
    requires Run(dir, ws, steps) && NoRace(ws, steps) && i < |ws| && !ws[i].vol.ix.cold
    ensures Exact(ws[i].vol)
  {
    RunKeeps(dir, ws, steps, i);
  }

  /** At no moment, finished or not, does the index claim a file that is not there or a size it no longer has. */
  lemma NeverPhantom(dir: string -> int, ws: seq<Walking>, steps: seq<Step>, i: nat)
    requires Run(dir, ws, steps) && NoRace(ws, steps) && i < |ws|
    ensures NoPhantom(ws[i].vol)
  {
    RunKeeps(dir, ws, steps, i);
  }

  /** The race is real: a walk that read a rotten file, a Put of that key, then the walk's unlink. */
  lemma RaceReachable() returns (dir: string -> int, ws: seq<Walking>, steps: seq<Step>)
    ensures Run(dir, ws, steps) && !NoPhantom(ws[|steps|].vol)
  {
    dir := k => 0;
    var k, m := "k", Meta(0, 0, "", false);
    var v0 := State(map[k := Rot], Index([], true, {}));
    var put := DoPut(k, [], m, 1, None, Works);
    var w0 := Walking(v0, {0}, {}, Nothing);
    var w1 := w0.(unlisted := w0.unlisted - {0}, listed := w0.listed + {k});
    var w2 := w1.(listed := w1.listed - {k}, held := Unreadable(k));
    ReclaimedNothing(v0, {});
    var w3 := w2.(vol := Put(v0, k, [], m, 1, None, Works, {}).st);
    var w4 := w3.(held := Nothing, vol := w3.vol.(files := w3.vol.files - {k}));
    ws, steps := [w0, w1, w2, w3, w4], [ListDir(0, {k}), Open(k), put, UnlinkHeld];
    DictSet(v0.ix, EntryFor(k, 0, 1, false));
    assert Next(dir, w0, steps[0], w1) && Next(dir, w1, steps[1], w2) && Next(dir, w2, steps[2], w3)
             && Next(dir, w3, steps[3], w4);
    assert k in Dict(w4.vol.ix.order) && k !in w4.vol.files;
  }
}
