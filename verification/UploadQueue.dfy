/** The write-behind queue (engine/bucket/queue.go): any number of Offers and
    workers and one Stop, interleaved at every atomic action. */
module UploadQueue {
  import opened Sums

  datatype Config = Config(minSize: int, queueBytes: int, slots: int)

  datatype Item = Item(key: string, size: int)

  /** Where one call of Offer is. From Reading on it holds the read lock. */
  datatype Offer =
    | Asked(item: Item)
    | Waiting(item: Item)
    | Reading(item: Item)
    | Claiming(item: Item)
    | Loaded(item: Item, have: int)
    | Claimed(item: Item)
    | Refused(item: Item)
    | Sent(item: Item)
    | Dropping(item: Item)
    | Done(item: Item, took: bool)

  datatype Worker = Receiving | Flushing(item: Item) | Uploaded(item: Item) | Lowered(item: Item) | Exited(halted: bool)

  /** Where the one Stop is; it holds the write lock from Locked to ChannelClosed. */
  datatype Stop = Serving | Locked | Marked | ChannelClosed | Released

  datatype State = State(
    cfg: Config, queued: int, depth: int, dropped: int,
    chan: seq<Item>, halted: bool, offers: seq<Offer>, workers: seq<Worker>, stop: Stop,
    sent: multiset<Item>, flushed: multiset<Item>)

  /** The closed flag and the closed channel are where Stop has got to. */
  predicate Closed(s: State) { s.stop.Marked? || s.stop.ChannelClosed? || s.stop.Released? }
  predicate ChanClosed(s: State) { s.stop.ChannelClosed? || s.stop.Released? }
  predicate WriteLocked(s: State) { s.stop.Locked? || s.stop.Marked? || s.stop.ChannelClosed? }

  predicate ReadLocks(o: Offer) { !o.Asked? && !o.Waiting? && !o.Done? }

  datatype Step =
    | Ask(item: Item)
    | Advance(i: nat)
    | StartWorker
    | Work(i: nat)
    | HaltWorker(i: nat)
    | Halt
    | StopStep

  predicate Can(s: State, step: Step) {
    match step
    case Ask(item) => item.size >= 0
    case Advance(i) => i < |s.offers| && !s.offers[i].Done? && (s.offers[i].Waiting? ==> !WriteLocked(s))
    case StartWorker => true
    case Work(i) => i < |s.workers| && !s.workers[i].Exited? && (s.workers[i].Receiving? ==>
        s.chan != [] || ChanClosed(s))
    case HaltWorker(i) => i < |s.workers| && s.workers[i].Receiving? && s.halted
    case Halt => true
    case StopStep => !s.stop.Released? && (s.stop.Serving? ==> forall o :: o in s.offers ==> !ReadLocks(o))
  }

  /** One action of one Offer. */
  function Advanced(s: State, i: nat): State
    requires i < |s.offers|
  {
    var o := s.offers[i];
    match o
    case Asked(x) => s.(offers := s.offers[i := if x.size < s.cfg.minSize then Done(x, true) else Waiting(x)])
    case Waiting(x) => s.(offers := s.offers[i := Reading(x)])
    case Reading(x) => s.(offers := s.offers[i := if Closed(s) then Dropping(x) else Claiming(x)])
    case Claiming(x) =>
      if s.cfg.queueBytes <= 0 then s.(queued := s.queued + x.size, offers := s.offers[i := Claimed(x)])
      else if s.queued + x.size > s.cfg.queueBytes then s.(offers := s.offers[i := Dropping(x)])
      else s.(offers := s.offers[i := Loaded(x, s.queued)])
    case Loaded(x, have) =>
      if s.queued == have then s.(queued := have + x.size, offers := s.offers[i := Claimed(x)])
      else s.(offers := s.offers[i := Claiming(x)])
    case Claimed(x) =>
      if |s.chan| < s.cfg.slots
      then s.(chan := s.chan + [x], sent := s.sent + multiset{x}, offers := s.offers[i := Sent(x)])
      else s.(offers := s.offers[i := Refused(x)])
    case Refused(x) => s.(queued := s.queued - x.size, offers := s.offers[i := Dropping(x)])
    case Sent(x) => s.(depth := s.depth + 1, offers := s.offers[i := Done(x, true)])
    case Dropping(x) => s.(dropped := s.dropped + 1, offers := s.offers[i := Done(x, false)])
    case Done(_, _) => s
  }

  /** One action of one worker. */
  function Worked(s: State, i: nat): State
    requires i < |s.workers|
  {
    match s.workers[i]
    case Receiving =>
      if s.chan != [] then s.(chan := s.chan[1..], workers := s.workers[i := Flushing(s.chan[0])])
      else s.(workers := s.workers[i := Exited(false)])
    case Flushing(x) => s.(flushed := s.flushed + multiset{x}, workers := s.workers[i := Uploaded(x)])
    case Uploaded(x) => s.(depth := s.depth - 1, workers := s.workers[i := Lowered(x)])
    case Lowered(x) => s.(queued := s.queued - x.size, workers := s.workers[i := Receiving])
    case Exited(_) => s
  }

  function Do(s: State, step: Step): State
    requires Can(s, step)
  {
    match step
    case Ask(item) => s.(offers := s.offers + [Asked(item)])
    case Advance(i) => Advanced(s, i)
    case StartWorker => s.(workers := s.workers + [Receiving])
    case Work(i) => Worked(s, i)
    case HaltWorker(i) => s.(workers := s.workers[i := Exited(true)])
    case Halt => s.(halted := true)
    case StopStep => s.(stop := match s.stop
                                case Serving => Locked
                                case Locked => Marked
                                case Marked => ChannelClosed
                                case ChannelClosed => Released
                                case Released => Released)
  }

  /** A queue as NewQueue makes it: without a sensible number of slots it has one. */
  function Fresh(cfg: Config): State {
    State(cfg.(slots := if cfg.slots <= 0 then 1 else cfg.slots), 0, 0, 0, [], false, [], [], Serving, multiset{},
        multiset{})
  }

  /* ---- what the counters count ---- */

  function Holding(o: Offer): int { if o.Claimed? || o.Refused? then o.item.size else 0 }
  function Carrying(w: Worker): int { if w.Flushing? || w.Uploaded? || w.Lowered? then w.item.size else 0 }
  function Size(x: Item): int { x.size }
  function Unraised(o: Offer): int { if o.Sent? then 1 else 0 }
  function Unlowered(w: Worker): int { if w.Flushing? || w.Uploaded? then 1 else 0 }
  function Lost(o: Offer): int { if o.Done? && !o.took then 1 else 0 }
  function Is(x: Item): Item -> int { (y: Item) => if y == x then 1 else 0 }
  function Unflushed(x: Item): Worker -> int { (w: Worker) => if w == Flushing(x) then 1 else 0 }
  function Accepted(x: Item, min: int): Offer -> int {
    (o: Offer) => if o == Sent(x) || (o == Done(x, true) && x.size >= min) then 1 else 0
  }

  /** queued is the bytes claimed and unresolved, in the channel and in flight. */
  ghost predicate BytesRight(s: State) {
    s.queued == Total(Holding, s.offers) + Total(Size, s.chan) + Total(Carrying, s.workers)
  }

  /** depth is the objects in the channel and in flight, less those sent and not yet counted. */
  ghost predicate DepthRight(s: State) {
    s.depth + Total(Unraised, s.offers) == |s.chan| + Total(Unlowered, s.workers)
  }

  ghost predicate DropsRight(s: State) {
    s.dropped == Total(Lost, s.offers)
  }

  /** An item was enqueued as often as it was uploaded, is waiting or is being uploaded; and
      as often as Offers took it. */
  ghost predicate ItemRight(s: State, x: Item) {
    && s.sent[x] == s.flushed[x] + Total(Is(x), s.chan) + Total(Unflushed(x), s.workers)
    && s.sent[x] == Total(Accepted(x, s.cfg.minSize), s.offers)
  }

  ghost predicate ItemsRight(s: State) {
    forall x :: ItemRight(s, x)
  }

  ghost predicate OfferRight(s: State, o: Offer) {
    && o.item.size >= 0
    && (!o.Asked? && !o.Done? ==> o.item.size >= s.cfg.minSize)
    && (ReadLocks(o) ==> !WriteLocked(s))
    && (ReadLocks(o) && !o.Reading? && !o.Dropping? ==> !Closed(s))
    && (o.Loaded? ==> o.have + o.item.size <= s.cfg.queueBytes)
  }

  ghost predicate Rest(s: State) {
    && (forall i :: 0 <= i < |s.offers| ==> OfferRight(s, s.offers[i]))
    && (forall i :: 0 <= i < |s.workers| ==> Carrying(s.workers[i]) >= 0)
    && (forall i :: 0 <= i < |s.chan| ==> s.chan[i].size >= 0)
    && (s.cfg.queueBytes > 0 ==> s.queued <= s.cfg.queueBytes)
    && (forall i :: 0 <= i < |s.workers| ==> s.workers[i] == Exited(false) ==> ChanClosed(s) && s.chan == [])
  }

  ghost predicate Inv(s: State) {
    BytesRight(s) && DepthRight(s) && DropsRight(s) && ItemsRight(s) && Rest(s)
  }

  lemma FreshInv(cfg: Config)
    ensures Inv(Fresh(cfg))
  {
  }

  lemma AdvanceCounts(s: State, i: nat)
    requires Inv(s) && Can(s, Advance(i))
    ensures var t := Advanced(s, i); BytesRight(t) && DepthRight(t) && DropsRight(t)
  {
    hide Total, Rest, ItemsRight;
    var t := Advanced(s, i);
    TotalUpdate(Holding, s.offers, i, t.offers[i]);
    TotalUpdate(Unraised, s.offers, i, t.offers[i]);
    TotalUpdate(Lost, s.offers, i, t.offers[i]);
    TotalAppend(Size, s.chan, s.offers[i].item);
  }

  lemma AdvanceItem(s: State, i: nat, x: Item)
    requires i < |s.offers| && ItemRight(s, x)
    requires !s.offers[i].Asked? && !s.offers[i].Done? ==> s.offers[i].item.size >= s.cfg.minSize
    ensures ItemRight(Advanced(s, i), x)
  {
    hide Total;
    var t := Advanced(s, i);
    TotalUpdate(Accepted(x, s.cfg.minSize), s.offers, i, t.offers[i]);
    if s.offers[i].Claimed? && |s.chan| < s.cfg.slots {
      TotalAppend(Is(x), s.chan, s.offers[i].item);
    } else {
      NothingSent(s, i, x);
    }
  }

  /** Any other action of an Offer leaves the channel and what counts as taken alone. */
  lemma NothingSent(s: State, i: nat, x: Item)
    requires i < |s.offers| && !(s.offers[i].Claimed? && |s.chan| < s.cfg.slots)
    requires !s.offers[i].Asked? && !s.offers[i].Done? ==> s.offers[i].item.size >= s.cfg.minSize
    ensures var t := Advanced(s, i);
            && t.chan == s.chan && t.sent == s.sent && t.flushed == s.flushed && t.workers == s.workers
                && t.cfg == s.cfg
            && t.offers == s.offers[i := t.offers[i]]
            && Accepted(x, s.cfg.minSize)(t.offers[i]) == Accepted(x, s.cfg.minSize)(s.offers[i])
  {
  }

  lemma AdvanceItems(s: State, i: nat)
    requires Inv(s) && Can(s, Advance(i))
    ensures ItemsRight(Advanced(s, i))
  {
    hide Advanced, BytesRight, DepthRight, DropsRight, Rest, ItemRight;
    RightAt(s, i);
    forall x ensures ItemRight(Advanced(s, i), x) {
      AdvanceItem(s, i, x);
    }
  }

  lemma AdvanceRest(s: State, i: nat)
    requires Inv(s) && Can(s, Advance(i))
    ensures Rest(Advanced(s, i))
  {
    hide Total, BytesRight, DepthRight, DropsRight, ItemsRight;
    hide OfferRight;
    var t := Advanced(s, i);
    AdvanceOffers(s, i);
    RightAt(s, i);
  }

  lemma RightAt(s: State, i: nat)
    requires Rest(s) && i < |s.offers|
    ensures var o := s.offers[i];
            && o.item.size >= 0
            && (!o.Asked? && !o.Done? ==> o.item.size >= s.cfg.minSize)
            && (o.Loaded? ==> o.have + o.item.size <= s.cfg.queueBytes)
            && (o.Claimed? ==> !Closed(s))
  {
    assert OfferRight(s, s.offers[i]);
  }

  lemma AdvanceOffers(s: State, i: nat)
    requires Rest(s) && Can(s, Advance(i))
    ensures forall j :: 0 <= j < |Advanced(s, i).offers| ==> OfferRight(Advanced(s, i), Advanced(s, i).offers[j])
  {
    var t := Advanced(s, i);
    OffersElsewhere(s, t);
    AdvancedOffer(s, i);
    assert forall j :: 0 <= j < |t.offers| && j != i ==> t.offers[j] == s.offers[j];
  }

  lemma AdvancedOffer(s: State, i: nat)
    requires Rest(s) && Can(s, Advance(i))
    ensures OfferRight(Advanced(s, i), Advanced(s, i).offers[i])
  {
    assert OfferRight(s, s.offers[i]);
  }

  lemma WorkCounts(s: State, i: nat)
    requires Inv(s) && Can(s, Work(i))
    ensures var t := Worked(s, i); BytesRight(t) && DepthRight(t) && DropsRight(t)
  {
    hide Total, Rest, ItemsRight;
    var t := Worked(s, i);
    TotalUpdate(Carrying, s.workers, i, t.workers[i]);
    TotalUpdate(Unlowered, s.workers, i, t.workers[i]);
    if s.workers[i].Receiving? && s.chan != [] {
      TotalFront(Size, s.chan);
    }
  }

  lemma TotalFront(f: Item -> int, c: seq<Item>)
    requires c != []
    ensures Total(f, c) == f(c[0]) + Total(f, c[1..])
  {
  }

  lemma WorkItems(s: State, i: nat)
    requires Inv(s) && Can(s, Work(i))
    ensures ItemsRight(Worked(s, i))
  {
    hide Total, BytesRight, DepthRight, DropsRight, Rest;
    var t := Worked(s, i);
    forall x ensures ItemRight(t, x) {
      assert ItemRight(s, x);
      TotalUpdate(Unflushed(x), s.workers, i, t.workers[i]);
      if s.chan != [] {
        TotalFront(Is(x), s.chan);
      }
    }
  }

  lemma WorkRest(s: State, i: nat)
    requires Inv(s) && Can(s, Work(i))
    ensures Rest(Worked(s, i))
  {
    hide Total, BytesRight, DepthRight, DropsRight, ItemsRight;
    hide OfferRight;
    var t := Worked(s, i);
    assert Carrying(s.workers[i]) >= 0;
    OffersElsewhere(s, t);
  }

  lemma AskKeeps(s: State, item: Item)
    requires Inv(s) && item.size >= 0
    ensures Inv(Do(s, Ask(item)))
  {
    hide Total;
    TotalAppend(Holding, s.offers, Asked(item));
    TotalAppend(Unraised, s.offers, Asked(item));
    TotalAppend(Lost, s.offers, Asked(item));
    OffersElsewhere(s, Do(s, Ask(item)));
    forall x ensures ItemRight(Do(s, Ask(item)), x) {
      assert ItemRight(s, x);
      TotalAppend(Accepted(x, s.cfg.minSize), s.offers, Asked(item));
    }
  }

  lemma OffersElsewhere(s: State, t: State)
    requires Rest(s) && t.cfg == s.cfg && t.stop == s.stop
    ensures forall i :: 0 <= i < |s.offers| ==> OfferRight(t, s.offers[i])
  {
    forall i | 0 <= i < |s.offers| ensures OfferRight(t, s.offers[i]) {
      assert OfferRight(s, s.offers[i]);
    }
  }

  lemma StartKeeps(s: State)
    requires Inv(s)
    ensures Inv(Do(s, StartWorker))
  {
    hide Total;
    TotalAppend(Carrying, s.workers, Receiving);
    TotalAppend(Unlowered, s.workers, Receiving);
    OffersElsewhere(s, Do(s, StartWorker));
    forall x ensures ItemRight(Do(s, StartWorker), x) {
      assert ItemRight(s, x);
      TotalAppend(Unflushed(x), s.workers, Receiving);
    }
  }

  lemma HaltKeeps(s: State, i: nat)
    requires Inv(s) && Can(s, HaltWorker(i))
    ensures Inv(Do(s, HaltWorker(i)))
  {
    hide Total;
    var t := Do(s, HaltWorker(i));
    TotalUpdate(Carrying, s.workers, i, Exited(true));
    TotalUpdate(Unlowered, s.workers, i, Exited(true));
    OffersElsewhere(s, t);
    forall x ensures ItemRight(t, x) {
      assert ItemRight(s, x);
      TotalUpdate(Unflushed(x), s.workers, i, Exited(true));
    }
  }

  lemma SignalKeeps(s: State)
    requires Inv(s)
    ensures Inv(Do(s, Halt))
  {
    hide Total;
    OffersElsewhere(s, Do(s, Halt));
    forall x ensures ItemRight(Do(s, Halt), x) {
      assert ItemRight(s, x);
    }
  }

  lemma StopKeeps(s: State)
    requires Inv(s) && Can(s, StopStep)
    ensures Inv(Do(s, StopStep))
  {
    hide Total;
    var t := Do(s, StopStep);
    forall j | 0 <= j < |t.offers| ensures OfferRight(t, t.offers[j]) {
      assert OfferRight(s, s.offers[j]) && s.offers[j] in s.offers;
    }
    forall x ensures ItemRight(t, x) {
      assert ItemRight(s, x);
    }
  }

  lemma StepKeeps(s: State, step: Step)
    requires Inv(s) && Can(s, step)
    ensures Inv(Do(s, step))
  {
    hide BytesRight, DepthRight, DropsRight, ItemsRight, Rest, Advanced, Worked;
    match step
    case Advance(i) =>
      AdvanceCounts(s, i);
      AdvanceItems(s, i);
      AdvanceRest(s, i);
    case Work(i) =>
      WorkCounts(s, i);
      WorkItems(s, i);
      WorkRest(s, i);
    case Ask(item) => AskKeeps(s, item);
    case StartWorker => StartKeeps(s);
    case HaltWorker(i) => HaltKeeps(s, i);
    case Halt => SignalKeeps(s);
    case StopStep => StopKeeps(s);
  }

  ghost predicate Run(cfg: Config, ss: seq<State>, steps: seq<Step>) {
    && |ss| == |steps| + 1 && ss[0] == Fresh(cfg)
    && forall i :: 0 <= i < |steps| ==> Can(ss[i], steps[i]) && ss[i + 1] == Do(ss[i], steps[i])
  }

  lemma {:induction false} RunKeeps(cfg: Config, ss: seq<State>, steps: seq<Step>, i: nat)
    requires Run(cfg, ss, steps) && i < |ss|
    ensures Inv(ss[i])
  {
    hide Inv, Can, Do;
    if i == 0 {
      FreshInv(cfg);
    } else {
      RunKeeps(cfg, ss, steps, i - 1);
      StepKeeps(ss[i - 1], steps[i - 1]);
    }
  }

  /** In every state of every run the byte count is exact, non-negative and inside a positive bound. */
  lemma BytesBounded(cfg: Config, ss: seq<State>, steps: seq<Step>, i: nat)
    requires Run(cfg, ss, steps) && i < |ss|
    ensures BytesRight(ss[i]) && 0 <= ss[i].queued
    ensures ss[i].cfg.queueBytes > 0 ==> ss[i].queued <= ss[i].cfg.queueBytes
  {
    RunKeeps(cfg, ss, steps, i);
    var s := ss[i];
    forall o | o in s.offers ensures Holding(o) >= 0 {
      var j :| 0 <= j < |s.offers| && s.offers[j] == o;
      assert OfferRight(s, s.offers[j]);
    }
    TotalAtLeast(Holding, s.offers);
    TotalAtLeast(Size, s.chan);
    TotalAtLeast(Carrying, s.workers);
  }

  /** An Offer about to send never finds the channel closed. */
  lemma NeverSendsOnClosed(cfg: Config, ss: seq<State>, steps: seq<Step>, i: nat, j: nat)
    requires Run(cfg, ss, steps) && i < |ss| && j < |ss[i].offers| && ss[i].offers[j].Claimed?
    ensures !ChanClosed(ss[i])
  {
    RunKeeps(cfg, ss, steps, i);
    assert OfferRight(ss[i], ss[i].offers[j]);
  }

  /** dropped counts the Offers that answered false; the rest that finished were skipped as
      too small or enqueued, one item each. */
  lemma OffersAccounted(cfg: Config, ss: seq<State>, steps: seq<Step>, i: nat)
    requires Run(cfg, ss, steps) && i < |ss|
    ensures DropsRight(ss[i]) && ItemsRight(ss[i])
  {
    RunKeeps(cfg, ss, steps, i);
  }

  /** What Stop reports is exact, whoever was halted: once the queue is closed depth is the number
      of objects enqueued and not uploaded or not yet signed off, so it answers nil exactly when
      none is left. */
  lemma StopReports(cfg: Config, ss: seq<State>, steps: seq<Step>, i: nat)
    requires Run(cfg, ss, steps) && i < |ss| && ss[i].stop.Released?
    ensures ss[i].depth == |ss[i].chan| + Total(Unlowered, ss[i].workers)
    ensures ss[i].depth == 0 <==> ss[i].chan == [] && forall w :: w in ss[i].workers ==> !w.Flushing? && !w.Uploaded?
  {
    hide Total, Run;
    RunKeeps(cfg, ss, steps, i);
    var s := ss[i];
    forall o | o in s.offers ensures Unraised(o) == 0 {
      var j :| 0 <= j < |s.offers| && s.offers[j] == o;
      assert OfferRight(s, s.offers[j]);
    }
    TotalZero(Unraised, s.offers);
    TotalAtLeast(Unlowered, s.workers);
    if forall w :: w in s.workers ==> !w.Flushing? && !w.Uploaded? {
      TotalZero(Unlowered, s.workers);
    }
  }

  /** Stop has closed the queue, and every worker that ran has drained it to the end. */
  ghost predicate DrainedOut(s: State) {
    s.stop.Released? && s.workers != [] && forall w :: w in s.workers ==> w == Exited(false)
  }

  /** Then nothing is left and everything enqueued was uploaded exactly once. */
  lemma Drained(cfg: Config, ss: seq<State>, steps: seq<Step>, i: nat)
    requires Run(cfg, ss, steps) && i < |ss| && DrainedOut(ss[i])
    ensures ss[i].depth == 0 && ss[i].queued == 0 && ss[i].chan == []
    ensures ss[i].flushed == ss[i].sent
    ensures forall x :: ss[i].sent[x] == Total(Accepted(x, ss[i].cfg.minSize), ss[i].offers)
  {
    RunKeeps(cfg, ss, steps, i);
    var s := ss[i];
    forall o | o in s.offers ensures Holding(o) == 0 && Unraised(o) == 0 {
      var j :| 0 <= j < |s.offers| && s.offers[j] == o;
      assert OfferRight(s, s.offers[j]);
    }
    assert s.workers[0] in s.workers;
    TotalZero(Holding, s.offers);
    TotalZero(Unraised, s.offers);
    TotalZero(Carrying, s.workers);
    TotalZero(Unlowered, s.workers);
    forall x ensures s.flushed[x] == s.sent[x] == Total(Accepted(x, s.cfg.minSize), s.offers) {
      assert ItemRight(s, x);
      TotalZero(Unflushed(x), s.workers);
    }
  }

  /* ---- an Offer is taken when there is room ---- */

  /** The channel never holds more than its slots, of which there is one at least. */
  lemma {:induction false} ChannelBounded(cfg: Config, ss: seq<State>, steps: seq<Step>, i: nat)
    requires Run(cfg, ss, steps) && i < |ss|
    ensures 1 <= ss[i].cfg.slots && |ss[i].chan| <= ss[i].cfg.slots
    ensures ss[i].cfg == Fresh(cfg).cfg
  {
    if i > 0 {
      ChannelBounded(cfg, ss, steps, i - 1);
      ChannelStep(ss[i - 1], steps[i - 1]);
    }
  }

  lemma ChannelStep(s: State, step: Step)
    requires Can(s, step) && |s.chan| <= s.cfg.slots
    ensures |Do(s, step).chan| <= Do(s, step).cfg.slots && Do(s, step).cfg == s.cfg
  {
  }

  /** An Offer that will answer false, or has. */
  predicate Denied(o: Offer) {
    o.Refused? || o.Dropping? || (o.Done? && !o.took)
  }

  /** The step gives Offer j its reason to answer false: it reads that the queue is closed, reads a
      byte count that leaves no room for its size under a positive bound, or finds every slot taken. */
  predicate Excused(s: State, step: Step, j: nat) {
    step == Advance(j) && j < |s.offers| &&
    match s.offers[j]
    case Reading(_) => Closed(s)
    case Claiming(x) => s.cfg.queueBytes > 0 && s.queued + x.size > s.cfg.queueBytes
    case Claimed(_) => |s.chan| >= s.cfg.slots
    case _ => false
  }

  lemma DeniedStep(s: State, step: Step, j: nat)
    requires Can(s, step) && j < |Do(s, step).offers|
    ensures j < |s.offers| ==> (Denied(Do(s, step).offers[j]) <==> Denied(s.offers[j]) || Excused(s, step, j))
    ensures j >= |s.offers| ==> !Denied(Do(s, step).offers[j])
    ensures |s.offers| <= |Do(s, step).offers|
  {
    hide Worked;
    if step.Work? {
      WorkKeepsOffers(s, step.i);
    }
  }

  lemma WorkKeepsOffers(s: State, i: nat)
    requires i < |s.workers|
    ensures Worked(s, i).offers == s.offers
  {
  }

  /** In every run an Offer answers false, or is about to, if and only if it had one of those reasons. */
  lemma {:induction false} OfferDenied(cfg: Config, ss: seq<State>, steps: seq<Step>, i: nat, j: nat)
    requires Run(cfg, ss, steps) && i < |ss| && j < |ss[i].offers|
    ensures Denied(ss[i].offers[j]) <==> exists h :: 0 <= h < i && Excused(ss[h], steps[h], j)
  {
    if i > 0 {
      hide Do, Can, Excused, Denied;
      DeniedStep(ss[i - 1], steps[i - 1], j);
      if j < |ss[i - 1].offers| {
        OfferDenied(cfg, ss, steps, i - 1, j);
      } else {
        forall h | 0 <= h < i ensures !Excused(ss[h], steps[h], j) {
          OffersGrow(cfg, ss, steps, h, i - 1);
          NotYetAsked(ss[h], steps[h], j);
        }
      }
    }
  }

  lemma NotYetAsked(s: State, step: Step, j: nat)
    requires j >= |s.offers|
    ensures !Excused(s, step, j)
  {
  }

  lemma {:induction false} OffersGrow(cfg: Config, ss: seq<State>, steps: seq<Step>, h: nat, i: nat)
    requires Run(cfg, ss, steps) && h <= i < |ss|
    ensures |ss[h].offers| <= |ss[i].offers|
  {
    if h < i {
      hide Do, Can;
      OffersGrow(cfg, ss, steps, h, i - 1);
      OffersOnlyGrow(ss[i - 1], steps[i - 1]);
    }
  }

  lemma OffersOnlyGrow(s: State, step: Step)
    requires Can(s, step)
    ensures |s.offers| <= |Do(s, step).offers|
  {
  }

  /** Steps that lead from one state to another. */
  ghost predicate Leads(s: State, steps: seq<Step>, t: State)
    decreases |steps|
  {
    if steps == [] then s == t else Can(s, steps[0]) && Leads(Do(s, steps[0]), steps[1..], t)
  }

  lemma LeadsOn(s: State, step: Step, rest: seq<Step>, t: State)
    requires Can(s, step) && Leads(Do(s, step), rest, t)
    ensures Leads(s, [step] + rest, t)
  {
    assert ([step] + rest)[1..] == rest;
  }

  lemma LeadsNowhere(s: State)
    ensures Leads(s, [], s)
  {
  }

  /** The Offer at j with what is left to happen to it, alone on an open queue with room. */
  lemma {:induction false} OfferGoesOn(s: State, j: nat) returns (steps: seq<Step>)
    requires !Closed(s) && !WriteLocked(s) && j < |s.offers|
    requires var o := s.offers[j];
             || o.Asked? || o.Waiting? || o.Reading? || o.Claiming?
             || (o.Loaded? && o.have == s.queued && s.cfg.queueBytes > 0)
    requires var x := s.offers[j].item;
             && x.size >= s.cfg.minSize && |s.chan| < s.cfg.slots
             && (s.cfg.queueBytes <= 0 || s.queued + x.size <= s.cfg.queueBytes)
    ensures var x := s.offers[j].item;
            Leads(s, steps, s.(offers := s.offers[j := Done(x, true)], queued := s.queued + x.size,
                               depth := s.depth + 1, chan := s.chan + [x], sent := s.sent + multiset{x}))
    decreases match s.offers[j]
              case Asked(_) => 5
              case Waiting(_) => 4
              case Reading(_) => 3
              case Claiming(_) => 2
              case _ => 1
  {
    hide Leads;
    var o, step := s.offers[j], Advance(j);
    var x, t := o.item, Do(s, step);
    var end := s.(offers := s.offers[j := Done(x, true)], queued := s.queued + x.size,
                  depth := s.depth + 1, chan := s.chan + [x], sent := s.sent + multiset{x});
    if t.offers[j].Claimed? {
      var u := Do(t, step);
      var v := Do(u, step);
      assert v.offers == end.offers;
      LeadsNowhere(v);
      LeadsOn(u, step, [], v);
      LeadsOn(t, step, [step] + [], v);
      steps := [step] + ([step] + ([step] + []));
      LeadsOn(s, step, [step] + ([step] + []), v);
    } else {
      var rest := OfferGoesOn(t, j);
      assert t.offers[j := Done(x, true)] == s.offers[j := Done(x, true)];
      steps := [step] + rest;
      LeadsOn(s, step, rest, end);
    }
  }

  /** One Offer that nobody interrupts, on an open queue with room, answers true: its item is last in
      the channel, its bytes are claimed and the depth is one more. One under MinSize answers true and
      changes nothing. */
  lemma OfferAlone(s: State, x: Item) returns (steps: seq<Step>)
    requires !Closed(s) && !WriteLocked(s) && x.size >= 0
    requires |s.chan| < s.cfg.slots && (s.cfg.queueBytes <= 0 || s.queued + x.size <= s.cfg.queueBytes)
    ensures var done := s.(offers := s.offers + [Done(x, true)]);
            Leads(s, steps, if x.size < s.cfg.minSize then done
                            else done.(queued := s.queued + x.size, depth := s.depth + 1, chan := s.chan + [x],
                                       sent := s.sent + multiset{x}))
  {
    hide Leads;
    var j := |s.offers|;
    var t := Do(s, Ask(x));
    assert t.offers[j := Done(x, true)] == s.offers + [Done(x, true)];
    var rest: seq<Step>;
    if x.size < s.cfg.minSize {
      var u := Do(t, Advance(j));
      LeadsNowhere(u);
      rest := [Advance(j)] + [];
      LeadsOn(t, Advance(j), [], u);
      LeadsOn(s, Ask(x), rest, u);
    } else {
      rest := OfferGoesOn(t, j);
      LeadsOn(s, Ask(x), rest, s.(offers := s.offers + [Done(x, true)], queued := s.queued + x.size,
                                  depth := s.depth + 1, chan := s.chan + [x], sent := s.sent + multiset{x}));
    }
    steps := [Ask(x)] + rest;
  }

  /** One worker that nobody interrupts uploads the object that has waited longest and gives its
      bytes and its place back. */
  lemma WorkerAlone(s: State, i: nat) returns (steps: seq<Step>)
    requires i < |s.workers| && s.workers[i].Receiving? && s.chan != []
    ensures var x := s.chan[0];
            Leads(s, steps, s.(chan := s.chan[1..], flushed := s.flushed + multiset{x}, depth := s.depth - 1,
                               queued := s.queued - x.size))
  {
    hide Leads;
    var step := Work(i);
    var a := Do(s, step);
    var b := Do(a, step);
    var c := Do(b, step);
    var d := Do(c, step);
    assert d.workers == s.workers;
    LeadsNowhere(d);
    LeadsOn(c, step, [], d);
    LeadsOn(b, step, [step] + [], d);
    LeadsOn(a, step, [step] + ([step] + []), d);
    steps := [step] + ([step] + ([step] + ([step] + [])));
    LeadsOn(s, step, [step] + ([step] + ([step] + [])), d);
  }
}
