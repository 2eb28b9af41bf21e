/** What the callers that share one flight of the chain's Get are given
    (engine/chain/chain.go, after the group's Do). */
module SharedFlights {
  import opened Tiers
  import opened TierChain
  import opened ChainRuns

  /* ---- bodies in memory ---- */

  /** A caller of a flight that landed in memory is waiting or has the body. */
  ghost predicate Settled(s: State, d: nat, f: nat, fl: Flight) {
    && fl.Landed? && fl.buffer.Memory? && f < |s.flights| && s.flights[f] == fl && d < |s.calls|
    && (s.calls[d] == Waiting(fl.key, f) || s.calls[d] == Hit(fl.key, Object(fl.buffer.body, fl.meta)))
  }

  lemma StepSettled(s: State, step: Step, d: nat, f: nat, fl: Flight)
    requires Settled(s, d, f, fl)
    ensures Settled(Next(s, step), d, f, fl)
  {
    if step.Write? {
      hide Written;
      if step.c < |s.calls| && s.calls[step.c].Writing? {
        WriteShape(s, step.c, step.opens, step.fault, step.behind, step.taken);
      }
    } else {
      hide After, TierPut, Buffered, Small, Written;
    }
  }

  lemma {:induction false} RunSettled(s: State, steps: seq<Step>, d: nat, f: nat, fl: Flight)
    requires Settled(s, d, f, fl)
    ensures Settled(Run(s, steps), d, f, fl)
    decreases |steps|
  {
    hide Settled, Next;
    if steps != [] {
      StepSettled(s, steps[0], d, f, fl);
      RunSettled(Next(s, steps[0]), steps[1..], d, f, fl);
    }
  }

  /** A body of 1 byte to 8 MiB serves every caller that shared its flight, whenever it asks. */
  lemma MemoryServesAll(s: State, steps: seq<Step>, d: nat, f: nat)
    requires f < |s.flights| && s.flights[f].Landed? && s.flights[f].buffer.Memory?
    requires d < |s.calls| && s.calls[d] == Waiting(s.flights[f].key, f)
    ensures var t, fl := Run(s, steps), s.flights[f];
            && d < |t.calls|
            && (t.calls[d].Waiting? || t.calls[d] == Hit(fl.key, Object(fl.buffer.body, fl.meta)))
  {
    hide Run;
    RunSettled(s, steps, d, f, s.flights[f]);
  }

  /* ---- bodies in a temp file ---- */

  /** The temp file a flight's result is in, and the one a Put buffers in. */
  function Path(f: Flight): Option<nat> {
    if (f.Copying? || f.Landed?) && f.buffer.Spill? then Some(f.buffer.path) else None
  }

  function PutPath(c: Call): Option<nat> {
    if c.Writing? && c.buffer.Spill? then Some(c.buffer.path) else None
  }

  /** A flight's temp file is no other flight's and no Put's. */
  ghost predicate Sole(s: State) {
    && (forall f :: 0 <= f < |s.flights| && Path(s.flights[f]).Some? ==> Path(s.flights[f]).value < s.nextTemp)
    && (forall c :: 0 <= c < |s.calls| && PutPath(s.calls[c]).Some? ==> PutPath(s.calls[c]).value < s.nextTemp)
    && (forall f, g :: 0 <= f < g < |s.flights| && Path(s.flights[f]).Some? ==>
        Path(s.flights[f]) != Path(s.flights[g]))
    && (forall c, f :: 0 <= c < |s.calls| && 0 <= f < |s.flights| && PutPath(s.calls[c]).Some? ==>
          PutPath(s.calls[c]) != Path(s.flights[f]))
  }

  /** The flight whose temp file a step unlinks on behalf of one of its callers. */
  function Unlinks(s: State, step: Step): set<nat> {
    if step.Unlink? && CanUnlink(s, step.c) then {s.calls[step.c].flight} else {}
  }

  /** gone are the flights some caller has unlinked the temp file of; the others' are there. */
  ghost predicate Tracked(s: State, gone: set<nat>) {
    && (forall f :: f in gone ==> f < |s.flights| && s.flights[f].Landed?)
    && (forall f :: 0 <= f < |s.flights| && Path(s.flights[f]).Some? ==>
          (Path(s.flights[f]).value in s.temps <==> f !in gone))
  }

  lemma AskTracked(s: State, f: nat, down: bool, gone: set<nat>)
    requires Sole(s) && Tracked(s, gone) && f < |s.flights| && s.flights[f].Asking?
    ensures Sole(Asked(s, f, down)) && Tracked(Asked(s, f, down), gone)
  {
    hide Small;
  }

  lemma BeginTracked(s: State, key: string, body: Body, m: Meta, gone: set<nat>)
    requires Sole(s) && Tracked(s, gone)
    ensures Sole(Begin(s, key, body, m)) && Tracked(Begin(s, key, body, m), gone)
  {
    hide Small, Buffered;
  }

  lemma WriteTracked(s: State, c: nat, opens: bool, fault: Option<Error>, behind: bool, taken: bool, gone: set<nat>)
    requires Sole(s) && Tracked(s, gone) && c < |s.calls| && s.calls[c].Writing?
    ensures var t := Written(s, c, opens, fault, behind, taken); Sole(t) && Tracked(t, gone)
  {
    WriteShape(s, c, opens, fault, behind, taken);
    hide Written;
    assert s.calls[c].buffer.Spill? ==> PutPath(s.calls[c]) == Some(s.calls[c].buffer.path);
  }

  lemma UnlinkTracked(s: State, c: nat, gone: set<nat>)
    requires Sole(s) && Tracked(s, gone) && CanUnlink(s, c)
    ensures Sole(Unlinked(s, c)) && Tracked(Unlinked(s, c), gone + {s.calls[c].flight})
  {
  }

  lemma StepTracked(s: State, step: Step, gone: set<nat>)
    requires Sole(s) && Tracked(s, gone)
    ensures Sole(Next(s, step)) && Tracked(Next(s, step), gone + Unlinks(s, step))
  {
    assert gone + {} == gone;
    match step
    case StartPut(key, body, m) =>
      hide Sole, Tracked, Begin;
      BeginTracked(s, key, body, m, gone);
    case Ask(f, down) =>
      hide Sole, Tracked, Asked;
      if f < |s.flights| && s.flights[f].Asking? { AskTracked(s, f, down, gone); }
    case Unlink(c) =>
      hide Sole, Tracked, Unlinked;
      if CanUnlink(s, c) { UnlinkTracked(s, c, gone); }
    case Write(c, opens, fault, behind, taken) =>
      hide Sole, Tracked, Written;
      if c < |s.calls| && s.calls[c].Writing? { WriteTracked(s, c, opens, fault, behind, taken, gone); }
    case _ =>
      hide Sole, Tracked;
      StepQuiet(s, step);
      QuietTracked(s, Next(s, step), gone);
  }

  /** Steps that make and remove no temp file, and hand none to another owner. */
  ghost predicate Quiet(s: State, t: State) {
    && t.temps == s.temps && t.nextTemp == s.nextTemp && |s.flights| <= |t.flights|
    && (forall f :: 0 <= f < |s.flights| ==>
          Path(t.flights[f]) == Path(s.flights[f]) && (s.flights[f].Landed? ==> t.flights[f].Landed?))
    && (forall f :: |s.flights| <= f < |t.flights| ==> Path(t.flights[f]).None?)
    && (forall c :: 0 <= c < |t.calls| && PutPath(t.calls[c]).Some? ==>
          c < |s.calls| && PutPath(t.calls[c]) == PutPath(s.calls[c]))
  }

  lemma QuietTracked(s: State, t: State, gone: set<nat>)
    requires Sole(s) && Tracked(s, gone) && Quiet(s, t)
    ensures Sole(t) && Tracked(t, gone)
  {
    hide Path, PutPath;
  }

  lemma CopyQuiet(s: State, f: nat, opens: bool, fault: Option<Error>)
    requires f < |s.flights| && s.flights[f].Copying?
    ensures Quiet(s, Copied(s, f, opens, fault))
  {
    hide After, Opened;
  }

  lemma StepQuiet(s: State, step: Step)
    requires !step.StartPut? && !step.Ask? && !step.Unlink? && !step.Write?
    ensures Quiet(s, Next(s, step))
  {
    if step.Copy? {
      hide Copied;
      if step.f < |s.flights| && s.flights[step.f].Copying? {
        CopyQuiet(s, step.f, step.opens, step.fault);
      }
    } else if step.Join? {
      hide After, Begin, Asked, Copied, Unlinked, Written, Received, Uploaded;
    } else {
      hide After, Begin, Asked, Unlinked, Written, Copied, Joined, Path;
    }
  }

  /* ---- every run ---- */

  /** The state before step j of a run. */
  function At(tiers: seq<Held>, steps: seq<Step>, j: nat): State
    requires j <= |steps|
  {
    Run(Start(tiers), steps[..j])
  }

  lemma AtNext(tiers: seq<Held>, steps: seq<Step>, j: nat)
    requires j < |steps|
    ensures At(tiers, steps, j + 1) == Next(At(tiers, steps, j), steps[j])
  {
    hide Next;
    assert steps[..j + 1] == steps[..j] + [steps[j]];
    RunConcat(Start(tiers), steps[..j], [steps[j]]);
    assert [steps[j]][1..] == [];
  }

  /** The flights whose temp file some caller has unlinked before step i. */
  function Gone(tiers: seq<Held>, steps: seq<Step>, i: nat): set<nat>
    requires i <= |steps|
  {
    if i == 0 then {} else Gone(tiers, steps, i - 1) + Unlinks(At(tiers, steps, i - 1), steps[i - 1])
  }

  lemma {:induction false} RunTracked(tiers: seq<Held>, steps: seq<Step>, i: nat)
    requires i <= |steps|
    ensures Sole(At(tiers, steps, i)) && Tracked(At(tiers, steps, i), Gone(tiers, steps, i))
  {
    if i > 0 {
      hide At, Sole, Tracked, Next, Unlinks;
      RunTracked(tiers, steps, i - 1);
      AtNext(tiers, steps, i - 1);
      StepTracked(At(tiers, steps, i - 1), steps[i - 1], Gone(tiers, steps, i - 1));
    }
  }

  /** A flight is gone when one of its callers, having opened the file, has unlinked it. */
  lemma {:induction false} GoneIs(tiers: seq<Held>, steps: seq<Step>, i: nat, f: nat)
    requires i <= |steps|
    ensures f in Gone(tiers, steps, i) <==> exists j :: 0 <= j < i && f in Unlinks(At(tiers, steps, j), steps[j])
  {
    hide Unlinks, At;
    if i > 0 {
      GoneIs(tiers, steps, i - 1, f);
    }
  }

  /** What a caller that opened its file, or was told it could not, ends with. */
  ghost predicate Decided(s: State, d: nat, call: Call) {
    d < |s.calls| && (s.calls[d] == call || (call.Reading? && s.calls[d] == Hit(call.key, call.found)))
  }

  lemma StepDecided(s: State, step: Step, d: nat, call: Call)
    requires Decided(s, d, call) && (call.Reading? || call.Failed?)
    ensures Decided(Next(s, step), d, call)
  {
    if step.Write? {
      hide Written;
      if step.c < |s.calls| && s.calls[step.c].Writing? {
        WriteShape(s, step.c, step.opens, step.fault, step.behind, step.taken);
      }
    } else {
      hide After, TierPut, Buffered, Small, Written;
    }
  }

  lemma {:induction false} RunDecided(tiers: seq<Held>, steps: seq<Step>, i: nat, k: nat, d: nat, call: Call)
    requires i <= k <= |steps| && Decided(At(tiers, steps, i), d, call) && (call.Reading? || call.Failed?)
    ensures Decided(At(tiers, steps, k), d, call)
  {
    hide At, Decided, Next;
    if i < k {
      RunDecided(tiers, steps, i, k - 1, d, call);
      AtNext(tiers, steps, k - 1);
      StepDecided(At(tiers, steps, k - 1), steps[k - 1], d, call);
    }
  }

  /** Any other body: in every run, a caller of the flight is served if and only if its open works
      and comes before every unlink by a caller of that flight. Served it stays, and refused. */
  lemma SpillServes(tiers: seq<Held>, steps: seq<Step>, i: nat, k: nat, d: nat, opens: bool)
    requires i < k <= |steps| && steps[i] == Receive(d, opens)
    requires var s := At(tiers, steps, i);
             && d < |s.calls| && s.calls[d].Waiting? && s.calls[d].flight < |s.flights|
             && s.flights[s.calls[d].flight].Landed? && s.flights[s.calls[d].flight].buffer.Spill?
    ensures var f, t := At(tiers, steps, i).calls[d].flight, At(tiers, steps, k);
            && d < |t.calls| && (t.calls[d].Reading? || t.calls[d].Hit? || t.calls[d].Failed?)
            && (!t.calls[d].Failed? <==>
                  opens && forall j :: 0 <= j < i ==> f !in Unlinks(At(tiers, steps, j), steps[j]))
  {
    hide At, Next, Tracked, Sole, Unlinks, Gone;
    var s := At(tiers, steps, i);
    RunTracked(tiers, steps, i);
    GoneIs(tiers, steps, i, s.calls[d].flight);
    OpenServes(s, d, opens, Gone(tiers, steps, i));
    AtNext(tiers, steps, i);
    RunDecided(tiers, steps, i + 1, k, d, At(tiers, steps, i + 1).calls[d]);
  }

  lemma OpenServes(s: State, d: nat, opens: bool, gone: set<nat>)
    requires Tracked(s, gone) && d < |s.calls| && s.calls[d].Waiting? && s.calls[d].flight < |s.flights|
    requires s.flights[s.calls[d].flight].Landed? && s.flights[s.calls[d].flight].buffer.Spill?
    ensures var t := Next(s, Receive(d, opens));
            && |t.calls| == |s.calls| && (t.calls[d].Reading? || t.calls[d].Failed?)
            && (t.calls[d].Reading? <==> opens && s.calls[d].flight !in gone)
  {
    var fl := s.flights[s.calls[d].flight];
    assert Path(fl) == Some(fl.buffer.path);
  }

  /* ---- both ways it can go ---- */

  /** Two callers of an empty object that the tier behind holds, nothing failing: open, unlink,
      open, and one of them is told of an error. */
  lemma SharedSpillFails(m: Meta)
    requires m.size == 0
    ensures exists steps ::
              var s := Run(Start([map[], map["k" := Object([], m)]]), steps);
              && s.calls == [Hit("k", Object([], m)), Failed("k", Broken)]
              && forall i :: 0 <= i < |s.tiers| ==> "k" in s.tiers[i]
  {
    var order := [Receive(0, true), Unlink(0), Receive(1, true)];
    BothLanded(m, order);
    BothReceive(m);
    hide Run, Next;
    assert forall i :: 0 <= i < |BothHold(m).tiers| ==> "k" in BothHold(m).tiers[i];
  }

  /** The same two with both opens first: both are served. */
  lemma SharedSpillServes(m: Meta)
    requires m.size == 0
    ensures exists steps ::
              var s := Run(Start([map[], map["k" := Object([], m)]]), steps);
              s.calls == [Hit("k", Object([], m)), Hit("k", Object([], m))]
  {
    var order := [Receive(0, true), Receive(1, true), Unlink(0), Unlink(1)];
    BothLanded(m, order);
    BothReceive(m);
    hide Run, Next;
  }

  /** The state in which their flight has landed, both of them waiting. */
  function BothHold(m: Meta): State {
    var o := Object([], m);
    State([map["k" := o], map["k" := o]], map[0 := []], 1, [Waiting("k", 0), Waiting("k", 0)],
          [Landed("k", Spill(0), m)], map[], [])
  }

  lemma BothLanded(m: Meta, order: seq<Step>)
    requires m.size == 0
    ensures exists steps :: Run(Start([map[], map["k" := Object([], m)]]), steps) == Run(BothHold(m), order)
  {
    var s0 := Start([map[], map["k" := Object([], m)]]);
    var join := [StartGet("k"), StartGet("k"), ReadFront(0, false), ReadFront(1, false), Join(0), Join(1)];
    var fly := [Ask(0, false), Copy(0, true, None), Copy(0, true, None)];
    BothJoin(m);
    BothFly(m);
    hide Run, Next;
    RunConcat(s0, join, fly);
    RunConcat(s0, join + fly, order);
    assert Run(s0, join + fly + order) == Run(BothHold(m), order);
  }

  function BothWaiting(m: Meta): State {
    Start([map[], map["k" := Object([], m)]])
      .(calls := [Waiting("k", 0), Waiting("k", 0)], flights := [Asking("k", 1)], group := map["k" := 0])
  }

  lemma BothJoin(m: Meta)
    ensures Run(Start([map[], map["k" := Object([], m)]]),
                [StartGet("k"), StartGet("k"), ReadFront(0, false), ReadFront(1, false), Join(0), Join(1)])
            == BothWaiting(m)
  {
    hide Begin, Asked, Copied, Received, Written, Uploaded;
    var s0 := Start([map[], map["k" := Object([], m)]]);
    var s1 := Next(s0, StartGet("k"));
    var s2 := Next(s1, StartGet("k"));
    assert s2.calls == [AtFront("k"), AtFront("k")];
    var s3 := Next(s2, ReadFront(0, false));
    var s4 := Next(s3, ReadFront(1, false));
    assert s4.calls == [AtGroup("k"), AtGroup("k")];
    var s5 := Next(s4, Join(0));
    var s6 := Next(s5, Join(1));
    assert s6 == BothWaiting(m);
  }

  lemma BothFly(m: Meta)
    requires m.size == 0
    ensures Run(BothWaiting(m), [Ask(0, false), Copy(0, true, None), Copy(0, true, None)]) == BothHold(m)
  {
    hide Begin, Front, Joined, Received, Written, Uploaded;
    var s1 := Next(BothWaiting(m), Ask(0, false));
    assert s1.flights == [Copying("k", Spill(0), m, 0)] && s1.temps == map[0 := []];
    var s2 := Next(s1, Copy(0, true, None));
    assert s2.flights == [Copying("k", Spill(0), m, -1)] && s2.tiers == BothHold(m).tiers;
    var s3 := Next(s2, Copy(0, true, None));
    assert s3 == BothHold(m);
  }

  lemma BothReceive(m: Meta)
    ensures var t := Run(BothHold(m), [Receive(0, true), Unlink(0), Receive(1, true)]);
            t.calls == [Hit("k", Object([], m)), Failed("k", Broken)] && t.tiers == BothHold(m).tiers
    ensures Run(BothHold(m), [Receive(0, true), Receive(1, true), Unlink(0), Unlink(1)]).calls
            == [Hit("k", Object([], m)), Hit("k", Object([], m))]
  {
    hide Begin, Front, Joined, Asked, Copied, Written, Uploaded;
    var s1 := Next(BothHold(m), Receive(0, true));
    assert s1.calls == [Reading("k", 0, Object([], m)), Waiting("k", 0)];
    var s2 := Next(s1, Unlink(0));
    assert s2.calls == [Hit("k", Object([], m)), Waiting("k", 0)] && s2.temps == map[];
    var t2 := Next(s1, Receive(1, true));
    assert t2.calls == [Reading("k", 0, Object([], m)), Reading("k", 0, Object([], m))];
    var t3 := Next(t2, Unlink(0));
    assert t3.calls == [Hit("k", Object([], m)), Reading("k", 0, Object([], m))];
  }
}
