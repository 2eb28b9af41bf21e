/** Keys that may be written again: when what a Put left in the front tier can be replaced by an
    older copy (engine/chain/chain.go, the forward copies of Get and the tail of Put). */
module StaleCopies {
  import opened Tiers
  import opened TierChain
  import opened ChainRuns

  /** The front tier shows this object for the key. */
  predicate Shown(s: State, key: string, o: Object) {
    |s.tiers| > 0 && key in s.tiers[0] && s.tiers[0][key] == o
  }

  /** A copy that, put into a tier that has the key, leaves something other than o. */
  predicate Harm(o: Object, body: Body, m: Meta) {
    !m.immutable && Stored(body, m) != o
  }

  /** What may happen from here on: everything, but no new Put of the key, no eviction or delete in
      the front tier, and failing front reads only if blind. */
  predicate Allowed(step: Step, key: string, blind: bool) {
    && !(step.StartPut? && step.key == key)
    && !(step.Forget? && step.tier == 0 && step.key == key)
    && (step.ReadFront? && step.down ==> blind)
  }

  /** Whether some search for the key can still come to tier i. */
  ghost predicate Reach(s: State, key: string, blind: bool, i: nat) {
    || blind
    || (exists c :: 0 <= c < |s.calls| && s.calls[c] == AtGroup(key))
    || (exists f :: 0 <= f < |s.flights| && s.flights[f].Asking? && s.flights[f].key == key && s.flights[f].i <= i)
  }

  /** An older copy in a tier a search can come to. */
  ghost predicate TierThreat(s: State, key: string, o: Object, blind: bool, i: nat) {
    && 1 <= i < |s.tiers| && key in s.tiers[i] && Harm(o, s.tiers[i][key].body, s.tiers[i][key].meta)
    && Reach(s, key, blind, i)
  }

  /** One on its way to such a tier in the queue. */
  ghost predicate UploadThreat(s: State, key: string, o: Object, blind: bool, u: Upload) {
    && u.key == key && u.tier < |s.tiers| && Harm(o, u.body, u.meta)
    && (u.tier == 0 || Reach(s, key, blind, u.tier))
  }

  /** One in the hands of a flight that has tiers left to copy it to. */
  predicate FlightThreat(s: State, key: string, o: Object, f: Flight) {
    && f.Copying? && f.key == key && 0 <= f.j < |s.tiers|
    && Opened(s, f.buffer, true).Some? && Harm(o, Opened(s, f.buffer, true).value, f.meta)
  }

  /** One in the hands of another Put, with the front tier or a tier a search can come to left. */
  ghost predicate CallThreat(s: State, key: string, o: Object, blind: bool, c: Call) {
    && c.Writing? && c.key == key && c.i < |s.tiers|
    && Opened(s, c.buffer, true).Some? && Harm(o, Opened(s, c.buffer, true).value, c.meta)
    && (c.i == 0 || Reach(s, key, blind, |s.tiers| - 1))
  }

  ghost predicate Threatened(s: State, key: string, o: Object, blind: bool) {
    || (exists i :: TierThreat(s, key, o, blind, i))
    || (exists u :: 0 <= u < |s.uploads| && UploadThreat(s, key, o, blind, s.uploads[u]))
    || (exists f :: 0 <= f < |s.flights| && FlightThreat(s, key, o, s.flights[f]))
    || (exists c :: 0 <= c < |s.calls| && CallThreat(s, key, o, blind, s.calls[c]))
  }

  /* ---- a threat is carried out ---- */

  /** Steps that may happen and after which the front tier shows something else. */
  ghost predicate Strikes(s: State, key: string, o: Object, blind: bool, steps: seq<Step>) {
    && (forall i :: 0 <= i < |steps| ==> Allowed(steps[i], key, blind))
    && !Shown(Run(s, steps), key, o)
  }

  lemma StrikesAfter(s: State, key: string, o: Object, blind: bool, step: Step, rest: seq<Step>)
    requires Allowed(step, key, blind) && Strikes(Next(s, step), key, o, blind, rest)
    ensures Strikes(s, key, o, blind, [step] + rest)
  {
    hide Next, Shown, Allowed;
    assert ([step] + rest)[1..] == rest;
  }

  lemma {:induction false} FlightStrikes(s: State, key: string, o: Object, blind: bool, f: nat)
                returns (steps: seq<Step>)
    requires f < |s.flights| && FlightThreat(s, key, o, s.flights[f])
    ensures Strikes(s, key, o, blind, steps)
    decreases s.flights[f].j
  {
    hide Run, Strikes;
    var step := Copy(f, true, None);
    var t := Next(s, step);
    if s.flights[f].j == 0 {
      assert Strikes(t, key, o, blind, []) by { NoneStrikes(t, key, o, blind); }
      steps := [step] + [];
      StrikesAfter(s, key, o, blind, step, []);
    } else {
      var rest := FlightStrikes(t, key, o, blind, f);
      steps := [step] + rest;
      StrikesAfter(s, key, o, blind, step, rest);
    }
  }

  lemma NoneStrikes(s: State, key: string, o: Object, blind: bool)
    requires !Shown(s, key, o)
    ensures Strikes(s, key, o, blind, [])
  {
  }

  /** A search that can come to an older copy: what is in between is evicted, the copy is found. */
  lemma {:induction false} AskStrikes(s: State, key: string, o: Object, blind: bool, f: nat, i: nat)
    returns (steps: seq<Step>)
    requires f < |s.flights| && s.flights[f].Asking? && s.flights[f].key == key && 1 <= s.flights[f].i <= i
    requires i < |s.tiers| && key in s.tiers[i] && Harm(o, s.tiers[i][key].body, s.tiers[i][key].meta)
    ensures Strikes(s, key, o, blind, steps)
    decreases i - s.flights[f].i
  {
    hide Run, Strikes, Small;
    var n, ask := s.flights[f].i, Ask(f, false);
    if n == i {
      var t := Next(s, ask);
      var rest := FlightStrikes(t, key, o, blind, f);
      steps := [ask] + rest;
      StrikesAfter(s, key, o, blind, ask, rest);
    } else {
      var t := Next(s, Forget(n, key));
      var u := Next(t, ask);
      assert u.flights[f] == Asking(key, n + 1);
      var rest := AskStrikes(u, key, o, blind, f, i);
      StrikesAfter(t, key, o, blind, ask, rest);
      steps := [Forget(n, key)] + ([ask] + rest);
      StrikesAfter(s, key, o, blind, Forget(n, key), [ask] + rest);
    }
  }

  /** A caller on its way to the group waits out the flight under way and starts its own. */
  lemma {:induction false} GroupStrikes(s: State, key: string, o: Object, blind: bool, c: nat, i: nat)
    returns (steps: seq<Step>)
    requires Grouped(s) && c < |s.calls| && s.calls[c] == AtGroup(key)
    requires 1 <= i < |s.tiers| && key in s.tiers[i] && Harm(o, s.tiers[i][key].body, s.tiers[i][key].meta)
    ensures Strikes(s, key, o, blind, steps)
    decreases key in s.group,
              if key in s.group && s.group[key] < |s.flights| && s.flights[s.group[key]].Copying?
              then s.flights[s.group[key]].j + 1 else 0
  {
    hide Run, Strikes;
    if key !in s.group {
      var t := Next(s, Join(c));
      assert t.flights[|s.flights|] == Asking(key, 1);
      var rest := AskStrikes(t, key, o, blind, |s.flights|, i);
      steps := [Join(c)] + rest;
      StrikesAfter(s, key, o, blind, Join(c), rest);
    } else {
      var f := s.group[key];
      var wait := if s.flights[f].Asking? then Ask(f, true) else Copy(f, true, Some(Broken));
      Waits(s, f, key);
      var rest := GroupStrikes(Next(s, wait), key, o, blind, c, i);
      steps := [wait] + rest;
      StrikesAfter(s, key, o, blind, wait, rest);
    }
  }

  lemma Waits(s: State, f: nat, key: string)
    requires Grouped(s) && key in s.group && s.group[key] == f
    ensures f < |s.flights| && Active(s.flights[f]) && s.flights[f].key == key
    ensures var t := Next(s, if s.flights[f].Asking? then Ask(f, true) else Copy(f, true, Some(Broken)));
            && t.tiers == s.tiers && t.calls == s.calls && Grouped(t)
            && (key !in t.group || (t.group == s.group && |t.flights| == |s.flights| && s.flights[f].Copying?
                && t.flights[f].Copying?
                                    && s.flights[f].j >= 0 && t.flights[f].j == s.flights[f].j - 1))
  {
    hide Opened;
    var fl := s.flights[f];
    if fl.Asking? {
      var e := if fl.i >= |s.tiers| then NotFound else Broken;
      EndGrouped(s, f, Lost(key, e));
    } else if 0 <= fl.j < |s.tiers| && Opened(s, fl.buffer, true).Some? {
      GoOnGrouped(s, f, fl.(j := fl.j - 1));
      assert s.tiers[fl.j := s.tiers[fl.j]] == s.tiers;
      SameGrouped(WithFlight(s, f, fl.(j := fl.j - 1)), Next(s, Copy(f, true, Some(Broken))));
    } else {
      EndGrouped(s, f, Landed(fl.key, fl.buffer, fl.meta));
    }
  }

  lemma TierStrikes(s: State, key: string, o: Object, blind: bool, i: nat) returns (steps: seq<Step>)
    requires Grouped(s) && Searching(s) && TierThreat(s, key, o, blind, i)
    ensures Strikes(s, key, o, blind, steps)
  {
    hide Run, Strikes;
    if c :| 0 <= c < |s.calls| && s.calls[c] == AtGroup(key) {
      steps := GroupStrikes(s, key, o, blind, c, i);
    } else if f :| 0 <= f < |s.flights| && s.flights[f].Asking? && s.flights[f].key == key && s.flights[f].i <= i {
      steps := AskStrikes(s, key, o, blind, f, i);
    } else {
      var c := |s.calls|;
      var t := Next(s, StartGet(key));
      var u := Next(t, ReadFront(c, true));
      assert u.calls[c] == AtGroup(key);
      SameGrouped(s, u);
      var rest := GroupStrikes(u, key, o, blind, c, i);
      StrikesAfter(t, key, o, blind, ReadFront(c, true), rest);
      steps := [StartGet(key)] + ([ReadFront(c, true)] + rest);
      StrikesAfter(s, key, o, blind, StartGet(key), [ReadFront(c, true)] + rest);
    }
  }

  /** Searches begin behind the front tier. */
  ghost predicate Searching(s: State) {
    forall f :: 0 <= f < |s.flights| && s.flights[f].Asking? ==> s.flights[f].i >= 1
  }

  lemma UploadStrikes(s: State, key: string, o: Object, blind: bool, u: nat) returns (steps: seq<Step>)
    requires Grouped(s) && Searching(s) && u < |s.uploads| && UploadThreat(s, key, o, blind, s.uploads[u])
    ensures Strikes(s, key, o, blind, steps)
  {
    hide Run, Strikes, Grouped;
    var t := Next(s, Flush(u, None));
    var rest: seq<Step>;
    if s.uploads[u].tier == 0 {
      NoneStrikes(t, key, o, blind);
      rest := [];
    } else {
      SameGrouped(s, t);
      rest := TierStrikes(t, key, o, blind, s.uploads[u].tier);
    }
    steps := [Flush(u, None)] + rest;
    StrikesAfter(s, key, o, blind, Flush(u, None), rest);
  }

  lemma {:induction false} CallStrikes(s: State, key: string, o: Object, blind: bool, c: nat)
                returns (steps: seq<Step>)
    requires Grouped(s) && Searching(s) && c < |s.calls| && CallThreat(s, key, o, blind, s.calls[c])
    ensures Strikes(s, key, o, blind, steps)
    decreases |s.tiers| - s.calls[c].i
  {
    hide Run, Strikes, Grouped;
    var w := s.calls[c];
    var last := w.i == 0 || w.i == |s.tiers| - 1;
    var step := Write(c, true, if last then None else Some(Broken), false, false);
    var t := Next(s, step);
    var rest: seq<Step>;
    if w.i == 0 {
      NoneStrikes(t, key, o, blind);
      rest := [];
    } else {
      SameGrouped(s, t);
      ReachKept(s, t, key, blind, c);
      if last {
        rest := TierStrikes(t, key, o, blind, w.i);
      } else {
        rest := CallStrikes(t, key, o, blind, c);
      }
    }
    steps := [step] + rest;
    StrikesAfter(s, key, o, blind, step, rest);
  }

  lemma ReachKept(s: State, t: State, key: string, blind: bool, c: nat)
    requires t.flights == s.flights && |t.calls| == |s.calls| && c < |s.calls| && s.calls[c].Writing?
    requires forall d :: 0 <= d < |s.calls| && d != c ==> t.calls[d] == s.calls[d]
    ensures forall i :: Reach(s, key, blind, i) ==> Reach(t, key, blind, i)
  {
    forall i | Reach(s, key, blind, i) ensures Reach(t, key, blind, i) {
      if d :| 0 <= d < |s.calls| && s.calls[d] == AtGroup(key) {
        assert t.calls[d] == AtGroup(key);
      }
    }
  }

  /* ---- without a threat nothing changes ---- */

  ghost predicate Safe(s: State, key: string, o: Object, blind: bool) {
    Inv(map[], s) && Searching(s) && Shown(s, key, o) && !Threatened(s, key, o, blind)
  }

  /** The parts of being unthreatened, each a matter of its own. */
  ghost predicate TiersSafe(s: State, key: string, o: Object, blind: bool) {
    forall i :: !TierThreat(s, key, o, blind, i)
  }

  ghost predicate UploadsSafe(s: State, key: string, o: Object, blind: bool) {
    forall u :: 0 <= u < |s.uploads| ==> !UploadThreat(s, key, o, blind, s.uploads[u])
  }

  ghost predicate FlightsSafe(s: State, key: string, o: Object) {
    forall f :: 0 <= f < |s.flights| ==> !FlightThreat(s, key, o, s.flights[f])
  }

  ghost predicate CallsSafe(s: State, key: string, o: Object, blind: bool) {
    forall c :: 0 <= c < |s.calls| ==> !CallThreat(s, key, o, blind, s.calls[c])
  }

  /** Searches come to no tier they could not come to before. */
  ghost predicate Narrows(s: State, t: State, key: string, blind: bool) {
    && |t.tiers| == |s.tiers|
    && (forall i {:trigger Reach(t, key, blind, i)} :: i >= 1 && Reach(t, key, blind, i) ==> Reach(s, key, blind, i))
  }

  lemma StepReach(s: State, step: Step, key: string, o: Object, blind: bool)
    requires Shown(s, key, o) && Searching(s) && Allowed(step, key, blind)
    ensures Narrows(s, Next(s, step), key, blind) && Searching(Next(s, step))
  {
    if step.Write? {
      hide Written;
      if step.c < |s.calls| && s.calls[step.c].Writing? {
        WriteShape(s, step.c, step.opens, step.fault, step.behind, step.taken);
        WriteTiers(s, step.c, step.opens, step.fault, step.behind, step.taken);
      }
    } else if step.Copy? || step.Ask? {
      hide Next, Narrows, Searching;
      FlightStepReach(s, step, key, blind);
    } else if step.ReadFront? || step.Join? {
      hide Next, Narrows, Searching;
      CallStepReach(s, step, key, o, blind);
    } else {
      hide After, Buffered, Small, Written, Asked, Copied, Front, Joined;
    }
  }

  lemma CallStepReach(s: State, step: Step, key: string, o: Object, blind: bool)
    requires Shown(s, key, o) && Searching(s) && Allowed(step, key, blind) && (step.ReadFront? || step.Join?)
    ensures Narrows(s, Next(s, step), key, blind) && Searching(Next(s, step))
  {
  }

  lemma FlightStepReach(s: State, step: Step, key: string, blind: bool)
    requires Searching(s) && (step.Copy? || step.Ask?)
    ensures Narrows(s, Next(s, step), key, blind) && Searching(Next(s, step))
  {
    hide Reach, After, Opened, Small;
    if step.f < |s.flights| {
      FlightReach(s, Next(s, step), step.f, key, blind);
    }
  }

  /** A flight that goes on, or ends, asks further back if it asks at all. */
  lemma FlightReach(s: State, t: State, f: nat, key: string, blind: bool)
    requires f < |s.flights| == |t.flights| && t.calls == s.calls
    requires forall g :: 0 <= g < |s.flights| && g != f ==> t.flights[g] == s.flights[g]
    requires t.flights[f].Asking? ==>
               s.flights[f].Asking? && t.flights[f].key == s.flights[f].key && s.flights[f].i <= t.flights[f].i
    ensures forall i {:trigger Reach(t, key, blind, i)} :: Reach(t, key, blind, i) ==> Reach(s, key, blind, i)
  {
  }

  lemma WriteTiers(s: State, c: nat, opens: bool, fault: Option<Error>, behind: bool, taken: bool)
    requires c < |s.calls| && s.calls[c].Writing?
    ensures |Written(s, c, opens, fault, behind, taken).tiers| == |s.tiers|
  {
    hide TierPut, After, Opened;
  }

  /** A call, a flight or an upload that was no threat is none later. */
  lemma CallStill(s: State, t: State, key: string, o: Object, blind: bool, c: Call)
    requires Narrows(s, t, key, blind) && Later(s, t) && CallRight(map[], s.temps, s.nextTemp, s.flights, c)
    requires !CallThreat(s, key, o, blind, c)
    ensures !CallThreat(t, key, o, blind, c)
  {
    hide Reach, Harm;
  }

  lemma FlightStill(s: State, t: State, key: string, o: Object, f: Flight)
    requires |t.tiers| == |s.tiers| && Later(s, t) && FlightRight(map[], s.temps, s.nextTemp, f)
    requires !FlightThreat(s, key, o, f)
    ensures !FlightThreat(t, key, o, f)
  {
    hide Harm;
  }

  lemma UploadStill(s: State, t: State, key: string, o: Object, blind: bool, u: Upload)
    requires Narrows(s, t, key, blind) && !UploadThreat(s, key, o, blind, u)
    ensures !UploadThreat(t, key, o, blind, u)
  {
    hide Reach, Harm;
  }

  lemma SafeParts(s: State, key: string, o: Object, blind: bool)
    ensures Threatened(s, key, o, blind) <==>
              !(TiersSafe(s, key, o, blind) && UploadsSafe(s, key, o, blind) && FlightsSafe(s, key, o)
                  && CallsSafe(s, key, o, blind))
  {
    hide TierThreat, UploadThreat, FlightThreat, CallThreat;
  }

  /** Tiers that show the same for the key are as safe as they were. */
  lemma TiersStill(s: State, t: State, key: string, o: Object, blind: bool)
    requires TiersSafe(s, key, o, blind) && Narrows(s, t, key, blind)
    requires forall i :: 1 <= i < |t.tiers| && key in t.tiers[i] ==>
               || (key in s.tiers[i] && t.tiers[i][key] == s.tiers[i][key])
               || !Harm(o, t.tiers[i][key].body, t.tiers[i][key].meta)
               || !Reach(s, key, blind, i)
    ensures TiersSafe(t, key, o, blind)
  {
    hide Reach, Harm;
    forall i ensures !TierThreat(t, key, o, blind, i) {
      assert !TierThreat(s, key, o, blind, i);
    }
  }

  ghost predicate CallsBut(s: State, t: State, c: nat) {
    forall d :: 0 <= d < |t.calls| && d != c ==> d < |s.calls| && t.calls[d] == s.calls[d]
  }

  ghost predicate FlightsBut(s: State, t: State, f: nat) {
    forall g :: 0 <= g < |t.flights| && g != f ==> g < |s.flights| && t.flights[g] == s.flights[g]
  }

  /** All calls but the c-th and all flights but the f-th are as they were, and those are no threat. */
  lemma SafeKept(s: State, t: State, key: string, o: Object, blind: bool, c: nat, f: nat)
    requires Safe(s, key, o, blind) && Inv(map[], t) && Searching(t) && Narrows(s, t, key, blind) && Later(s, t)
    requires Shown(t, key, o) && TiersSafe(t, key, o, blind) && UploadsSafe(t, key, o, blind)
    requires CallsBut(s, t, c) && FlightsBut(s, t, f)
    requires c < |t.calls| ==> !CallThreat(t, key, o, blind, t.calls[c])
    requires f < |t.flights| ==> !FlightThreat(t, key, o, t.flights[f])
    ensures Safe(t, key, o, blind)
  {
    SafeParts(s, key, o, blind);
    SafeParts(t, key, o, blind);
    hide TierThreat, UploadThreat, FlightThreat, CallThreat, Threatened, Narrows, Later, Shown, Searching;
    hide Grouped, TiersRight, UploadsRight, TempsSpent, CallRight, FlightRight;
    forall d | 0 <= d < |t.calls| && d != c ensures !CallThreat(t, key, o, blind, t.calls[d]) {
      var call := t.calls[d];
      assert CallRight(map[], s.temps, s.nextTemp, s.flights, s.calls[d])
               && !CallThreat(s, key, o, blind, s.calls[d]);
      CallStill(s, t, key, o, blind, call);
    }
    NarrowsLength(s, t, key, blind);
    forall g | 0 <= g < |t.flights| && g != f ensures !FlightThreat(t, key, o, t.flights[g]) {
      var flight := t.flights[g];
      assert FlightRight(map[], s.temps, s.nextTemp, s.flights[g]) && !FlightThreat(s, key, o, s.flights[g]);
      FlightStill(s, t, key, o, flight);
    }
  }

  lemma NarrowsLength(s: State, t: State, key: string, blind: bool)
    requires Narrows(s, t, key, blind)
    ensures |t.tiers| == |s.tiers|
  {
  }

  lemma UploadsStill(s: State, t: State, key: string, o: Object, blind: bool)
    requires UploadsSafe(s, key, o, blind) && Narrows(s, t, key, blind)
    requires forall u :: 0 <= u < |t.uploads| ==>
               t.uploads[u] in s.uploads || !UploadThreat(s, key, o, blind, t.uploads[u])
    ensures UploadsSafe(t, key, o, blind)
  {
    hide Narrows, UploadThreat;
    forall u | 0 <= u < |t.uploads| ensures !UploadThreat(t, key, o, blind, t.uploads[u]) {
      if t.uploads[u] in s.uploads {
        var v :| 0 <= v < |s.uploads| && s.uploads[v] == t.uploads[u];
        assert !UploadThreat(s, key, o, blind, s.uploads[v]);
      }
      UploadStill(s, t, key, o, blind, t.uploads[u]);
    }
  }

  lemma SafeMeans(s: State, key: string, o: Object, blind: bool)
    requires Safe(s, key, o, blind)
    ensures Inv(map[], s) && Searching(s) && Shown(s, key, o)
    ensures TiersSafe(s, key, o, blind) && UploadsSafe(s, key, o, blind)
  {
    SafeParts(s, key, o, blind);
    hide Threatened, TiersSafe, UploadsSafe;
  }

  /** A step that leaves tiers and uploads alone. */
  lemma QuietSafe(s: State, step: Step, t: State, key: string, o: Object, blind: bool, c: nat, f: nat)
    requires Safe(s, key, o, blind) && Allowed(step, key, blind) && t == Next(s, step)
    requires Later(s, t) && t.tiers == s.tiers && t.uploads == s.uploads
    requires CallsBut(s, t, c) && FlightsBut(s, t, f)
    requires c < |t.calls| ==> !CallThreat(t, key, o, blind, t.calls[c])
    requires f < |t.flights| ==> !FlightThreat(t, key, o, t.flights[f])
    ensures Safe(t, key, o, blind)
  {
    hide Safe, Next, Inv, Threatened, TiersSafe, UploadsSafe, Narrows, Later, CallsBut, FlightsBut;
    hide CallThreat, FlightThreat, TierThreat, UploadThreat;
    hide Searching, Reach, Harm;
    SafeMeans(s, key, o, blind);
    StepReach(s, step, key, o, blind);
    StepKeeps(map[], s, step);
    assert forall u :: 0 <= u < |t.uploads| ==> t.uploads[u] in s.uploads;
    TiersStill(s, t, key, o, blind);
    UploadsStill(s, t, key, o, blind);
    SafeKept(s, t, key, o, blind, c, f);
  }

  lemma BeginSafe(s: State, step: Step, key: string, o: Object, blind: bool)
    requires Safe(s, key, o, blind) && Allowed(step, key, blind) && (step.StartGet? || step.StartPut?)
    ensures Safe(Next(s, step), key, o, blind)
  {
    assert TempsSpent(s);
    hide Safe, Inv, Buffered, Small, Reach, Harm, Opened;
    QuietSafe(s, step, Next(s, step), key, o, blind, |s.calls|, |s.flights|);
  }

  lemma FrontSafe(s: State, c: nat, down: bool, key: string, o: Object, blind: bool)
    requires Safe(s, key, o, blind) && (down ==> blind) && c < |s.calls| && s.calls[c].AtFront?
    ensures Safe(Next(s, ReadFront(c, down)), key, o, blind)
  {
    hide Safe;
    QuietSafe(s, ReadFront(c, down), Next(s, ReadFront(c, down)), key, o, blind, c, |s.flights|);
  }

  lemma JoinSafe(s: State, c: nat, key: string, o: Object, blind: bool)
    requires Safe(s, key, o, blind) && c < |s.calls| && s.calls[c].AtGroup?
    ensures Safe(Next(s, Join(c)), key, o, blind)
  {
    hide Safe;
    QuietSafe(s, Join(c), Next(s, Join(c)), key, o, blind, c, |s.flights|);
  }

  lemma ReceiveSafe(s: State, c: nat, opens: bool, key: string, o: Object, blind: bool)
    requires Safe(s, key, o, blind) && c < |s.calls| && s.calls[c].Waiting? && s.calls[c].flight < |s.flights|
    ensures Safe(Next(s, Receive(c, opens)), key, o, blind)
  {
    hide Safe, Reach, Harm, Opened;
    QuietSafe(s, Receive(c, opens), Next(s, Receive(c, opens)), key, o, blind, c, |s.flights|);
  }

  lemma UnlinkSafe(s: State, c: nat, key: string, o: Object, blind: bool)
    requires Safe(s, key, o, blind) && CanUnlink(s, c)
    ensures Safe(Next(s, Unlink(c)), key, o, blind)
  {
    hide Safe, Reach, Harm, Opened;
    QuietSafe(s, Unlink(c), Next(s, Unlink(c)), key, o, blind, c, |s.flights|);
  }

  /** What a search finds is no threat, for the tier it is found in was one it could come to. */
  lemma AskSafe(s: State, f: nat, down: bool, key: string, o: Object, blind: bool)
    requires Safe(s, key, o, blind) && f < |s.flights| && s.flights[f].Asking?
    ensures Safe(Next(s, Ask(f, down)), key, o, blind)
  {
    var i := s.flights[f].i;
    assert s.flights[f].key == key ==> Reach(s, key, blind, i);
    assert !TierThreat(s, key, o, blind, i);
    assert TempsSpent(s) && i >= 1;
    hide Safe, Inv, Reach, Small;
    QuietSafe(s, Ask(f, down), Next(s, Ask(f, down)), key, o, blind, |s.calls|, f);
  }

  /** What a tier may be given without becoming a threat: another key, nothing harmful, or anything
      where no search comes. */
  ghost predicate Harmless(s: State, key: string, o: Object, blind: bool, i: nat, k: string, body: Body, m: Meta) {
    k == key ==> !Harm(o, body, m) || (i >= 1 && !Reach(s, key, blind, i))
  }

  lemma GivenSafe(s: State, t: State, key: string, o: Object, blind: bool, i: nat, k: string, body: Body, m: Meta,
                  fault: Option<Error>)
    requires i < |s.tiers| && Shown(s, key, o) && TiersSafe(s, key, o, blind) && Narrows(s, t, key, blind)
    requires Harmless(s, key, o, blind, i, k, body, m)
    requires t.tiers == s.tiers[i := After(s.tiers[i], k, body, m, fault)]
    ensures Shown(t, key, o) && TiersSafe(t, key, o, blind)
  {
    hide Reach, Narrows, TiersSafe;
    assert k == key && key in t.tiers[i] ==>
        (key in s.tiers[i] && t.tiers[i][key] == s.tiers[i][key]) || t.tiers[i][key] == Stored(body, m);
    TiersStill(s, t, key, o, blind);
  }

  lemma CopySafe(s: State, f: nat, opens: bool, fault: Option<Error>, key: string, o: Object, blind: bool)
    requires Safe(s, key, o, blind) && f < |s.flights| && s.flights[f].Copying?
    ensures Safe(Next(s, Copy(f, opens, fault)), key, o, blind)
  {
    var fl, step := s.flights[f], Copy(f, opens, fault);
    if 0 <= fl.j < |s.tiers| && Opened(s, fl.buffer, opens).Some? {
      hide Safe, Next;
      CopyLands(s, f, opens, fault, key, o, blind);
    } else {
      hide Safe, Reach, Harm;
      QuietSafe(s, step, Next(s, step), key, o, blind, |s.calls|, f);
    }
  }

  lemma CopyLands(s: State, f: nat, opens: bool, fault: Option<Error>, key: string, o: Object, blind: bool)
    requires Safe(s, key, o, blind) && f < |s.flights| && s.flights[f].Copying?
    requires 0 <= s.flights[f].j < |s.tiers| && Opened(s, s.flights[f].buffer, opens).Some?
    ensures Safe(Next(s, Copy(f, opens, fault)), key, o, blind)
  {
    var fl, step := s.flights[f], Copy(f, opens, fault);
    var t, body := Next(s, step), Opened(s, fl.buffer, opens).value;
    assert !FlightThreat(s, key, o, fl);
    assert t == WithFlight(s, f, fl.(j := fl.j - 1))
                .(tiers := s.tiers[fl.j := After(s.tiers[fl.j], fl.key, body, fl.meta, fault)]);
    SafeParts(s, key, o, blind);
    StepReach(s, step, key, o, blind);
    StepKeeps(map[], s, step);
    hide Next, Inv, Threatened, TiersSafe, UploadsSafe, Reach, TierThreat, UploadThreat, CallThreat, Harm, After;
    GivenSafe(s, t, key, o, blind, fl.j, fl.key, body, fl.meta, fault);
    UploadsStill(s, t, key, o, blind);
    NextCopy(s, t, fl, key, o);
    hide Safe, Searching, FlightThreat, Narrows;
    SafeKept(s, t, key, o, blind, |s.calls|, f);
  }

  lemma NextCopy(s: State, t: State, fl: Flight, key: string, o: Object)
    requires fl.Copying? && 0 <= fl.j < |s.tiers| == |t.tiers| && t.temps == s.temps && !FlightThreat(s, key, o, fl)
    ensures !FlightThreat(t, key, o, fl.(j := fl.j - 1))
  {
    hide Harm;
  }

  lemma FlushSafe(s: State, u: nat, fault: Option<Error>, key: string, o: Object, blind: bool)
    requires Safe(s, key, o, blind) && u < |s.uploads|
    ensures Safe(Next(s, Flush(u, fault)), key, o, blind)
  {
    var up, step := s.uploads[u], Flush(u, fault);
    var t := Next(s, step);
    assert !UploadThreat(s, key, o, blind, up);
    SafeParts(s, key, o, blind);
    StepReach(s, step, key, o, blind);
    StepKeeps(map[], s, step);
    assert forall v :: 0 <= v < |t.uploads| ==> t.uploads[v] in s.uploads;
    hide Inv, Threatened, TiersSafe, UploadsSafe, Narrows, Reach, TierThreat, CallThreat, FlightThreat, Harm, After;
    if up.tier < |s.tiers| {
      GivenSafe(s, t, key, o, blind, up.tier, up.key, up.body, up.meta, fault);
    } else {
      TiersStill(s, t, key, o, blind);
    }
    UploadsStill(s, t, key, o, blind);
    hide Safe, Searching, UploadThreat;
    SafeKept(s, t, key, o, blind, |s.calls|, |s.flights|);
  }

  lemma ForgetSafe(s: State, tier: nat, k: string, key: string, o: Object, blind: bool)
    requires Safe(s, key, o, blind) && tier < |s.tiers| && Allowed(Forget(tier, k), key, blind)
    ensures Safe(Next(s, Forget(tier, k)), key, o, blind)
  {
    var step := Forget(tier, k);
    var t := Next(s, step);
    SafeParts(s, key, o, blind);
    StepReach(s, step, key, o, blind);
    StepKeeps(map[], s, step);
    hide Inv, Threatened, TiersSafe, UploadsSafe, Narrows, Reach, Harm;
    hide TierThreat, CallThreat, FlightThreat, UploadThreat;
    TiersStill(s, t, key, o, blind);
    assert forall v :: 0 <= v < |t.uploads| ==> t.uploads[v] in s.uploads;
    UploadsStill(s, t, key, o, blind);
    hide Safe, Searching;
    SafeKept(s, t, key, o, blind, |s.calls|, |s.flights|);
  }

  /** What a Put's turn does to tiers and uploads. */
  lemma WriteGives(s: State, c: nat, opens: bool, fault: Option<Error>, behind: bool, taken: bool)
    requires c < |s.calls| && s.calls[c].Writing?
    ensures var t, w := Written(s, c, opens, fault, behind, taken), s.calls[c];
            var body := Opened(s, w.buffer, opens);
            && (t.tiers == s.tiers
                || (w.i < |s.tiers| && body.Some?
                    && t.tiers == s.tiers[w.i := After(s.tiers[w.i], w.key, body.value, w.meta, fault)]))
            && (t.uploads == s.uploads
                || (1 <= w.i < |s.tiers| && body.Some?
                    && t.uploads == s.uploads + [Upload(w.i, w.key, body.value, w.meta)]))
  {
    hide TierPut, Opened;
  }

  lemma WriteSafe(s: State, c: nat, opens: bool, fault: Option<Error>, behind: bool, taken: bool,
                  key: string, o: Object, blind: bool)
    requires Safe(s, key, o, blind) && c < |s.calls| && s.calls[c].Writing?
    ensures Safe(Next(s, Write(c, opens, fault, behind, taken)), key, o, blind)
  {
    var w, step := s.calls[c], Write(c, opens, fault, behind, taken);
    var t, body := Written(s, c, opens, fault, behind, taken), Opened(s, w.buffer, opens);
    assert !CallThreat(s, key, o, blind, w) && CallRight(map[], s.temps, s.nextTemp, s.flights, w);
    SafeParts(s, key, o, blind);
    StepReach(s, step, key, o, blind);
    StepKeeps(map[], s, step);
    WriteShape(s, c, opens, fault, behind, taken);
    WriteGives(s, c, opens, fault, behind, taken);
    if w.i < |s.tiers| && body.Some? {
      WriteHarmless(s, c, opens, key, o, blind);
    }
    hide Written, Inv, Threatened, TiersSafe, UploadsSafe, Reach, TierThreat, FlightThreat, Harm, After;
    if t.tiers == s.tiers {
      TiersStill(s, t, key, o, blind);
    } else {
      GivenSafe(s, t, key, o, blind, w.i, w.key, body.value, w.meta, fault);
    }
    UploadsStill(s, t, key, o, blind);
    NextWrite(s, t, c, key, o, blind);
    hide Safe, Searching, UploadThreat, CallThreat, Narrows;
    SafeKept(s, t, key, o, blind, c, |s.flights|);
  }

  lemma WriteHarmless(s: State, c: nat, opens: bool, key: string, o: Object, blind: bool)
    requires c < |s.calls| && s.calls[c].Writing? && !CallThreat(s, key, o, blind, s.calls[c])
    requires s.calls[c].i < |s.tiers| && Opened(s, s.calls[c].buffer, opens).Some?
    ensures var w, body := s.calls[c], Opened(s, s.calls[c].buffer, opens).value;
            && Harmless(s, key, o, blind, w.i, w.key, body, w.meta)
            && (w.i >= 1 ==> !UploadThreat(s, key, o, blind, Upload(w.i, w.key, body, w.meta)))
  {
    hide Harm;
  }

  lemma NextWrite(s: State, t: State, c: nat, key: string, o: Object, blind: bool)
    requires c < |s.calls| == |t.calls| && s.calls[c].Writing? && !CallThreat(s, key, o, blind, s.calls[c])
    requires CallRight(map[], s.temps, s.nextTemp, s.flights, s.calls[c])
    requires t.calls[c].Done? || t.calls[c].Failed? || t.calls[c] == s.calls[c].(i := s.calls[c].i + 1)
    requires Narrows(s, t, key, blind) && Later(s, t)
    ensures !CallThreat(t, key, o, blind, t.calls[c])
  {
    hide Harm, Reach;
  }

  lemma StepSafe(s: State, step: Step, key: string, o: Object, blind: bool)
    requires Safe(s, key, o, blind) && Allowed(step, key, blind)
    ensures Safe(Next(s, step), key, o, blind)
  {
    hide Safe, Begin, Front, Joined, Asked, Copied, Received, Unlinked, Written, Uploaded;
    match step
    case StartGet(_) => BeginSafe(s, step, key, o, blind);
    case StartPut(_, _, _) => BeginSafe(s, step, key, o, blind);
    case ReadFront(c, down) =>
      if c < |s.calls| && s.calls[c].AtFront? { FrontSafe(s, c, down, key, o, blind); }
    case Join(c) =>
      if c < |s.calls| && s.calls[c].AtGroup? { JoinSafe(s, c, key, o, blind); }
    case Ask(f, down) =>
      if f < |s.flights| && s.flights[f].Asking? { AskSafe(s, f, down, key, o, blind); }
    case Copy(f, opens, fault) =>
      if f < |s.flights| && s.flights[f].Copying? { CopySafe(s, f, opens, fault, key, o, blind); }
    case Receive(c, opens) =>
      if c < |s.calls| && s.calls[c].Waiting? && s.calls[c].flight < |s.flights| {
        ReceiveSafe(s, c, opens, key, o, blind);
      }
    case Unlink(c) =>
      if CanUnlink(s, c) { UnlinkSafe(s, c, key, o, blind); }
    case Write(c, opens, fault, behind, taken) =>
      if c < |s.calls| && s.calls[c].Writing? { WriteSafe(s, c, opens, fault, behind, taken, key, o, blind); }
    case Flush(u, fault) =>
      if u < |s.uploads| { FlushSafe(s, u, fault, key, o, blind); }
    case Forget(tier, k) =>
      if tier < |s.tiers| { ForgetSafe(s, tier, k, key, o, blind); }
  }

  lemma {:induction false} RunSafe(s: State, steps: seq<Step>, key: string, o: Object, blind: bool)
    requires Safe(s, key, o, blind) && forall i :: 0 <= i < |steps| ==> Allowed(steps[i], key, blind)
    ensures Safe(Run(s, steps), key, o, blind)
    decreases |steps|
  {
    hide Safe, Next, Allowed;
    if steps != [] {
      StepSafe(s, steps[0], key, o, blind);
      RunSafe(Next(s, steps[0]), steps[1..], key, o, blind);
    }
  }

  lemma ShownIsView(s: State, key: string, o: Object)
    ensures Shown(s, key, o) ==> View(s.tiers, key) == Some(o)
    ensures |s.tiers| > 0 && key in s.tiers[0] && View(s.tiers, key) == Some(o) ==> Shown(s, key, o)
  {
  }

  lemma StepHolds(s: State, step: Step, key: string, blind: bool)
    requires |s.tiers| > 0 && key in s.tiers[0] && Allowed(step, key, blind)
    ensures |Next(s, step).tiers| > 0 && key in Next(s, step).tiers[0]
  {
    if step.Write? {
      hide Written;
      if step.c < |s.calls| && s.calls[step.c].Writing? {
        WriteGives(s, step.c, step.opens, step.fault, step.behind, step.taken);
      }
    } else {
      hide Written, Opened, Buffered, Small;
    }
  }

  lemma {:induction false} RunHolds(s: State, steps: seq<Step>, key: string, blind: bool)
    requires |s.tiers| > 0 && key in s.tiers[0] && forall i :: 0 <= i < |steps| ==> Allowed(steps[i], key, blind)
    ensures |Run(s, steps).tiers| > 0 && key in Run(s, steps).tiers[0]
    decreases |steps|
  {
    hide Next, Allowed;
    if steps != [] {
      StepHolds(s, steps[0], key, blind);
      RunHolds(Next(s, steps[0]), steps[1..], key, blind);
    }
  }

  lemma ThreatStrikes(s: State, key: string, o: Object, blind: bool) returns (steps: seq<Step>)
    requires Grouped(s) && Searching(s) && Threatened(s, key, o, blind)
    ensures Strikes(s, key, o, blind, steps)
  {
    hide TierThreat, UploadThreat, FlightThreat, CallThreat, Strikes, Grouped, Searching;
    if i :| TierThreat(s, key, o, blind, i) {
      steps := TierStrikes(s, key, o, blind, i);
    } else if u :| 0 <= u < |s.uploads| && UploadThreat(s, key, o, blind, s.uploads[u]) {
      steps := UploadStrikes(s, key, o, blind, u);
    } else if f :| 0 <= f < |s.flights| && FlightThreat(s, key, o, s.flights[f]) {
      steps := FlightStrikes(s, key, o, blind, f);
    } else {
      var c :| 0 <= c < |s.calls| && CallThreat(s, key, o, blind, s.calls[c]);
      steps := CallStrikes(s, key, o, blind, c);
    }
  }

  /** Once the front tier has what a Put gave it, the chain goes on showing it through every
      continuation - calls, flights and uploads under way, later Gets, failures, evictions behind -
      if and only if no other copy that could replace it is where it can still reach the front. */
  lemma PutStaysShown(s: State, key: string, o: Object, blind: bool)
    requires Inv(map[], s) && Searching(s) && Shown(s, key, o)
    ensures (forall steps :: (forall i :: 0 <= i < |steps| ==> Allowed(steps[i], key, blind)) ==>
                               View(Run(s, steps).tiers, key) == Some(o))
            <==> !Threatened(s, key, o, blind)
  {
    assert Grouped(s);
    hide Run, Threatened, Inv, Searching, Allowed;
    if Threatened(s, key, o, blind) {
      var steps := ThreatStrikes(s, key, o, blind);
      RunHolds(s, steps, key, blind);
      ShownIsView(Run(s, steps), key, o);
      assert View(Run(s, steps).tiers, key) != Some(o);
    } else {
      forall steps | forall i :: 0 <= i < |steps| ==> Allowed(steps[i], key, blind)
        ensures View(Run(s, steps).tiers, key) == Some(o)
      {
        RunSafe(s, steps, key, o, blind);
        ShownIsView(Run(s, steps), key, o);
      }
    }
  }

  /** Every run begins, and stays, where the theorem applies. */
  lemma {:induction false} RunSearches(s: State, steps: seq<Step>)
    requires Inv(map[], s) && Searching(s)
    ensures Inv(map[], Run(s, steps)) && Searching(Run(s, steps))
    decreases |steps|
  {
    hide Inv, Searching, Next;
    if steps != [] {
      StepKeeps(map[], s, steps[0]);
      StepSearches(s, steps[0]);
      RunSearches(Next(s, steps[0]), steps[1..]);
    }
  }

  lemma StepSearches(s: State, step: Step)
    requires Searching(s)
    ensures Searching(Next(s, step))
  {
    if step.Write? {
      hide Written;
      if step.c < |s.calls| && s.calls[step.c].Writing? {
        WriteShape(s, step.c, step.opens, step.fault, step.behind, step.taken);
      }
    } else {
      hide After, Opened, Buffered, Small, Written;
    }
  }

  /** It does happen: a Get reads the old body behind, a Put of the new one returns nil, the Get
      copies the old one over it. */
  lemma StaleReachable(m: Meta)
    requires m == Meta(1, 0, "", false)
    ensures exists steps ::
              var s := Run(Start([map[], map["k" := Object([0], m)]]), steps);
              && s.calls == [Waiting("k", 0), Done("k")] && View(s.tiers, "k") == Some(Object([1], m))
              && Threatened(s, "k", Object([1], m), false)
              && View(Run(s, [Copy(0, true, None)]).tiers, "k") == Some(Object([0], m))
  {
    var s0 := Start([map[], map["k" := Object([0], m)]]);
    var read := [StartGet("k"), ReadFront(0, false), Join(0), Ask(0, false)];
    var turn := Write(1, true, None, true, false);
    var put := [StartPut("k", [1], m), turn, turn, turn];
    OldRead(m);
    NewPut(m);
    RunConcat(s0, read, put);
    var s := NewShown(m);
    assert FlightThreat(s, "k", Object([1], m), s.flights[0]);
    OldBack(m);
    assert Threatened(s, "k", Object([1], m), false);
    hide Run, Next, Threatened;
    var steps := read + put;
    assert Run(s0, steps) == s && s.calls[1] == Done("k");
  }

  function OldInHand(m: Meta): State {
    State([map[], map["k" := Object([0], m)]], map[], 0, [Waiting("k", 0)],
          [Copying("k", Memory([0]), m, 0)], map["k" := 0], [])
  }

  function NewShown(m: Meta): State {
    OldInHand(m).(tiers := [map["k" := Object([1], m)], map["k" := Object([0], m)]],
                  calls := [Waiting("k", 0), Done("k")])
  }

  lemma OldRead(m: Meta)
    requires m == Meta(1, 0, "", false)
    ensures Run(Start([map[], map["k" := Object([0], m)]]),
                [StartGet("k"), ReadFront(0, false), Join(0), Ask(0, false)]) == OldInHand(m)
  {
    hide Begin, Copied, Received, Written, Uploaded;
    var s0 := Start([map[], map["k" := Object([0], m)]]);
    var s1 := Next(s0, StartGet("k"));
    assert s1.calls == [AtFront("k")];
    var s2 := Next(s1, ReadFront(0, false));
    assert s2.calls == [AtGroup("k")];
    var s3 := Next(s2, Join(0));
    assert s3.calls == [Waiting("k", 0)] && s3.flights == [Asking("k", 1)];
    assert Next(s3, Ask(0, false)) == OldInHand(m);
  }

  lemma NewPut(m: Meta)
    requires m == Meta(1, 0, "", false)
    ensures Run(OldInHand(m), [StartPut("k", [1], m), Write(1, true, None, true, false),
                               Write(1, true, None, true, false), Write(1, true, None, true, false)]) == NewShown(m)
  {
    hide Front, Joined, Asked, Copied, Received, Uploaded;
    var turn := Write(1, true, None, true, false);
    var s0 := OldInHand(m);
    var s1 := Next(s0, StartPut("k", [1], m));
    assert s1 == s0.(calls := [Waiting("k", 0), Writing("k", Memory([1]), m, 0)]);
    var s2 := Next(s1, turn);
    assert s2.calls == [Waiting("k", 0), Writing("k", Memory([1]), m, 1)] && s2.tiers == NewShown(m).tiers;
    var s3 := Next(s2, turn);
    assert s3 == s2.(calls := [Waiting("k", 0), Writing("k", Memory([1]), m, 2)]);
    var s4 := Next(s3, turn);
    assert s4.calls == NewShown(m).calls;
    hide Run, Next;
    assert [StartPut("k", [1], m)] + ([turn] + ([turn] + ([turn] + []))) == [StartPut("k", [1], m), turn, turn, turn];
    RunCons(s0, StartPut("k", [1], m), [turn] + ([turn] + ([turn] + [])));
    RunCons(s1, turn, [turn] + ([turn] + []));
    RunCons(s2, turn, [turn] + []);
    RunCons(s3, turn, []);
    RunNone(s4);
  }

  lemma OldBack(m: Meta)
    requires m == Meta(1, 0, "", false)
    ensures View(NewShown(m).tiers, "k") == Some(Object([1], m))
    ensures View(Run(NewShown(m), [Copy(0, true, None)]).tiers, "k") == Some(Object([0], m))
  {
    hide Begin, Front, Joined, Asked, Received, Written, Uploaded;
    var t := Next(NewShown(m), Copy(0, true, None));
    assert t.tiers[0]["k"] == Object([0], m);
  }
}
