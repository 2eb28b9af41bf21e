/** One call that nobody interrupts takes the steps of ChainRuns to the result and the tiers
    of TierChain.Chain (engine/chain/chain.go). */
module ChainAlone {
  import opened Tiers
  import opened TierChain
  import opened ChainRuns

  lemma RunTwo(s: State, a: Step, b: Step)
    ensures Run(s, [a, b]) == Next(Next(s, a), b)
  {
    hide Next;
    RunCons(s, a, [b]);
    assert [a] + [b] == [a, b];
    RunCons(Next(s, a), b, []);
    assert [b] + [] == [b];
  }

  /* ---- a Put ---- */

  /** The turns of tiers i to n, and the return. */
  function WriteSteps(n: nat, c: nat, faults: map<int, Error>, behind: bool, takes: set<int>, i: nat): seq<Step>
    decreases n - i
  {
    [Write(c, true, Fault(faults, i), behind, i in takes)]
    + (if i >= n then [] else WriteSteps(n, c, faults, behind, takes, i + 1))
  }

  /** What is left of a Put that has come to tier i. */
  function WrittenOut(s: State, c: nat, body: Body, faults: map<int, Error>, behind: bool, takes: set<int>): State
    requires c < |s.calls| && s.calls[c].Writing?
  {
    var w := s.calls[c];
    WithCall(Unspilled(s, w.buffer), c, Done(w.key)).(
      tiers := WriteAll(s.tiers, behind, w.key, body, w.meta, faults, w.i),
      uploads := s.uploads + (if behind then Handed(|s.tiers|, takes, w.key, body, w.meta, w.i) else []))
  }

  lemma {:induction false} WritesOut(s: State, c: nat, body: Body, faults: map<int, Error>, behind: bool,
                                     takes: set<int>)
    requires c < |s.calls| && s.calls[c].Writing? && 1 <= s.calls[c].i <= |s.tiers|
    requires Opened(s, s.calls[c].buffer, true) == Some(body)
    ensures Run(s, WriteSteps(|s.tiers|, c, faults, behind, takes, s.calls[c].i))
            == WrittenOut(s, c, body, faults, behind, takes)
    decreases |s.tiers| - s.calls[c].i
  {
    hide Run;
    var w := s.calls[c];
    var n, i := |s.tiers|, w.i;
    var step := Write(c, true, Fault(faults, i), behind, i in takes);
    if i == n {
      assert WriteSteps(n, c, faults, behind, takes, i) == [step] + [];
      RunCons(s, step, []);
      RunNone(Next(s, step));
      assert WriteAll(s.tiers, behind, w.key, body, w.meta, faults, i) == s.tiers;
      assert s.uploads + [] == s.uploads;
    } else {
      var t := Next(s, step);
      RunCons(s, step, WriteSteps(n, c, faults, behind, takes, i + 1));
      WritesOut(t, c, body, faults, behind, takes);
      WriteOne(s, c, body, faults, behind, takes);
    }
  }

  /** One tier's turn is the first of what is left. */
  lemma WriteOne(s: State, c: nat, body: Body, faults: map<int, Error>, behind: bool, takes: set<int>)
    requires c < |s.calls| && s.calls[c].Writing? && 1 <= s.calls[c].i < |s.tiers|
    requires Opened(s, s.calls[c].buffer, true) == Some(body)
    ensures var t := Written(s, c, true, Fault(faults, s.calls[c].i), behind, s.calls[c].i in takes);
            && t.calls == s.calls[c := s.calls[c].(i := s.calls[c].i + 1)] && |t.tiers| == |s.tiers|
            && Opened(t, s.calls[c].buffer, true) == Some(body)
            && WrittenOut(t, c, body, faults, behind, takes) == WrittenOut(s, c, body, faults, behind, takes)
  {
    hide After, WriteAll, Handed;
    var w := s.calls[c];
    OneFurther(s.tiers, s.uploads, w, body, faults, behind, takes);
    assert s.calls[c := w.(i := w.i + 1)][c := Done(w.key)] == s.calls[c := Done(w.key)];
  }

  /** What is left of tiers and uploads from tier i on is what is left from the next, once i had its turn. */
  lemma OneFurther(tiers: seq<Held>, uploads: seq<Upload>, w: Call, body: Body, faults: map<int, Error>,
                   behind: bool, takes: set<int>)
    requires w.Writing? && 1 <= w.i < |tiers|
    ensures var next := if behind then tiers
                        else tiers[w.i := After(tiers[w.i], w.key, body, w.meta, Fault(faults, w.i))];
            WriteAll(next, behind, w.key, body, w.meta, faults, w.i + 1)
            == WriteAll(tiers, behind, w.key, body, w.meta, faults, w.i)
    ensures var more := if w.i in takes then uploads + [Upload(w.i, w.key, body, w.meta)] else uploads;
            more + Handed(|tiers|, takes, w.key, body, w.meta, w.i + 1)
            == uploads + Handed(|tiers|, takes, w.key, body, w.meta, w.i)
  {
    hide After;
  }

  function PutSteps(s: State, behind: bool, key: string, body: Body, m: Meta, faults: map<int, Error>,
                    takes: set<int>): seq<Step> {
    [StartPut(key, body, m)] + WriteSteps(|s.tiers|, |s.calls|, faults, behind, takes, 0)
  }

  function PutCall(key: string, r: Result<()>): Call {
    match r
    case Ok(_) => Done(key)
    case Err(e) => Failed(key, e)
  }

  lemma {:induction false} NoWrites(s: State, n: nat, c: nat, faults: map<int, Error>, behind: bool,
                                    takes: set<int>, i: nat)
    requires c < |s.calls| && !s.calls[c].Writing?
    ensures Run(s, WriteSteps(n, c, faults, behind, takes, i)) == s
    decreases n - i
  {
    hide Run, Written;
    var step := Write(c, true, Fault(faults, i), behind, i in takes);
    var rest := if i >= n then [] else WriteSteps(n, c, faults, behind, takes, i + 1);
    RunCons(s, step, rest);
    if i >= n {
      RunNone(s);
    } else {
      NoWrites(s, n, c, faults, behind, takes, i + 1);
    }
  }

  /** The buffered body of a Put that has begun. */
  lemma Begun(s: State, key: string, body: Body, m: Meta)
    requires TempsSpent(s) && |s.tiers| > 0
    ensures var t := Begin(s, key, body, m);
            var kept := if |s.tiers| == 1 then body else Buffered(body, m);
            && |t.calls| == |s.calls| + 1 && t.calls[|s.calls|].Writing?
            && t == s.(calls := t.calls, temps := t.temps, nextTemp := t.nextTemp)
            && t.calls == s.calls + [t.calls[|s.calls|]]
            && (var w := t.calls[|s.calls|];
                && w == Writing(key, w.buffer, if |s.tiers| == 1 then m else m.(size := |kept|), 0)
                && Opened(t, w.buffer, true) == Some(kept)
                && Unspilled(t, w.buffer).temps == s.temps)
  {
    hide Small, Buffered;
    var kept := if |s.tiers| == 1 then body else Buffered(body, m);
    assert s.nextTemp !in s.temps;
    assert s.temps[s.nextTemp := kept] - {s.nextTemp} == s.temps;
  }

  /** The front tier's turn: an error that counts ends the Put, anything else goes on. */
  lemma FrontTurn(s: State, c: nat, body: Body, fault: Option<Error>, behind: bool, taken: bool)
    requires c < |s.calls| && s.calls[c].Writing? && s.calls[c].i == 0 && |s.tiers| > 0
    requires Opened(s, s.calls[c].buffer, true) == Some(body)
    ensures var t, w := Written(s, c, true, fault, behind, taken), s.calls[c];
            var out := TierPut(s.tiers[0], w.key, body, w.meta, fault);
            if out.1.Err? && (|s.tiers| == 1 || out.1.error != Exists)
            then t == WithCall(Unspilled(s, w.buffer), c, Failed(w.key, out.1.error))
            else t == WithCall(s, c, w.(i := 1)).(tiers := s.tiers[0 := out.0])
  {
    hide TierPut;
  }

  /** All turns of a Put that has begun. */
  function AllTurns(s: State, c: nat, body: Body, faults: map<int, Error>, behind: bool, takes: set<int>): State
    requires c < |s.calls| && s.calls[c].Writing? && |s.tiers| > 0
  {
    var w := s.calls[c];
    var front := TierPut(s.tiers[0], w.key, body, w.meta, Fault(faults, 0)).1;
    if front.Err? && (|s.tiers| == 1 || front.error != Exists)
    then WithCall(Unspilled(s, w.buffer), c, Failed(w.key, front.error))
    else
      WithCall(Unspilled(s, w.buffer), c, Done(w.key)).(
        tiers := WriteAll(s.tiers, behind, w.key, body, w.meta, faults, 0),
        uploads := s.uploads + (if behind then Handed(|s.tiers|, takes, w.key, body, w.meta, 1) else []))
  }

  lemma TurnsTaken(s: State, c: nat, body: Body, faults: map<int, Error>, behind: bool, takes: set<int>)
    requires c < |s.calls| && s.calls[c].Writing? && s.calls[c].i == 0 && |s.tiers| > 0
    requires Opened(s, s.calls[c].buffer, true) == Some(body)
    ensures Run(s, WriteSteps(|s.tiers|, c, faults, behind, takes, 0)) == AllTurns(s, c, body, faults, behind, takes)
  {
    hide Run, Written, TierPut, WriteAll, Handed, Opened;
    var n, w := |s.tiers|, s.calls[c];
    var t := Written(s, c, true, Fault(faults, 0), behind, 0 in takes);
    RunCons(s, Write(c, true, Fault(faults, 0), behind, 0 in takes), WriteSteps(n, c, faults, behind, takes, 1));
    FrontTurn(s, c, body, Fault(faults, 0), behind, 0 in takes);
    if t.calls[c].Failed? {
      NoWrites(t, n, c, faults, behind, takes, 1);
    } else {
      TurnsGoOn(s, t, c, body, faults, behind, takes);
      hide WrittenOut, AllTurns;
      WritesOut(t, c, body, faults, behind, takes);
    }
  }

  lemma TurnsGoOn(s: State, t: State, c: nat, body: Body, faults: map<int, Error>, behind: bool, takes: set<int>)
    requires c < |s.calls| && s.calls[c].Writing? && s.calls[c].i == 0 && |s.tiers| > 0
    requires Opened(s, s.calls[c].buffer, true) == Some(body)
    requires var w := s.calls[c];
             var out := TierPut(s.tiers[0], w.key, body, w.meta, Fault(faults, 0));
             && !(out.1.Err? && (|s.tiers| == 1 || out.1.error != Exists))
             && t == WithCall(s, c, w.(i := 1)).(tiers := s.tiers[0 := out.0])
    ensures Opened(t, t.calls[c].buffer, true) == Some(body)
    ensures WrittenOut(t, c, body, faults, behind, takes) == AllTurns(s, c, body, faults, behind, takes)
  {
    hide TierPut, WriteAll, Handed, Opened;
    var w := s.calls[c];
    OpenedSame(s, t, w.buffer);
    FrontFirst(s.tiers, behind, w.key, body, w.meta, faults);
    assert t.calls[c := Done(w.key)] == s.calls[c := Done(w.key)];
  }

  /** A Put that nobody interrupts gives what Chain.Put returns, leaves and hands over, and no
      temp file stays behind. */
  lemma PutAlone(s: State, behind: bool, key: string, body: Body, m: Meta, faults: map<int, Error>, takes: set<int>)
    requires TempsSpent(s)
    ensures var done := Putting(s.tiers, behind, key, body, m, faults, takes);
            var t := Run(s, PutSteps(s, behind, key, body, m, faults, takes));
            t == s.(tiers := done.tiers, uploads := s.uploads + done.handed,
                    calls := s.calls + [PutCall(key, done.r)], nextTemp := t.nextTemp)
  {
    hide Run, WriteSteps, TierPut, WriteAll, Handed, Opened, Buffered, TempsSpent, AllTurns;
    var c, n := |s.calls|, |s.tiers|;
    var s1 := Begin(s, key, body, m);
    RunCons(s, StartPut(key, body, m), WriteSteps(n, c, faults, behind, takes, 0));
    assert s.uploads + [] == s.uploads;
    if n == 0 {
      NoWrites(s1, n, c, faults, behind, takes, 0);
    } else {
      Begun(s, key, body, m);
      hide Begin;
      TurnsTaken(s1, c, if n == 1 then body else Buffered(body, m), faults, behind, takes);
      TurnsPut(s, s1, behind, key, body, m, faults, takes);
    }
  }

  lemma TurnsPut(s: State, t: State, behind: bool, key: string, body: Body, m: Meta, faults: map<int, Error>,
                 takes: set<int>)
    requires |s.tiers| > 0 && |t.calls| == |s.calls| + 1 && t.calls == s.calls + [t.calls[|s.calls|]]
    requires t == s.(calls := t.calls, temps := t.temps, nextTemp := t.nextTemp)
    requires t.calls[|s.calls|].Writing?
    requires var kept := if |s.tiers| == 1 then body else Buffered(body, m);
             var w := t.calls[|s.calls|];
             && w == Writing(key, w.buffer, if |s.tiers| == 1 then m else m.(size := |kept|), 0)
             && Unspilled(t, w.buffer).temps == s.temps
    ensures var kept := if |s.tiers| == 1 then body else Buffered(body, m);
            var done := Putting(s.tiers, behind, key, body, m, faults, takes);
            AllTurns(t, |s.calls|, kept, faults, behind, takes)
            == s.(tiers := done.tiers, uploads := s.uploads + done.handed,
                  calls := s.calls + [PutCall(key, done.r)], nextTemp := t.nextTemp)
  {
    hide TierPut, WriteAll, Handed, Buffered;
    var done := Putting(s.tiers, behind, key, body, m, faults, takes);
    var x := PutCall(key, done.r);
    assert t.calls[|s.calls| := x] == s.calls + [x];
    assert s.uploads + [] == s.uploads;
  }

  lemma OpenedSame(s: State, t: State, b: Buffer)
    requires t.temps == s.temps
    ensures Opened(t, b, true) == Opened(s, b, true)
  {
  }

  lemma FrontFirst(tiers: seq<Held>, behind: bool, key: string, body: Body, m: Meta, faults: map<int, Error>)
    requires |tiers| > 0
    ensures WriteAll(tiers[0 := After(tiers[0], key, body, m, Fault(faults, 0))], behind, key, body, m, faults, 1)
            == WriteAll(tiers, behind, key, body, m, faults, 0)
  {
    hide After;
  }

  /* ---- a Get ---- */

  /** Whether the search fails at tier i: its read, or the temp file its body needs. */
  predicate FailsAt(tiers: seq<Held>, down: set<int>, key: string, spillFails: bool, i: nat) {
    i in down || (i < |tiers| && key in tiers[i] && !Small(tiers[i][key].meta) && spillFails)
  }

  function AskSteps(tiers: seq<Held>, down: set<int>, key: string, spillFails: bool, f: nat, i: nat): seq<Step>
    decreases |tiers| - i
  {
    [Ask(f, FailsAt(tiers, down, key, spillFails, i))]
    + (if i >= |tiers| then [] else AskSteps(tiers, down, key, spillFails, f, i + 1))
  }

  lemma {:induction false} NoAsks(s: State, down: set<int>, key: string, spillFails: bool, f: nat, i: nat)
    requires f < |s.flights| ==> !s.flights[f].Asking?
    ensures Run(s, AskSteps(s.tiers, down, key, spillFails, f, i)) == s
    decreases |s.tiers| - i
  {
    hide Run, Asked, FailsAt;
    RunCons(s, Ask(f, FailsAt(s.tiers, down, key, spillFails, i)),
            if i >= |s.tiers| then [] else AskSteps(s.tiers, down, key, spillFails, f, i + 1));
    if i >= |s.tiers| {
      RunNone(s);
    } else {
      NoAsks(s, down, key, spillFails, f, i + 1);
    }
  }

  lemma AnswerAt(tiers: seq<Held>, down: set<int>, key: string, spillFails: bool, i: nat)
    requires Passed(tiers, down, key, i) && (i <= |tiers| || |tiers| == 0)
    ensures i >= |tiers| ==> Answer(tiers, down, key, spillFails) == Err(NotFound)
    ensures i < |tiers| && FailsAt(tiers, down, key, spillFails, i) ==>
              Answer(tiers, down, key, spillFails) == Err(Broken)
    ensures i < |tiers| && !FailsAt(tiers, down, key, spillFails, i) && key in tiers[i] ==>
              FirstUp(tiers, down, key, 0) == i && Answer(tiers, down, key, spillFails) == Ok(tiers[i][key])
  {
    hide Small;
    if i >= |tiers| {
      FirstUpIs(tiers, down, key, 0, |tiers|);
    } else if i !in down && key in tiers[i] {
      FirstUpIs(tiers, down, key, 0, i);
    }
  }

  /** Where a search ends: lost, or with the body in hand and the tiers in front to fill. */
  ghost function Searched(s: State, down: set<int>, key: string, spillFails: bool, f: nat): State
    requires f < |s.flights|
  {
    match Answer(s.tiers, down, key, spillFails)
    case Err(e) => Ended(s, f, Lost(key, e))
    case Ok(o) =>
      var at := FirstUp(s.tiers, down, key, 0);
      if Small(o.meta) then WithFlight(s, f, Copying(key, Memory(o.body), o.meta, at - 1))
      else WithFlight(Spilled(s, o.body), f, Copying(key, Spill(s.nextTemp), o.meta, at - 1))
  }

  lemma {:induction false} AsksDone(s: State, down: set<int>, key: string, spillFails: bool, f: nat, i: nat)
    requires f < |s.flights| && s.flights[f] == Asking(key, i) && Sized(s.tiers)
    requires Passed(s.tiers, down, key, i) && (i <= |s.tiers| || |s.tiers| == 0)
    ensures Run(s, AskSteps(s.tiers, down, key, spillFails, f, i)) == Searched(s, down, key, spillFails, f)
    decreases |s.tiers| - i
  {
    hide Run, Asked, Searched, FailsAt, Sized;
    var step := Ask(f, FailsAt(s.tiers, down, key, spillFails, i));
    var t := Asked(s, f, step.down);
    RunCons(s, step, if i >= |s.tiers| then [] else AskSteps(s.tiers, down, key, spillFails, f, i + 1));
    AskOne(s, down, key, spillFails, f, i);
    if i >= |s.tiers| {
      RunNone(t);
    } else if t.flights[f].Asking? {
      AsksDone(t, down, key, spillFails, f, i + 1);
    } else {
      NoAsks(t, down, key, spillFails, f, i + 1);
    }
  }

  /** One tier asked either ends the search or passes it on. */
  lemma AskOne(s: State, down: set<int>, key: string, spillFails: bool, f: nat, i: nat)
    requires f < |s.flights| && s.flights[f] == Asking(key, i) && Sized(s.tiers)
    requires Passed(s.tiers, down, key, i) && (i <= |s.tiers| || |s.tiers| == 0)
    ensures var t := Asked(s, f, FailsAt(s.tiers, down, key, spillFails, i));
            && t.tiers == s.tiers && |t.flights| == |s.flights|
            && if t.flights[f].Asking?
               then t.flights[f] == Asking(key, i + 1) && i < |s.tiers| && Passed(s.tiers, down, key, i + 1)
                    && Searched(t, down, key, spillFails, f) == Searched(s, down, key, spillFails, f)
               else t == Searched(s, down, key, spillFails, f)
  {
    AnswerAt(s.tiers, down, key, spillFails, i);
    hide Answer, FirstUp, Small;
    var t := Asked(s, f, FailsAt(s.tiers, down, key, spillFails, i));
    if t.flights[f].Asking? {
      SearchGoesOn(s, t, down, key, spillFails, f, i + 1);
    }
  }

  lemma SearchGoesOn(s: State, t: State, down: set<int>, key: string, spillFails: bool, f: nat, i: nat)
    requires f < |s.flights| && t == WithFlight(s, f, Asking(key, i))
    ensures Searched(t, down, key, spillFails, f) == Searched(s, down, key, spillFails, f)
  {
    hide Answer, FirstUp, Small;
    var u := Searched(s, down, key, spillFails, f).flights[f];
    assert t.flights[f := u] == s.flights[f := u];
  }

  function CopySteps(f: nat, faults: map<int, Error>, lost: int, j: int): seq<Step>
    decreases j + 1
  {
    [Copy(f, lost <= j, Fault(faults, j))] + (if j < 0 then [] else CopySteps(f, faults, lost, j - 1))
  }

  lemma {:induction false} NoCopies(s: State, f: nat, faults: map<int, Error>, lost: int, j: int)
    requires f < |s.flights| ==> !s.flights[f].Copying?
    ensures Run(s, CopySteps(f, faults, lost, j)) == s
    decreases j + 1
  {
    hide Run, Copied;
    RunCons(s, Copy(f, lost <= j, Fault(faults, j)), if j < 0 then [] else CopySteps(f, faults, lost, j - 1));
    if j < 0 {
      RunNone(s);
    } else {
      NoCopies(s, f, faults, lost, j - 1);
    }
  }

  /** What is left of a flight that is copying. */
  function CopiedOut(s: State, f: nat, body: Body, faults: map<int, Error>, lost: int): State
    requires f < |s.flights| && s.flights[f].Copying? && s.flights[f].j >= -1
  {
    var fl := s.flights[f];
    Ended(s.(tiers := ForwardAll(s.tiers, fl.key, Object(body, fl.meta), fl.j + 1, faults, lost)), f,
          Landed(fl.key, fl.buffer, fl.meta))
  }

  lemma {:induction false} CopiesDone(s: State, f: nat, body: Body, faults: map<int, Error>, lost: int)
    requires f < |s.flights| && s.flights[f].Copying? && -1 <= s.flights[f].j < |s.tiers|
    requires Opened(s, s.flights[f].buffer, true) == Some(body)
    requires s.flights[f].buffer.Memory? <==> Small(s.flights[f].meta)
    ensures Run(s, CopySteps(f, faults, lost, s.flights[f].j)) == CopiedOut(s, f, body, faults, lost)
    decreases s.flights[f].j + 1
  {
    hide Run, After, Small;
    var fl := s.flights[f];
    var j := fl.j;
    var step := Copy(f, lost <= j, Fault(faults, j));
    var t := Copied(s, f, lost <= j, Fault(faults, j));
    RunCons(s, step, if j < 0 then [] else CopySteps(f, faults, lost, j - 1));
    if j < 0 {
      RunNone(t);
      assert ForwardAll(s.tiers, fl.key, Object(body, fl.meta), 0, faults, lost) == s.tiers;
    } else if fl.buffer.Spill? && j < lost {
      NoCopies(t, f, faults, lost, j - 1);
      assert ForwardAll(s.tiers, fl.key, Object(body, fl.meta), j + 1, faults, lost) == s.tiers;
    } else {
      CopiesDone(t, f, body, faults, lost);
      CopyOne(s, t, f, body, faults, lost);
    }
  }

  lemma CopyOne(s: State, t: State, f: nat, body: Body, faults: map<int, Error>, lost: int)
    requires f < |s.flights| && s.flights[f].Copying? && 0 <= s.flights[f].j < |s.tiers|
    requires Small(s.flights[f].meta) || lost <= s.flights[f].j
    requires var fl := s.flights[f];
             t == WithFlight(s, f, fl.(j := fl.j - 1))
                  .(tiers := s.tiers[fl.j := After(s.tiers[fl.j], fl.key, body, fl.meta, Fault(faults, fl.j))])
    ensures CopiedOut(t, f, body, faults, lost) == CopiedOut(s, f, body, faults, lost)
  {
    hide After, Small;
    var fl := s.flights[f];
    var o := Object(body, fl.meta);
    assert ForwardAll(t.tiers, fl.key, o, fl.j, faults, lost)
        == ForwardAll(s.tiers, fl.key, o, fl.j + 1, faults, lost);
  }

  function GetSteps(s: State, down: set<int>, key: string, faults: map<int, Error>,
                    spillFails: bool, lost: int, gone: bool): seq<Step> {
    var c, f := |s.calls|, |s.flights|;
    [StartGet(key), ReadFront(c, 0 in down), Join(c)]
    + (AskSteps(s.tiers, down, key, spillFails, f, 1)
       + (CopySteps(f, faults, lost, FirstUp(s.tiers, down, key, 0) - 1)
          + [Receive(c, !gone), Unlink(c)]))
  }

  function GetCall(key: string, r: Result<Object>): Call {
    match r
    case Ok(o) => Hit(key, o)
    case Err(e) => Failed(key, e)
  }

  /** The three steps that bring a caller to its flight, when no flight of the key is under way. */
  lemma Launched(s: State, key: string, down: bool)
    requires key !in s.group
    ensures var c := |s.calls|;
            Run(s, [StartGet(key), ReadFront(c, down), Join(c)]) ==
            if |s.tiers| > 0 && !down && key in s.tiers[0] then s.(calls := s.calls + [Hit(key, s.tiers[0][key])])
            else s.(calls := s.calls + [Waiting(key, |s.flights|)], flights := s.flights + [Asking(key, 1)],
                    group := s.group[key := |s.flights|])
  {
    hide Run, Begin, Asked, Copied, Received, Written, Uploaded;
    var c := |s.calls|;
    var s1 := Next(s, StartGet(key));
    var s2 := Next(s1, ReadFront(c, down));
    RunCons(s, StartGet(key), [ReadFront(c, down), Join(c)]);
    assert [StartGet(key)] + [ReadFront(c, down), Join(c)] == [StartGet(key), ReadFront(c, down), Join(c)];
    RunTwo(s1, ReadFront(c, down), Join(c));
    FrontAsked(s, key, down);
    hide Front;
    if |s.tiers| > 0 && !down && key in s.tiers[0] {
      assert !s2.calls[c].AtGroup?;
    } else {
      assert s2.calls[c := Waiting(key, |s.flights|)] == s.calls + [Waiting(key, |s.flights|)];
    }
  }

  lemma FrontAsked(s: State, key: string, down: bool)
    ensures Front(s.(calls := s.calls + [AtFront(key)]), |s.calls|, down) == s.(calls := s.calls +
              [if |s.tiers| > 0 && !down && key in s.tiers[0] then Hit(key, s.tiers[0][key]) else AtGroup(key)])
  {
    var x := if |s.tiers| > 0 && !down && key in s.tiers[0] then Hit(key, s.tiers[0][key]) else AtGroup(key);
    assert (s.calls + [AtFront(key)])[|s.calls| := x] == s.calls + [x];
  }

  /** The flight of a caller that waits alone, to its end and the caller's. */
  lemma Flown(s: State, c: nat, f: nat, down: set<int>, key: string, faults: map<int, Error>,
              spillFails: bool, lost: int, gone: bool)
    requires c < |s.calls| && s.calls[c] == Waiting(key, f) && f < |s.flights| && s.flights[f] == Asking(key, 1)
    requires Sized(s.tiers) && TempsSpent(s) && (|s.tiers| > 0 ==> 0 in down || key !in s.tiers[0])
    ensures var got := Getting(s.tiers, down, key, faults, spillFails, lost, gone);
            var t := Run(s, AskSteps(s.tiers, down, key, spillFails, f, 1)
                            + (CopySteps(f, faults, lost, FirstUp(s.tiers, down, key, 0) - 1)
                               + [Receive(c, !gone), Unlink(c)]));
            && t.tiers == got.tiers && t.calls == s.calls[c := GetCall(key, got.r)]
            && t.uploads == s.uploads && t.group == s.group - {key}
  {
    hide Run, Next, AskSteps, CopySteps, Sized, TempsSpent, ForwardAll, FirstUp;
    var asks := AskSteps(s.tiers, down, key, spillFails, f, 1);
    var copies := CopySteps(f, faults, lost, FirstUp(s.tiers, down, key, 0) - 1);
    var s1 := Searched(s, down, key, spillFails, f);
    RunConcat(s, asks, copies + [Receive(c, !gone), Unlink(c)]);
    AsksDone(s, down, key, spillFails, f, 1);
    match Answer(s.tiers, down, key, spillFails)
    case Err(e) =>
      hide Answer;
      RunConcat(s1, copies, [Receive(c, !gone), Unlink(c)]);
      NoCopies(s1, f, faults, lost, FirstUp(s.tiers, down, key, 0) - 1);
      RunTwo(s1, Receive(c, !gone), Unlink(c));
      ReceivedLost(s1, c, f, key, e, !gone);
    case Ok(o) =>
      AnswerHit(s.tiers, down, key, spillFails);
      hide Answer, Searched, Opened;
      SearchFound(s, down, key, spillFails, f, o);
      CopiedAndReceived(s1, c, f, o.body, faults, lost, !gone);
  }

  /** The copies of a flight that has found its object, and what its caller is given. */
  lemma CopiedAndReceived(s: State, c: nat, f: nat, body: Body, faults: map<int, Error>, lost: int, opens: bool)
    requires f < |s.flights| && s.flights[f].Copying? && 0 <= s.flights[f].j < |s.tiers|
    requires c < |s.calls| && s.calls[c] == Waiting(s.flights[f].key, f)
    requires Opened(s, s.flights[f].buffer, true) == Some(body)
    requires s.flights[f].buffer.Memory? <==> Small(s.flights[f].meta)
    ensures var fl := s.flights[f];
            var t := Run(s, CopySteps(f, faults, lost, fl.j) + [Receive(c, opens), Unlink(c)]);
            && t.tiers == ForwardAll(s.tiers, fl.key, Object(body, fl.meta), fl.j + 1, faults, lost)
            && t.calls == s.calls[c := if opens || Small(fl.meta) then Hit(fl.key, Object(body, fl.meta))
                                       else Failed(fl.key, Broken)]
            && t.uploads == s.uploads && t.group == s.group - {fl.key}
  {
    hide Run, Next, CopySteps, ForwardAll, Small, Opened;
    var fl := s.flights[f];
    RunConcat(s, CopySteps(f, faults, lost, fl.j), [Receive(c, opens), Unlink(c)]);
    CopiesDone(s, f, body, faults, lost);
    var t := CopiedOut(s, f, body, faults, lost);
    OpenedSame(s, t, fl.buffer);
    RunTwo(t, Receive(c, opens), Unlink(c));
    ReceivedLanded(t, c, f, fl.key, fl.buffer, fl.meta, body, opens);
  }

  lemma AnswerHit(tiers: seq<Held>, down: set<int>, key: string, spillFails: bool)
    requires |tiers| > 0 ==> 0 in down || key !in tiers[0]
    ensures Answer(tiers, down, key, spillFails).Ok? ==> 0 < FirstUp(tiers, down, key, 0) < |tiers|
  {
  }

  /** A search that found its object has it buffered and the tiers in front still to fill. */
  lemma SearchFound(s: State, down: set<int>, key: string, spillFails: bool, f: nat, o: Object)
    requires f < |s.flights| && Answer(s.tiers, down, key, spillFails) == Ok(o)
    ensures var t, at := Searched(s, down, key, spillFails, f), FirstUp(s.tiers, down, key, 0);
            && t == s.(flights := t.flights, temps := t.temps, nextTemp := t.nextTemp) && |t.flights| == |s.flights|
            && t.flights[f] == Copying(key, t.flights[f].buffer, o.meta, at - 1)
            && (t.flights[f].buffer.Memory? <==> Small(o.meta))
            && Opened(t, t.flights[f].buffer, true) == Some(o.body)
  {
    hide Answer, FirstUp, Small;
  }

  lemma ReceivedLost(s: State, c: nat, f: nat, key: string, e: Error, opens: bool)
    requires c < |s.calls| && s.calls[c] == Waiting(key, f) && f < |s.flights| && s.flights[f] == Lost(key, e)
    ensures Next(Next(s, Receive(c, opens)), Unlink(c)) == WithCall(s, c, Failed(key, e))
  {
    hide Begin, Front, Joined, Asked, Copied, Written, Uploaded;
  }

  lemma ReceivedLanded(s: State, c: nat, f: nat, key: string, buffer: Buffer, meta: Meta, body: Body, opens: bool)
    requires c < |s.calls| && s.calls[c] == Waiting(key, f) && f < |s.flights|
               && s.flights[f] == Landed(key, buffer, meta)
    requires Opened(s, buffer, true) == Some(body)
    ensures var t := Next(Next(s, Receive(c, opens)), Unlink(c));
            t == WithCall(s, c, if opens || buffer.Memory? then Hit(key, Object(body, meta)) else Failed(key, Broken))
                 .(temps := t.temps)
  {
    hide Begin, Front, Joined, Asked, Copied, Written, Uploaded;
    var t := Next(s, Receive(c, opens));
    assert forall x: Call {:trigger t.calls[c := x]} :: t.calls[c := x] == s.calls[c := x];
  }

  /** A Get that nobody interrupts gives what Chain.Get returns and leaves. */
  lemma GetAlone(s: State, down: set<int>, key: string, faults: map<int, Error>, spillFails: bool, lost: int,
                 gone: bool)
    requires key !in s.group && Sized(s.tiers) && TempsSpent(s)
    ensures var got := Getting(s.tiers, down, key, faults, spillFails, lost, gone);
            var t := Run(s, GetSteps(s, down, key, faults, spillFails, lost, gone));
            && t.tiers == got.tiers && t.calls == s.calls + [GetCall(key, got.r)]
            && t.uploads == s.uploads && t.group == s.group
  {
    hide Run, Next, AskSteps, CopySteps, Sized, TempsSpent, ForwardAll, Answer;
    var c, f := |s.calls|, |s.flights|;
    var asks := AskSteps(s.tiers, down, key, spillFails, f, 1);
    var copies := CopySteps(f, faults, lost, FirstUp(s.tiers, down, key, 0) - 1);
    RunConcat(s, [StartGet(key), ReadFront(c, 0 in down), Join(c)], asks + (copies + [Receive(c, !gone), Unlink(c)]));
    Launched(s, key, 0 in down);
    if |s.tiers| > 0 && 0 !in down && key in s.tiers[0] {
      var s1 := s.(calls := s.calls + [Hit(key, s.tiers[0][key])]);
      GetHitsFront(s.tiers, down, key, faults, spillFails, lost, gone);
      RunConcat(s1, asks, copies + [Receive(c, !gone), Unlink(c)]);
      NoAsks(s1, down, key, spillFails, f, 1);
      RunConcat(s1, copies, [Receive(c, !gone), Unlink(c)]);
      NoCopies(s1, f, faults, lost, FirstUp(s.tiers, down, key, 0) - 1);
      RunTwo(s1, Receive(c, !gone), Unlink(c));
      ServedAlready(s1, c, !gone);
    } else {
      var s1 := s.(calls := s.calls + [Waiting(key, f)], flights := s.flights + [Asking(key, 1)],
          group := s.group[key := f]);
      SpentSame(s, s1);
      Flown(s1, c, f, down, key, faults, spillFails, lost, gone);
      var x := GetCall(key, Getting(s.tiers, down, key, faults, spillFails, lost, gone).r);
      assert s1.calls[c := x] == s.calls + [x];
      assert s.group[key := f] - {key} == s.group;
    }
  }

  lemma SpentSame(s: State, t: State)
    requires TempsSpent(s) && t.temps == s.temps && t.nextTemp == s.nextTemp
    ensures TempsSpent(t)
  {
  }

  lemma ServedAlready(s: State, c: nat, opens: bool)
    requires c < |s.calls| && s.calls[c].Hit?
    ensures Next(Next(s, Receive(c, opens)), Unlink(c)) == s
  {
  }
}
