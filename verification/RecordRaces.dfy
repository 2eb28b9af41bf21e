/** When a record a Put has written survives the Gets beside it
    (frontend/gobuild/gobuild.go, GetIf and dropDangling). */
module RecordRaces {
  import opened ActionRecord
  import opened BuildCache
  import opened CrashOrder
  import BuildAlone

  /** A usable record of the action, with its output. */
  ghost predicate Sound(t: Objects, id: string)
    requires ValidId(id)
  {
    RecordAt(t, PREFIX, id).Some? && OutputKey(PREFIX, RecordAt(t, PREFIX, id).value.outputId) in t
  }

  /** A Get that will delete the action's record if nothing stops it: it has read an unusable one,
      or one whose output is in none of the layouts it has yet to ask. */
  predicate GetThreat(t: Objects, g: Getting, id: string) {
    GetValid(g) && match g
      case Discarding(i, legacy, n) => i == id && Prefixes(legacy)[n] == PREFIX
      case Fetching(i, legacy, from, rec, n) =>
        i == id && from == PREFIX
        && forall q :: n <= q < |PrefixesFrom(legacy, from)| ==>
            OutputKey(PrefixesFrom(legacy, from)[q], rec.outputId) !in t
      case Dropping(i, from) => i == id && from == PREFIX
      case _ => false
  }

  /** A Put about to record for the action an output that has vanished since it was written. */
  predicate PutThreat(t: Objects, p: Putting, id: string) {
    PutValid(p) && p.BytesIn? && p.id == id && OutputKey(PREFIX, p.outputId) !in t
  }

  ghost predicate Threatened(s: State, id: string) {
    || (exists i :: 0 <= i < |s.gets| && GetThreat(s.objects, s.gets[i], id))
    || (exists i :: 0 <= i < |s.puts| && PutThreat(s.objects, s.puts[i], id))
  }

  /** From here on the tier loses neither this record nor outputs. */
  ghost predicate Spares(step: Step, id: string)
    requires ValidId(id)
  {
    step.Lose? ==> step.k != ActionKey(PREFIX, id) && forall p, o :: !IsOutput(step.k, p, o)
  }

  ghost predicate Safe(s: State, id: string)
    requires ValidId(id)
  {
    Sound(s.objects, id) && !Threatened(s, id)
  }

  /** Nothing becomes a threat that was none, as long as outputs stay and the Get at i is not one. */
  lemma SafeKept(s: State, t: State, id: string, i: nat, j: nat)
    requires ValidId(id) && Safe(s, id) && Sound(t.objects, id)
    requires forall p, o :: ValidId(o) && OutputKey(p, o) in s.objects ==> OutputKey(p, o) in t.objects
    requires forall h :: 0 <= h < |t.gets| && h != i ==> h < |s.gets| && t.gets[h] == s.gets[h]
    requires forall h :: 0 <= h < |t.puts| && h != j ==> h < |s.puts| && t.puts[h] == s.puts[h]
    requires i < |t.gets| ==> !GetThreat(t.objects, t.gets[i], id)
    requires j < |t.puts| ==> !PutThreat(t.objects, t.puts[j], id)
    ensures Safe(t, id)
  {
    hide Key, Sound, PrefixesFrom;
    forall h | 0 <= h < |t.gets| ensures !GetThreat(t.objects, t.gets[h], id) {
      var g := t.gets[h];
      if h != i {
        assert !GetThreat(s.objects, s.gets[h], id);
      }
    }
    forall h | 0 <= h < |t.puts| ensures !PutThreat(t.objects, t.puts[h], id) {
      var p := t.puts[h];
      if h != j {
        assert !PutThreat(s.objects, s.puts[h], id);
      }
    }
  }

  /** The record and its output are untouched when no other key changes. */
  lemma SoundKept(t: Objects, u: Objects, id: string)
    requires ValidId(id) && Sound(t, id)
    requires ActionKey(PREFIX, id) in u && u[ActionKey(PREFIX, id)] == t[ActionKey(PREFIX, id)]
    requires forall p, o :: ValidId(o) && OutputKey(p, o) in t ==> OutputKey(p, o) in u
    ensures Sound(u, id)
  {
    hide Key, ParseAction;
  }

  lemma TurnSafe(s: State, n: nat, fails: bool, id: string)
    requires ValidId(id) && Safe(s, id) && n < |s.gets| && GetValid(s.gets[n])
    ensures Safe(Turned(s, n, fails), id)
  {
    var t, g := Turned(s, n, fails), s.gets[n];
    assert !GetThreat(s.objects, g, id);
    TurnShape(s, n, fails);
    TurnKeeps(s, n, fails, id);
    TurnThreat(s, n, fails, id);
    hide Turned, Sound, GetThreat, PutThreat, Key;
    SafeKept(s, t, id, n, |t.puts|);
  }

  /** A Get that is no threat leaves this record and all outputs alone. */
  lemma TurnKeeps(s: State, n: nat, fails: bool, id: string)
    requires ValidId(id) && Sound(s.objects, id) && n < |s.gets| && GetValid(s.gets[n])
    requires !GetThreat(s.objects, s.gets[n], id)
    ensures Sound(Turned(s, n, fails).objects, id)
    ensures forall p, o :: ValidId(o) && OutputKey(p, o) in s.objects ==>
              OutputKey(p, o) in Turned(s, n, fails).objects
  {
    hide Turned, RecordAt, Key;
    var t, g := Turned(s, n, fails), s.gets[n];
    TurnShape(s, n, fails);
    if g.Discarding? || g.Dropping? {
      var from := if g.Discarding? then Prefixes(g.legacy)[g.n] else g.from;
      forall p, o | ValidId(o) && OutputKey(p, o) in s.objects ensures OutputKey(p, o) in t.objects {
        KeyInjective(p, "output", o, from, "action", g.id);
      }
      KeyInjective(PREFIX, "action", id, from, "action", g.id);
      RecordThere(s.objects, id);
    } else {
      RecordThere(s.objects, id);
    }
    SoundKept(s.objects, t.objects, id);
  }

  lemma RecordThere(t: Objects, id: string)
    requires ValidId(id) && Sound(t, id)
    ensures ActionKey(PREFIX, id) in t
  {
  }

  /** And its next state is no threat: a record it reads now has its output. */
  lemma TurnThreat(s: State, n: nat, fails: bool, id: string)
    requires ValidId(id) && Sound(s.objects, id) && n < |s.gets| && GetValid(s.gets[n])
    requires !GetThreat(s.objects, s.gets[n], id)
    ensures var t := Turned(s, n, fails); !GetThreat(t.objects, t.gets[n], id)
  {
    hide Key, RecordAt, PrefixesFrom;
    var t, g := Turned(s, n, fails), s.gets[n];
    if g.Asking? && t.gets[n].Fetching? {
      FromFirst(g.legacy, t.gets[n].from);
    } else if g.Fetching? && t.gets[n].Fetching? {
      hide Sound;
      assert t.objects == s.objects && t.gets[n] == Fetching(g.id, g.legacy, g.from, g.rec, g.n + 1);
    }
  }

  lemma FromFirst(legacy: string, from: string)
    ensures |PrefixesFrom(legacy, from)| > 0 && PrefixesFrom(legacy, from)[0] == from
  {
  }

  lemma BytesSafe(s: State, n: nat, fails: bool, id: string)
    requires ValidId(id) && Safe(s, id) && n < |s.puts| && s.puts[n].Begun? && PutValid(s.puts[n])
    ensures Safe(BytesWritten(s, n, fails), id)
  {
    hide Key, Threatened, RecordAt;
    var t := BytesWritten(s, n, fails);
    KeyInjective(PREFIX, "action", id, PREFIX, "output", s.puts[n].outputId);
    RecordThere(s.objects, id);
    SoundKept(s.objects, t.objects, id);
    SafeKept(s, t, id, |t.gets|, n);
  }

  lemma RecordSafe(s: State, n: nat, fails: bool, id: string)
    requires ValidId(id) && Safe(s, id) && n < |s.puts| && s.puts[n].BytesIn? && PutValid(s.puts[n])
    ensures Safe(RecordWritten(s, n, fails), id)
  {
    var t, p := RecordWritten(s, n, fails), s.puts[n];
    assert !PutThreat(s.objects, p, id);
    NewRecord(s.objects, p.id, p.outputId, p.at);
    hide Key, Threatened, RecordAt, FormatAction;
    KeyInjective(PREFIX, "action", id, PREFIX, "action", p.id);
    RecordThere(s.objects, id);
    if p.id != id || fails {
      SoundKept(s.objects, t.objects, id);
    }
    SafeKept(s, t, id, |t.gets|, n);
  }

  /** A record just written reads back as the output it names. */
  lemma NewRecord(t: Objects, id: string, outputId: string, at: Time)
    requires ValidId(id) && ValidId(outputId)
    ensures var rec := FormatAction(outputId, at);
            var r := RecordAt(t[ActionKey(PREFIX, id) := Held(rec, |rec|, at, false)], PREFIX, id);
            r.Some? && r.value.outputId == outputId
  {
    hide Key, ParseAction, FormatAction, UnixNano, Unix, Quo, Rem;
    ReadsBack(outputId, at, "");
    assert FormatAction(outputId, at) + "" == FormatAction(outputId, at);
  }

  lemma LoseSafe(s: State, k: string, id: string)
    requires ValidId(id) && Safe(s, id) && Spares(Lose(k), id)
    ensures Safe(Do(s, Lose(k)), id)
  {
    hide Key, Threatened, RecordAt;
    var t := Do(s, Lose(k));
    forall p, o | ValidId(o) && OutputKey(p, o) in s.objects ensures OutputKey(p, o) in t.objects {
      assert !IsOutput(k, p, o);
    }
    RecordThere(s.objects, id);
    SoundKept(s.objects, t.objects, id);
    SafeKept(s, t, id, |t.gets|, |t.puts|);
  }

  lemma StepSafe(s: State, step: Step, id: string)
    requires ValidId(id) && Safe(s, id) && Spares(step, id)
    ensures Safe(Do(s, step), id)
  {
    hide Turned, BytesWritten, RecordWritten, Safe, Spares;
    match step
    case Begin(_, _, _, _, _) =>
      SafeParts(s, id);
      SafeKept(s, Do(s, step), id, |s.gets|, |s.puts|);
    case Ask(_, _) =>
      SafeParts(s, id);
      SafeKept(s, Do(s, step), id, |s.gets|, |s.puts|);
    case WriteBytes(n, fails) =>
      if n < |s.puts| && s.puts[n].Begun? && PutValid(s.puts[n]) { BytesSafe(s, n, fails, id); }
    case WriteRecord(n, fails) =>
      if n < |s.puts| && s.puts[n].BytesIn? && PutValid(s.puts[n]) { RecordSafe(s, n, fails, id); }
    case Turn(n, fails) =>
      if n < |s.gets| && GetValid(s.gets[n]) { TurnSafe(s, n, fails, id); }
    case Lose(k) => LoseSafe(s, k, id);
  }

  lemma SafeParts(s: State, id: string)
    requires ValidId(id) && Safe(s, id)
    ensures Sound(s.objects, id)
  {
  }

  lemma {:induction false} RunSafe(s: State, steps: seq<Step>, id: string)
    requires ValidId(id) && Safe(s, id) && forall i :: 0 <= i < |steps| ==> Spares(steps[i], id)
    ensures Safe(Run(s, steps), id)
    decreases |steps|
  {
    hide Safe, Spares, Do;
    if steps != [] {
      StepSafe(s, steps[0], id);
      RunSafe(Do(s, steps[0]), steps[1..], id);
    }
  }

  /* ---- a threat is carried out ---- */

  function Turns(i: nat, k: nat): seq<Step> {
    if k == 0 then [] else [Turn(i, false)] + Turns(i, k - 1)
  }

  /** The Get that threatens, left alone, deletes the record. */
  lemma {:induction false} GetStrikes(s: State, i: nat, id: string) returns (k: nat)
    requires ValidId(id) && i < |s.gets| && GetThreat(s.objects, s.gets[i], id)
    ensures RecordAt(Run(s, Turns(i, k)).objects, PREFIX, id).None?
    decreases s.gets[i].Fetching?,
              if s.gets[i].Fetching? then |PrefixesFrom(s.gets[i].legacy, s.gets[i].from)| - s.gets[i].n else 0
  {
    hide Run, Key, ParseAction;
    var g := s.gets[i];
    var t := Do(s, Turn(i, false));
    if g.Fetching? {
      var rest := GetStrikes(t, i, id);
      k := rest + 1;
      RunCons(s, Turn(i, false), Turns(i, rest));
    } else {
      k := 1;
      RunCons(s, Turn(i, false), Turns(i, 0));
      RunNone(t);
    }
  }

  /** The Put that threatens writes its record, and the next Get finds no output and deletes it. */
  lemma PutStrikes(s: State, i: nat, id: string) returns (steps: seq<Step>)
    requires ValidId(id) && i < |s.puts| && PutThreat(s.objects, s.puts[i], id)
    ensures RecordAt(Run(s, steps).objects, PREFIX, id).None?
    ensures forall j :: 0 <= j < |steps| ==> !steps[j].Lose?
  {
    hide Run, Key, RecordAt, ParseAction, FormatAction;
    var p, g := s.puts[i], |s.gets|;
    var s1 := Do(s, WriteRecord(i, false));
    var s2 := Do(s1, Ask(id, ""));
    var s3 := Do(s2, Turn(g, false));
    NewRecord(s.objects, id, p.outputId, p.at);
    KeyInjective(PREFIX, "action", id, PREFIX, "output", p.outputId);
    assert PrefixesFrom("", PREFIX) == [PREFIX];
    assert GetThreat(s3.objects, s3.gets[g], id);
    var k := GetStrikes(s3, g, id);
    steps := [WriteRecord(i, false)] + ([Ask(id, "")] + ([Turn(g, false)] + Turns(g, k)));
    RunCons(s, WriteRecord(i, false), [Ask(id, "")] + ([Turn(g, false)] + Turns(g, k)));
    RunCons(s1, Ask(id, ""), [Turn(g, false)] + Turns(g, k));
    RunCons(s2, Turn(g, false), Turns(g, k));
    TurnsLoseNothing(g, k);
  }

  lemma {:induction false} TurnsLoseNothing(i: nat, k: nat)
    ensures forall j :: 0 <= j < |Turns(i, k)| ==> !Turns(i, k)[j].Lose?
  {
    if k > 0 {
      TurnsLoseNothing(i, k - 1);
    }
  }

  /** Once a Put has recorded its action, with the output in place and outputs staying from here
      on, the record survives every continuation of everything else - Gets and Puts under way,
      later ones, tier failures - if and only if nothing under way threatens it. */
  lemma RecordSurvives(s: State, id: string)
    requires ValidId(id) && Sound(s.objects, id)
    ensures (forall steps :: (forall i :: 0 <= i < |steps| ==> Spares(steps[i], id)) ==>
                               RecordAt(Run(s, steps).objects, PREFIX, id).Some?)
            <==> !Threatened(s, id)
  {
    hide Run, RecordAt, GetThreat, PutThreat, Turns;
    if Threatened(s, id) {
      var steps: seq<Step>;
      if i :| 0 <= i < |s.gets| && GetThreat(s.objects, s.gets[i], id) {
        var k := GetStrikes(s, i, id);
        TurnsLoseNothing(i, k);
        steps := Turns(i, k);
      } else {
        var i :| 0 <= i < |s.puts| && PutThreat(s.objects, s.puts[i], id);
        steps := PutStrikes(s, i, id);
      }
      assert forall j :: 0 <= j < |steps| ==> Spares(steps[j], id);
      assert RecordAt(Run(s, steps).objects, PREFIX, id).None?;
    } else {
      forall steps | forall i :: 0 <= i < |steps| ==> Spares(steps[i], id)
        ensures RecordAt(Run(s, steps).objects, PREFIX, id).Some?
      {
        RunSafe(s, steps, id);
      }
    }
  }

  /** The danger is real: from an empty cache, a Put, its output lost, a Get that looks for it in
      vain, another Put of the action. Both Puts are over, and that Get will delete the second's
      record. */
  lemma ThreatReachable(id: string, o: string, p: string, at: Time, text: string) returns (steps: seq<Step>)
    requires ValidId(id) && ValidId(o) && ValidId(p) && o != p && at != ZERO
    ensures var s := Run(State(map[], [], []), steps);
            && Sound(s.objects, id) && RecordAt(s.objects, PREFIX, id).value.outputId == p
            && s.puts == [Over, Over] && Threatened(s, id)
  {
    hide Run, Key, RecordAt, FormatAction;
    var first := [Begin(id, o, at, at, text), WriteBytes(0, false), WriteRecord(0, false)];
    var look := [Lose(OutputKey(PREFIX, o)), Ask(id, ""), Turn(0, false), Turn(0, false)];
    var second := [Begin(id, p, at, at, text), WriteBytes(1, false), WriteRecord(1, false)];
    steps := first + (look + second);
    var s0 := State(map[], [], []);
    var s1 := State(Recorded(map[], id, o, at, at, text, false, false), [Over], []);
    BuildAlone.PutAlone(s0, id, o, at, at, text, false, false);
    assert s0.puts + [Over] == [Over];
    RunConcat(s0, first, look + second);
    var s2 := LookedInVain(s1, id, o, at, text);
    RunConcat(s1, look, second);
    BuildAlone.PutAlone(s2, id, p, at, at, text, false, false);
    assert [Over] + [Over] == [Over, Over];
    SecondSound(s2, id, o, p, at, text);
  }

  /** The first Put's output is lost and a Get has asked for it in the only layout there is. */
  lemma LookedInVain(s: State, id: string, o: string, at: Time, text: string) returns (t: State)
    requires ValidId(id) && ValidId(o) && at != ZERO
    requires s == State(Recorded(map[], id, o, at, at, text, false, false), [Over], [])
    ensures t == Run(s, [Lose(OutputKey(PREFIX, o)), Ask(id, ""), Turn(0, false), Turn(0, false)])
    ensures OutputKey(PREFIX, o) !in t.objects && t.puts == [Over] && |t.gets| == 1
    ensures exists rec: Action :: rec.outputId == o && t.gets[0] == Fetching(id, "", PREFIX, rec, 1)
    ensures forall q :: ValidId(q) ==> OutputKey(PREFIX, q) !in t.objects
  {
    hide Run, Key, RecordAt, FormatAction, ParseAction;
    var a, b, c := Lose(OutputKey(PREFIX, o)), Ask(id, ""), Turn(0, false);
    KeyInjective(PREFIX, "output", o, PREFIX, "action", id);
    var t1 := Do(s, a);
    var rec := FormatAction(o, at);
    assert t1.objects == map[ActionKey(PREFIX, id) := Held(rec, |rec|, at, false)];
    NewRecord(map[], id, o, at);
    assert PrefixesFrom("", PREFIX) == [PREFIX];
    var t2 := Do(t1, b);
    var t3 := Do(t2, c);
    assert t3.gets[0] == Fetching(id, "", PREFIX, RecordAt(t1.objects, PREFIX, id).value, 0);
    t := Do(t3, c);
    assert [a] + ([b] + ([c] + ([c] + []))) == [a, b, c, c];
    RunCons(s, a, [b] + ([c] + ([c] + [])));
    RunCons(t1, b, [c] + ([c] + []));
    RunCons(t2, c, [c] + []);
    RunCons(t3, c, []);
    RunNone(t);
    forall q | ValidId(q) ensures OutputKey(PREFIX, q) !in t.objects {
      KeyInjective(PREFIX, "output", q, PREFIX, "action", id);
    }
  }

  lemma SecondSound(s: State, id: string, o: string, p: string, at: Time, text: string)
    requires ValidId(id) && ValidId(o) && ValidId(p) && o != p && at != ZERO
    requires OutputKey(PREFIX, o) !in s.objects && OutputKey(PREFIX, p) !in s.objects && |s.gets| == 1
    requires exists rec: Action :: rec.outputId == o && s.gets[0] == Fetching(id, "", PREFIX, rec, 1)
    ensures var t := s.(objects := Recorded(s.objects, id, p, at, at, text, false, false), puts := s.puts + [Over]);
            && Sound(t.objects, id) && RecordAt(t.objects, PREFIX, id).value.outputId == p && Threatened(t, id)
  {
    hide Key, RecordAt, FormatAction, ParseAction;
    var t := Recorded(s.objects, id, p, at, at, text, false, false);
    KeyInjective(PREFIX, "output", p, PREFIX, "action", id);
    KeyInjective(PREFIX, "output", o, PREFIX, "action", id);
    KeyInjective(PREFIX, "output", o, PREFIX, "output", p);
    NewRecord(s.objects[OutputKey(PREFIX, p) := Held(text, |text|, at, true)], id, p, at);
    assert PrefixesFrom("", PREFIX) == [PREFIX];
    assert GetThreat(t, s.gets[0], id);
  }
}
