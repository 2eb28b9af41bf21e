/** Any number of build-cache Puts and Gets at once, a step for every tier call, each cut off
    anywhere: a record never names bytes that are not there, and when a Get beside a Put can
    cost the Put its record (frontend/gobuild/gobuild.go). */
module CrashOrder {
  import opened Tiers
  import opened Int64
  import opened ActionRecord
  import opened BuildCache

  /** Where one Put is. */
  datatype Putting =
    | Begun(id: string, outputId: string, at: Time, text: string)
    | BytesIn(id: string, outputId: string, at: Time)
    | Over

  /** Where one Get is: asking a layout for the record, deleting one it could not use, asking the
      layouts for the output, deleting the record whose output is nowhere. */
  datatype Getting =
    | Asking(id: string, legacy: string, n: nat)
    | Discarding(id: string, legacy: string, n: nat)
    | Fetching(id: string, legacy: string, from: string, rec: Action, n: nat)
    | Dropping(id: string, from: string)
    | Answered(hit: Option<Hit>)

  datatype State = State(objects: Objects, puts: seq<Putting>, gets: seq<Getting>)

  /** fails: the tier call the step makes fails. */
  datatype Step =
    | Begin(id: string, outputId: string, modTime: Time, now: Time, text: string)
    | WriteBytes(i: nat, fails: bool)
    | WriteRecord(i: nat, fails: bool)
    | Ask(id: string, legacy: string)
    | Turn(i: nat, fails: bool)
    | Lose(k: string)

  predicate IsOutput(k: string, p: string, o: string) {
    ValidId(o) && k == OutputKey(p, o)
  }

  /** Put and Get check their ids before they touch the tier. */
  predicate PutValid(p: Putting) {
    p.Over? || (ValidId(p.id) && ValidId(p.outputId))
  }

  predicate GetValid(g: Getting) {
    match g
    case Asking(id, _, _) => ValidId(id)
    case Discarding(id, legacy, n) => ValidId(id) && n < |Prefixes(legacy)|
    case Fetching(id, _, _, rec, _) => ValidId(id) && ValidId(rec.outputId)
    case Dropping(id, _) => ValidId(id)
    case Answered(_) => true
  }

  /* ---- steps ---- */

  function BytesWritten(s: State, i: nat, fails: bool): State
    requires i < |s.puts| && s.puts[i].Begun? && PutValid(s.puts[i])
  {
    var p := s.puts[i];
    var k := OutputKey(PREFIX, p.outputId);
    if fails then s.(puts := s.puts[i := Over])
    else if k in s.objects then s.(puts := s.puts[i := BytesIn(p.id, p.outputId, p.at)])
    else s.(objects := s.objects[k := Held(p.text, |p.text|, p.at, true)],
            puts := s.puts[i := BytesIn(p.id, p.outputId, p.at)])
  }

  function RecordWritten(s: State, i: nat, fails: bool): State
    requires i < |s.puts| && s.puts[i].BytesIn? && PutValid(s.puts[i])
  {
    var p := s.puts[i];
    var rec := FormatAction(p.outputId, p.at);
    if fails then s.(puts := s.puts[i := Over])
    else s.(objects := s.objects[ActionKey(PREFIX, p.id) := Held(rec, |rec|, p.at, false)], puts := s.puts[i := Over])
  }

  function With(s: State, i: nat, g: Getting): State
    requires i < |s.gets|
  {
    s.(gets := s.gets[i := g])
  }

  function Without(t: Objects, k: string, fails: bool): Objects {
    if fails then t else t - {k}
  }

  /** One tier call of one Get. */
  function Turned(s: State, i: nat, fails: bool): State
    requires i < |s.gets| && GetValid(s.gets[i])
  {
    match s.gets[i]
    case Asking(id, legacy, n) =>
      var ps := Prefixes(legacy);
      if n >= |ps| || fails then With(s, i, Answered(None))
      else if ActionKey(ps[n], id) !in s.objects then With(s, i, Asking(id, legacy, n + 1))
      else (match RecordAt(s.objects, ps[n], id)
            case None => With(s, i, Discarding(id, legacy, n))
            case Some(rec) => With(s, i, Fetching(id, legacy, ps[n], rec, 0)))
    case Discarding(id, legacy, n) =>
      With(s, i, Asking(id, legacy, n + 1)).(objects := Without(s.objects, ActionKey(Prefixes(legacy)[n], id), fails))
    case Fetching(id, legacy, from, rec, n) =>
      var qs := PrefixesFrom(legacy, from);
      if n >= |qs| then With(s, i, Dropping(id, from))
      else if fails then With(s, i, Answered(None))
      else
        var k := OutputKey(qs[n], rec.outputId);
        if k in s.objects
        then With(s, i, Answered(Some(Hit(rec.outputId, Some(s.objects[k].text), s.objects[k].size, rec.modTime))))
        else With(s, i, Fetching(id, legacy, from, rec, n + 1))
    case Dropping(id, from) =>
      With(s, i, Answered(None)).(objects := Without(s.objects, ActionKey(from, id), fails))
    case Answered(_) => s
  }

  /** One step of anyone; a step that cannot be taken changes nothing. Being cut off is taking no more. */
  function Do(s: State, step: Step): State {
    match step
    case Begin(id, o, m, now, text) =>
      s.(puts := s.puts + [if ValidId(id) && ValidId(o) then Begun(id, o, if m == ZERO then now else m, text)
          else Over])
    case WriteBytes(i, fails) =>
      if i < |s.puts| && s.puts[i].Begun? && PutValid(s.puts[i]) then BytesWritten(s, i, fails) else s
    case WriteRecord(i, fails) =>
      if i < |s.puts| && s.puts[i].BytesIn? && PutValid(s.puts[i]) then RecordWritten(s, i, fails) else s
    case Ask(id, legacy) => s.(gets := s.gets + [if ValidId(id) then Asking(id, legacy, 0) else Answered(None)])
    case Turn(i, fails) => if i < |s.gets| && GetValid(s.gets[i]) then Turned(s, i, fails) else s
    case Lose(k) => s.(objects := s.objects - {k})
  }

  function Run(s: State, steps: seq<Step>): State
    decreases |steps|
  {
    if steps == [] then s else Run(Do(s, steps[0]), steps[1..])
  }

  lemma RunCons(s: State, step: Step, rest: seq<Step>)
    ensures Run(s, [step] + rest) == Run(Do(s, step), rest)
  {
    assert ([step] + rest)[1..] == rest;
  }

  lemma {:induction false} RunConcat(s: State, a: seq<Step>, b: seq<Step>)
    ensures Run(s, a + b) == Run(Run(s, a), b)
    decreases |a|
  {
    hide Do;
    if a == [] {
      assert a + b == b;
    } else {
      RunConcat(Do(s, a[0]), a[1..], b);
      assert (a + b)[1..] == a[1..] + b;
    }
  }

  lemma RunNone(s: State)
    ensures Run(s, []) == s
  {
  }

  /* ---- every record is backed ---- */

  ghost predicate Right(s: State) {
    && (forall id, a :: ValidId(id) && RecordAt(s.objects, PREFIX, id) == Some(a) ==>
        OutputKey(PREFIX, a.outputId) in s.objects)
    && (forall i :: 0 <= i < |s.puts| ==> PutRight(s.objects, s.puts[i]))
  }

  predicate PutRight(t: Objects, p: Putting) {
    PutValid(p) && (p.BytesIn? ==> OutputKey(PREFIX, p.outputId) in t)
  }

  /** A tier that may lose anything but outputs of the natural layout. */
  ghost predicate Keeps(step: Step) {
    step.Lose? ==> forall o :: !IsOutput(step.k, PREFIX, o)
  }

  /** Records lost, outputs kept. */
  lemma ShrinkRight(s: State, t: State)
    requires Right(s) && t.puts == s.puts
    requires forall k :: k in t.objects ==> k in s.objects && t.objects[k] == s.objects[k]
    requires forall k, o :: IsOutput(k, PREFIX, o) && k in s.objects ==> k in t.objects
    ensures Right(t)
  {
    forall id, a | ValidId(id) && RecordAt(t.objects, PREFIX, id) == Some(a)
        ensures OutputKey(PREFIX, a.outputId) in t.objects {
      assert RecordAt(s.objects, PREFIX, id) == Some(a);
      assert IsOutput(OutputKey(PREFIX, a.outputId), PREFIX, a.outputId);
    }
    forall i | 0 <= i < |s.puts| ensures PutRight(t.objects, s.puts[i]) {
      if s.puts[i].BytesIn? {
        assert IsOutput(OutputKey(PREFIX, s.puts[i].outputId), PREFIX, s.puts[i].outputId);
      }
    }
  }

  /** A Get deletes records of its action at most. */
  lemma TurnShape(s: State, i: nat, fails: bool)
    requires i < |s.gets| && GetValid(s.gets[i])
    ensures var t, g := Turned(s, i, fails), s.gets[i];
            && t.puts == s.puts && |t.gets| == |s.gets| && t.gets == s.gets[i := t.gets[i]]
            && t.objects ==
               if fails then s.objects
               else if g.Discarding? then s.objects - {ActionKey(Prefixes(g.legacy)[g.n], g.id)}
               else if g.Dropping? then s.objects - {ActionKey(g.from, g.id)}
               else s.objects
  {
    hide RecordAt, Key, Prefixes, PrefixesFrom;
  }

  lemma TurnRight(s: State, i: nat, fails: bool)
    requires Right(s) && i < |s.gets| && GetValid(s.gets[i])
    ensures Right(Turned(s, i, fails))
  {
    hide RecordAt, Right, Turned, Key, Prefixes;
    var t, g := Turned(s, i, fails), s.gets[i];
    TurnShape(s, i, fails);
    forall k, o | IsOutput(k, PREFIX, o) && k in s.objects ensures k in t.objects {
      if g.Discarding? {
        KeyInjective(PREFIX, "output", o, Prefixes(g.legacy)[g.n], "action", g.id);
      } else if g.Dropping? {
        KeyInjective(PREFIX, "output", o, g.from, "action", g.id);
      }
    }
    ShrinkRight(s, t);
  }

  lemma BytesRight(s: State, i: nat, fails: bool)
    requires Right(s) && i < |s.puts| && s.puts[i].Begun? && PutValid(s.puts[i])
    ensures Right(BytesWritten(s, i, fails))
  {
    hide Key, ParseAction;
    var s' := BytesWritten(s, i, fails);
    var o := s.puts[i].outputId;
    forall id, a | ValidId(id) && RecordAt(s'.objects, PREFIX, id) == Some(a)
        ensures OutputKey(PREFIX, a.outputId) in s'.objects {
      KeyInjective(PREFIX, "output", o, PREFIX, "action", id);
      assert RecordAt(s.objects, PREFIX, id) == Some(a);
    }
    forall j | 0 <= j < |s'.puts| ensures PutRight(s'.objects, s'.puts[j]) {
      assert PutRight(s.objects, s.puts[j]);
    }
  }

  lemma RecordRight(s: State, i: nat, fails: bool)
    requires Right(s) && i < |s.puts| && s.puts[i].BytesIn? && PutValid(s.puts[i])
    ensures Right(RecordWritten(s, i, fails))
  {
    hide Key, ParseAction, FormatAction, UnixNano, Unix, Quo, Rem;
    var s' := RecordWritten(s, i, fails);
    var p := s.puts[i];
    assert PutRight(s.objects, p);
    var rec := FormatAction(p.outputId, p.at);
    ReadsBack(p.outputId, p.at, "");
    assert rec + "" == rec;
    forall id, a | ValidId(id) && RecordAt(s'.objects, PREFIX, id) == Some(a)
        ensures OutputKey(PREFIX, a.outputId) in s'.objects {
      KeyInjective(PREFIX, "action", p.id, PREFIX, "action", id);
      if id != p.id {
        assert RecordAt(s.objects, PREFIX, id) == Some(a);
      }
    }
    forall j | 0 <= j < |s'.puts| ensures PutRight(s'.objects, s'.puts[j]) {
      assert PutRight(s.objects, s.puts[j]);
    }
  }

  lemma StepRight(s: State, step: Step)
    requires Right(s) && Keeps(step)
    ensures Right(Do(s, step))
  {
    hide Turned, BytesWritten, RecordWritten, RecordAt, Key;
    match step
    case WriteBytes(i, fails) =>
      if i < |s.puts| && s.puts[i].Begun? && PutValid(s.puts[i]) { BytesRight(s, i, fails); }
    case WriteRecord(i, fails) =>
      if i < |s.puts| && s.puts[i].BytesIn? && PutValid(s.puts[i]) { RecordRight(s, i, fails); }
    case Turn(i, fails) =>
      if i < |s.gets| && GetValid(s.gets[i]) { TurnRight(s, i, fails); }
    case Lose(k) => ShrinkRight(s, Do(s, step));
    case _ =>
  }

  /** In every run, interleaved and cut off anywhere, each action record names an output that is present. */
  lemma {:induction false} RecordsBacked(s: State, steps: seq<Step>)
    requires Right(s) && forall i :: 0 <= i < |steps| ==> Keeps(steps[i])
    ensures Right(Run(s, steps))
    decreases |steps|
  {
    hide Right, Keeps, Do;
    if steps != [] {
      StepRight(s, steps[0]);
      RecordsBacked(Do(s, steps[0]), steps[1..]);
    }
  }

  /** So in such a run an action with a usable record in the natural layout is a hit, with bytes. */
  lemma RecordedMeansHit(s: State, legacy: string, id: string)
    requires Right(s) && ValidId(id) && RecordAt(s.objects, PREFIX, id).Some?
    ensures var h := Get(s.objects, legacy, id, (o, m) => true, {}).hit;
            h.Some? && h.value.bytes.Some? && h.value.outputId == RecordAt(s.objects, PREFIX, id).value.outputId
  {
    var rec := RecordAt(s.objects, PREFIX, id).value;
    assert Prefixes(legacy)[0] == PREFIX;
    assert Followed(s.objects, Prefixes(legacy), id) == Some(PREFIX);
    assert PrefixesFrom(legacy, PREFIX)[0] == PREFIX;
  }

  /** A Put that finished is what the next Get returns: the id, the bytes stored under it, the instant. */
  lemma PutThenGet(t: Objects, legacy: string, id: string, outputId: string, modTime: Time, now: Time, text: string)
    requires ValidId(id) && ValidId(outputId)
    requires var at := if modTime == ZERO then now else modTime; Normal(at) && INT64_MIN <= Nanos(at) <= INT64_MAX
    ensures var at := if modTime == ZERO then now else modTime;
            var t' := Recorded(t, id, outputId, modTime, now, text, false, false);
            var h := Get(t', legacy, id, (o, m) => true, {}).hit;
            && h.Some? && h.value.outputId == outputId && h.value.modTime == at
            && h.value.bytes ==
               Some(if OutputKey(PREFIX, outputId) in t then t[OutputKey(PREFIX, outputId)].text else text)
            && h.value.size == (if OutputKey(PREFIX, outputId) in t then t[OutputKey(PREFIX, outputId)].size
                else |text|)
  {
    hide Key, ParseAction, FormatAction;
    var at := if modTime == ZERO then now else modTime;
    var t' := Recorded(t, id, outputId, modTime, now, text, false, false);
    RoundTrip(outputId, at);
    KeyInjective(PREFIX, "action", id, PREFIX, "output", outputId);
    assert RecordAt(t', PREFIX, id) == Some(Action(outputId, at));
    assert Prefixes(legacy)[0] == PREFIX;
    assert Followed(t', Prefixes(legacy), id) == Some(PREFIX);
    assert PrefixesFrom(legacy, PREFIX)[0] == PREFIX;
    assert Located(t', PrefixesFrom(legacy, PREFIX), outputId) == Some(PREFIX);
  }
}
