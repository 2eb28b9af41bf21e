/** Any number of Gets, Puts and late uploads on one chain, interleaved step by step, over tiers
    that fail, evict and forget as they like (engine/chain/chain.go). */
module ChainRuns {
  import opened Tiers
  import opened TierChain

  /** Where a buffered body is: in memory or in a temp file. */
  datatype Buffer = Memory(body: Body) | Spill(path: nat)

  /** Where one Get or Put is. Reading has opened a temp file it has not unlinked yet. */
  datatype Call =
    | AtFront(key: string)
    | AtGroup(key: string)
    | Waiting(key: string, flight: nat)
    | Reading(key: string, flight: nat, found: Object)
    | Hit(key: string, found: Object)
    | Writing(key: string, buffer: Buffer, meta: Meta, i: nat)
    | Done(key: string)
    | Failed(key: string, error: Error)

  /** One run of the function the singleflight group shares among callers. */
  datatype Flight =
    | Asking(key: string, i: nat)
    | Copying(key: string, buffer: Buffer, meta: Meta, j: int)
    | Landed(key: string, buffer: Buffer, meta: Meta)
    | Lost(key: string, error: Error)

  datatype State = State(
    tiers: seq<Held>, temps: map<nat, Body>, nextTemp: nat,
    calls: seq<Call>, flights: seq<Flight>, group: map<string, nat>, uploads: seq<Upload>)

  datatype Step =
    | StartGet(key: string)
    | StartPut(key: string, body: Body, meta: Meta)
    | ReadFront(c: nat, down: bool)
    | Join(c: nat)
    | Ask(f: nat, down: bool)
    | Copy(f: nat, opens: bool, fault: Option<Error>)
    | Receive(c: nat, opens: bool)
    | Unlink(c: nat)
    | Write(c: nat, opens: bool, fault: Option<Error>, behind: bool, taken: bool)
    | Flush(u: nat, fault: Option<Error>)
    | Forget(tier: nat, key: string)

  /* ---- steps ---- */

  /** Opening a buffered body: a temp file may be gone. */
  function Opened(s: State, b: Buffer, opens: bool): Option<Body> {
    match b
    case Memory(body) => Some(body)
    case Spill(path) => if opens && path in s.temps then Some(s.temps[path]) else None
  }

  function WithCall(s: State, c: nat, call: Call): State
    requires c < |s.calls|
  {
    s.(calls := s.calls[c := call])
  }

  function WithFlight(s: State, f: nat, flight: Flight): State
    requires f < |s.flights|
  {
    s.(flights := s.flights[f := flight])
  }

  /** A flight that is over leaves the group: the next caller starts a new one. */
  function Ended(s: State, f: nat, flight: Flight): State
    requires f < |s.flights|
  {
    s.(flights := s.flights[f := flight], group := s.group - {flight.key})
  }

  /** A body goes to memory when its size is known and small, else to a new temp file. */
  function Spilled(s: State, body: Body): State {
    s.(temps := s.temps[s.nextTemp := body], nextTemp := s.nextTemp + 1)
  }

  function Unspilled(s: State, b: Buffer): State {
    if b.Spill? then s.(temps := s.temps - {b.path}) else s
  }

  function Begin(s: State, key: string, body: Body, m: Meta): State {
    if |s.tiers| == 0 then s.(calls := s.calls + [Failed(key, Broken)])
    else if |s.tiers| == 1 then s.(calls := s.calls + [Writing(key, Memory(body), m, 0)])
    else
      var kept := Buffered(body, m);
      var meta := m.(size := |kept|);
      if Small(m) then s.(calls := s.calls + [Writing(key, Memory(kept), meta, 0)])
      else Spilled(s, kept).(calls := s.calls + [Writing(key, Spill(s.nextTemp), meta, 0)])
  }

  function Front(s: State, c: nat, down: bool): State
    requires c < |s.calls| && s.calls[c].AtFront?
  {
    var key := s.calls[c].key;
    if |s.tiers| > 0 && !down && key in s.tiers[0] then WithCall(s, c, Hit(key, s.tiers[0][key]))
    else WithCall(s, c, AtGroup(key))
  }

  function Joined(s: State, c: nat): State
    requires c < |s.calls| && s.calls[c].AtGroup?
  {
    var key := s.calls[c].key;
    if key in s.group then WithCall(s, c, Waiting(key, s.group[key]))
    else
      WithCall(s, c, Waiting(key, |s.flights|))
        .(flights := s.flights + [Asking(key, 1)], group := s.group[key := |s.flights|])
  }

  function Asked(s: State, f: nat, down: bool): State
    requires f < |s.flights| && s.flights[f].Asking?
  {
    var key, i := s.flights[f].key, s.flights[f].i;
    if i >= |s.tiers| then Ended(s, f, Lost(key, NotFound))
    else if down then Ended(s, f, Lost(key, Broken))
    else if key !in s.tiers[i] then WithFlight(s, f, Asking(key, i + 1))
    else
      var o := s.tiers[i][key];
      if Small(o.meta) then WithFlight(s, f, Copying(key, Memory(o.body), o.meta, i - 1))
      else WithFlight(Spilled(s, o.body), f, Copying(key, Spill(s.nextTemp), o.meta.(size := |o.body|), i - 1))
  }

  function Copied(s: State, f: nat, opens: bool, fault: Option<Error>): State
    requires f < |s.flights| && s.flights[f].Copying?
  {
    var fl := s.flights[f];
    if 0 <= fl.j < |s.tiers| && Opened(s, fl.buffer, opens).Some? then
      WithFlight(s, f, fl.(j := fl.j - 1))
        .(tiers := s.tiers[fl.j := After(s.tiers[fl.j], fl.key, Opened(s, fl.buffer, opens).value, fl.meta, fault)])
    else Ended(s, f, Landed(fl.key, fl.buffer, fl.meta))
  }

  /** A caller whose flight is over takes the result: the body, or the temp file it opens. */
  function Received(s: State, c: nat, opens: bool): State
    requires c < |s.calls| && s.calls[c].Waiting? && s.calls[c].flight < |s.flights|
  {
    var key, f := s.calls[c].key, s.calls[c].flight;
    match s.flights[f]
    case Landed(_, Memory(body), meta) => WithCall(s, c, Hit(key, Object(body, meta)))
    case Landed(_, Spill(path), meta) =>
      WithCall(s, c, if opens && path in s.temps then Reading(key, f, Object(s.temps[path], meta))
          else Failed(key, Broken))
    case Lost(_, e) => WithCall(s, c, Failed(key, e))
    case _ => s
  }

  /** A caller that opened the temp file unlinks its name; others may have done so before it. */
  function Unlinked(s: State, c: nat): State
    requires CanUnlink(s, c)
  {
    WithCall(Unspilled(s, s.flights[s.calls[c].flight].buffer), c, Hit(s.calls[c].key, s.calls[c].found))
  }

  predicate CanUnlink(s: State, c: nat) {
    c < |s.calls| && s.calls[c].Reading? && s.calls[c].flight < |s.flights| && s.flights[s.calls[c].flight].Landed?
  }

  /** A Put's next tier: the first decides, the rest are written inline or handed over. */
  function Written(s: State, c: nat, opens: bool, fault: Option<Error>, behind: bool, taken: bool): State
    requires c < |s.calls| && s.calls[c].Writing?
  {
    var w := s.calls[c];
    var body := Opened(s, w.buffer, opens);
    if w.i >= |s.tiers| then WithCall(Unspilled(s, w.buffer), c, Done(w.key))
    else if w.i == 0 then
      if body.None? then WithCall(Unspilled(s, w.buffer), c, Failed(w.key, Broken))
      else
        var out := TierPut(s.tiers[0], w.key, body.value, w.meta, fault);
        if out.1.Err? && (|s.tiers| == 1 || out.1.error != Exists) then
          WithCall(Unspilled(s, w.buffer), c, Failed(w.key, out.1.error))
        else WithCall(s, c, w.(i := 1)).(tiers := s.tiers[0 := out.0])
    else if body.None? then WithCall(s, c, w.(i := w.i + 1))
    else if behind then
      var next := WithCall(s, c, w.(i := w.i + 1));
      if taken then next.(uploads := s.uploads + [Upload(w.i, w.key, body.value, w.meta)]) else next
    else WithCall(s, c, w.(i := w.i + 1))
         .(tiers := s.tiers[w.i := After(s.tiers[w.i], w.key, body.value, w.meta, fault)])
  }

  function Uploaded(s: State, u: nat, fault: Option<Error>): State
    requires u < |s.uploads|
  {
    var up := s.uploads[u];
    var rest := s.(uploads := s.uploads[..u] + s.uploads[u + 1..]);
    if up.tier < |s.tiers| then
      rest.(tiers := s.tiers[up.tier := After(s.tiers[up.tier], up.key, up.body, up.meta, fault)])
    else rest
  }

  /** One step of anyone; a step that cannot be taken changes nothing. */
  function Next(s: State, step: Step): State {
    match step
    case StartGet(key) => s.(calls := s.calls + [AtFront(key)])
    case StartPut(key, body, meta) => Begin(s, key, body, meta)
    case ReadFront(c, down) => if c < |s.calls| && s.calls[c].AtFront? then Front(s, c, down) else s
    case Join(c) => if c < |s.calls| && s.calls[c].AtGroup? then Joined(s, c) else s
    case Ask(f, down) => if f < |s.flights| && s.flights[f].Asking? then Asked(s, f, down) else s
    case Copy(f, opens, fault) => if f < |s.flights| && s.flights[f].Copying? then Copied(s, f, opens, fault) else s
    case Receive(c, opens) =>
      if c < |s.calls| && s.calls[c].Waiting? && s.calls[c].flight < |s.flights| then Received(s, c, opens) else s
    case Unlink(c) => if CanUnlink(s, c) then Unlinked(s, c) else s
    case Write(c, opens, fault, behind, taken) =>
      if c < |s.calls| && s.calls[c].Writing? then Written(s, c, opens, fault, behind, taken) else s
    case Flush(u, fault) => if u < |s.uploads| then Uploaded(s, u, fault) else s
    case Forget(tier, key) =>
      if tier < |s.tiers| then s.(tiers := s.tiers[tier := s.tiers[tier] - {key}]) else s
  }

  function Run(s: State, steps: seq<Step>): State
    decreases |steps|
  {
    if steps == [] then s else Run(Next(s, steps[0]), steps[1..])
  }

  function Start(tiers: seq<Held>): State {
    State(tiers, map[], 0, [], [], map[], [])
  }

  lemma RunNone(s: State)
    ensures Run(s, []) == s
  {
  }

  lemma RunCons(s: State, step: Step, rest: seq<Step>)
    ensures Run(s, [step] + rest) == Run(Next(s, step), rest)
  {
    assert ([step] + rest)[1..] == rest;
  }

  lemma {:induction false} RunConcat(s: State, a: seq<Step>, b: seq<Step>)
    ensures Run(s, a + b) == Run(Run(s, a), b)
    decreases |a|
  {
    hide Next;
    if a == [] {
      assert a + b == b;
    } else {
      RunConcat(Next(s, a[0]), a[1..], b);
      assert (a + b)[1..] == a[1..] + b;
    }
  }

  /* ---- every hit carries the key's content ---- */

  /** The keys whose name decides their body, and that body. */
  type Contents = map<string, Body>

  predicate Right(want: Contents, key: string, body: Body) {
    key in want ==> body == want[key]
  }

  predicate TierRight(want: Contents, t: Held) {
    forall k :: k in t ==> Right(want, k, t[k].body)
  }

  /** A temp file that is still there holds the key's content, and its name is spent for good. */
  predicate BufferRight(want: Contents, temps: map<nat, Body>, nextTemp: nat, key: string, b: Buffer) {
    match b
    case Memory(body) => Right(want, key, body)
    case Spill(path) => path < nextTemp && (path in temps ==> Right(want, key, temps[path]))
  }

  predicate CallRight(want: Contents, temps: map<nat, Body>, nextTemp: nat, flights: seq<Flight>, c: Call) {
    match c
    case Waiting(key, f) => f < |flights| && flights[f].key == key
    case Writing(key, buffer, _, _) => BufferRight(want, temps, nextTemp, key, buffer)
    case Reading(key, f, o) => f < |flights| && flights[f].key == key && flights[f].Landed?
        && Right(want, key, o.body)
    case Hit(key, o) => Right(want, key, o.body)
    case _ => true
  }

  predicate FlightRight(want: Contents, temps: map<nat, Body>, nextTemp: nat, f: Flight) {
    match f
    case Copying(key, buffer, _, _) => BufferRight(want, temps, nextTemp, key, buffer)
    case Landed(key, buffer, _) => BufferRight(want, temps, nextTemp, key, buffer)
    case _ => true
  }

  predicate Active(f: Flight) {
    f.Asking? || f.Copying?
  }

  ghost predicate TiersRight(want: Contents, s: State) {
    forall i :: 0 <= i < |s.tiers| ==> TierRight(want, s.tiers[i])
  }

  ghost predicate CallsRight(want: Contents, s: State) {
    forall c :: 0 <= c < |s.calls| ==> CallRight(want, s.temps, s.nextTemp, s.flights, s.calls[c])
  }

  ghost predicate FlightsRight(want: Contents, s: State) {
    forall f :: 0 <= f < |s.flights| ==> FlightRight(want, s.temps, s.nextTemp, s.flights[f])
  }

  ghost predicate UploadsRight(want: Contents, s: State) {
    forall u :: 0 <= u < |s.uploads| ==> Right(want, s.uploads[u].key, s.uploads[u].body)
  }

  ghost predicate TempsSpent(s: State) {
    forall p :: p in s.temps ==> p < s.nextTemp
  }

  ghost predicate Inv(want: Contents, s: State) {
    TiersRight(want, s) && CallsRight(want, s) && FlightsRight(want, s) && UploadsRight(want, s) && TempsSpent(s)
        && Grouped(s)
  }

  /** The group knows exactly the flights that are not over. */
  ghost predicate Grouped(s: State) {
    && (forall f :: 0 <= f < |s.flights| && Active(s.flights[f]) ==>
        s.flights[f].key in s.group && s.group[s.flights[f].key] == f)
    && (forall k :: k in s.group ==>
          s.group[k] < |s.flights| && s.flights[s.group[k]].key == k && Active(s.flights[s.group[k]]))
  }

  /** A Put that carries its key's content and does not declare a small size two or more short. */
  predicate Honest(want: Contents, step: Step) {
    step.StartPut? && step.key in want ==>
      && step.body == want[step.key]
      && !(0 < step.meta.size <= THRESHOLD && |step.body| > step.meta.size + 1)
  }

  /** What no step undoes: names of temp files are never used again, files never change, a
      flight keeps its key and, once landed, its result. */
  ghost predicate Later(s: State, t: State) {
    && s.nextTemp <= t.nextTemp
    && (forall p :: p in t.temps && p < s.nextTemp ==> p in s.temps && t.temps[p] == s.temps[p])
    && |s.flights| <= |t.flights|
    && (forall f :: 0 <= f < |s.flights| ==>
          t.flights[f].key == s.flights[f].key && (s.flights[f].Landed? ==> t.flights[f] == s.flights[f]))
  }

  lemma OpenedRight(want: Contents, s: State, key: string, b: Buffer, opens: bool)
    requires BufferRight(want, s.temps, s.nextTemp, key, b) && Opened(s, b, opens).Some?
    ensures Right(want, key, Opened(s, b, opens).value)
  {
  }

  lemma AfterRight(want: Contents, s: State, i: nat, key: string, body: Body, m: Meta, fault: Option<Error>)
    requires i < |s.tiers| && Right(want, key, body) && TiersRight(want, s)
    ensures TiersRight(want, s.(tiers := s.tiers[i := After(s.tiers[i], key, body, m, fault)]))
  {
  }

  /** All calls but the c-th are as they were, and that one is right. */
  lemma CallsKept(want: Contents, s: State, t: State, c: nat)
    requires CallsRight(want, s) && Later(s, t) && |s.calls| <= |t.calls|
    requires forall d :: 0 <= d < |t.calls| && d != c ==> d < |s.calls| && t.calls[d] == s.calls[d]
    requires c < |t.calls| ==> CallRight(want, t.temps, t.nextTemp, t.flights, t.calls[c])
    ensures CallsRight(want, t)
  {
    forall d | 0 <= d < |t.calls| && d != c ensures CallRight(want, t.temps, t.nextTemp, t.flights, t.calls[d]) {
      var call := t.calls[d];
      assert CallRight(want, s.temps, s.nextTemp, s.flights, s.calls[d]);
    }
  }

  lemma FlightsKept(want: Contents, s: State, t: State, f: nat)
    requires FlightsRight(want, s) && Later(s, t)
    requires forall g :: 0 <= g < |t.flights| && g != f ==> g < |s.flights| && t.flights[g] == s.flights[g]
    requires f < |t.flights| ==> FlightRight(want, t.temps, t.nextTemp, t.flights[f])
    ensures FlightsRight(want, t)
  {
    forall g | 0 <= g < |t.flights| && g != f ensures FlightRight(want, t.temps, t.nextTemp, t.flights[g]) {
      var flight := t.flights[g];
      assert FlightRight(want, s.temps, s.nextTemp, s.flights[g]);
    }
  }

  lemma EndGrouped(s: State, f: nat, flight: Flight)
    requires Grouped(s) && f < |s.flights| && Active(s.flights[f]) && flight.key == s.flights[f].key
               && !Active(flight)
    ensures Grouped(Ended(s, f, flight))
  {
  }

  lemma GoOnGrouped(s: State, f: nat, flight: Flight)
    requires Grouped(s) && f < |s.flights| && Active(s.flights[f]) && flight.key == s.flights[f].key && Active(flight)
    ensures Grouped(WithFlight(s, f, flight))
  {
  }

  lemma JoinGrouped(s: State, c: nat)
    requires Grouped(s) && c < |s.calls| && s.calls[c].AtGroup?
    ensures Grouped(Joined(s, c))
  {
  }

  lemma SameBodies(want: Contents, s: State, t: State)
    requires TiersRight(want, s) && UploadsRight(want, s) && t.tiers == s.tiers && t.uploads == s.uploads
    ensures TiersRight(want, t) && UploadsRight(want, t)
  {
  }

  lemma SameGrouped(s: State, t: State)
    requires Grouped(s) && t.flights == s.flights && t.group == s.group
    ensures Grouped(t)
  {
  }

  lemma BeginKeeps(want: Contents, s: State, key: string, body: Body, m: Meta)
    requires Inv(want, s) && (key in want ==> body == want[key] && Buffered(body, m) == body)
    ensures Inv(want, Begin(s, key, body, m))
  {
    hide Grouped, CallsRight, FlightsRight, TiersRight, UploadsRight, Buffered;
    var t := Begin(s, key, body, m);
    SameBodies(want, s, t);
    CallsKept(want, s, t, |s.calls|);
    FlightsKept(want, s, t, |s.flights|);
    SameGrouped(s, t);
  }

  lemma FrontKeeps(want: Contents, s: State, c: nat, down: bool)
    requires Inv(want, s) && c < |s.calls| && s.calls[c].AtFront?
    ensures Inv(want, Front(s, c, down))
  {
    hide Grouped, CallsRight;
    CallsKept(want, s, Front(s, c, down), c);
    SameGrouped(s, Front(s, c, down));
  }

  lemma JoinKeeps(want: Contents, s: State, c: nat)
    requires Inv(want, s) && c < |s.calls| && s.calls[c].AtGroup?
    ensures Inv(want, Joined(s, c))
  {
    hide CallsRight, FlightsRight;
    CallsKept(want, s, Joined(s, c), c);
    FlightsKept(want, s, Joined(s, c), |s.flights|);
    JoinGrouped(s, c);
  }

  lemma AskKeeps(want: Contents, s: State, f: nat, down: bool)
    requires Inv(want, s) && f < |s.flights| && s.flights[f].Asking?
    ensures Inv(want, Asked(s, f, down))
  {
    assert s.flights[f].i < |s.tiers| ==> TierRight(want, s.tiers[s.flights[f].i]);
    hide Grouped, CallsRight, FlightsRight, TiersRight, UploadsRight, Small;
    var t := Asked(s, f, down);
    CallsKept(want, s, t, |s.calls|);
    FlightsKept(want, s, t, f);
    assert TiersRight(want, t) && UploadsRight(want, t) by {
      SameBodies(want, s, t);
    }
    if t.flights[f].Lost? {
      EndGrouped(s, f, t.flights[f]);
    } else {
      GoOnGrouped(s, f, t.flights[f]);
      SameGrouped(WithFlight(s, f, t.flights[f]), t);
    }
  }

  lemma CopyKeeps(want: Contents, s: State, f: nat, opens: bool, fault: Option<Error>)
    requires Inv(want, s) && f < |s.flights| && s.flights[f].Copying?
    ensures Inv(want, Copied(s, f, opens, fault))
  {
    hide Grouped, CallsRight, After;
    var t := Copied(s, f, opens, fault);
    var fl := s.flights[f];
    if 0 <= fl.j < |s.tiers| && Opened(s, fl.buffer, opens).Some? {
      AfterRight(want, s, fl.j, fl.key, Opened(s, fl.buffer, opens).value, fl.meta, fault);
      GoOnGrouped(s, f, t.flights[f]);
      SameGrouped(WithFlight(s, f, t.flights[f]), t);
    } else {
      EndGrouped(s, f, t.flights[f]);
    }
    CallsKept(want, s, t, |s.calls|);
    FlightsKept(want, s, t, f);
  }

  lemma ReceiveKeeps(want: Contents, s: State, c: nat, opens: bool)
    requires Inv(want, s) && c < |s.calls| && s.calls[c].Waiting? && s.calls[c].flight < |s.flights|
    ensures Inv(want, Received(s, c, opens))
  {
    var t, fl := Received(s, c, opens), s.flights[s.calls[c].flight];
    assert CallRight(want, s.temps, s.nextTemp, s.flights, s.calls[c]);
    assert FlightRight(want, s.temps, s.nextTemp, fl);
    hide Grouped, CallsRight, FlightsRight, TiersRight, UploadsRight, Right;
    SameBodies(want, s, t);
    CallsKept(want, s, t, c);
    FlightsKept(want, s, t, |s.flights|);
    SameGrouped(s, t);
  }

  lemma UnlinkKeeps(want: Contents, s: State, c: nat)
    requires Inv(want, s) && CanUnlink(s, c)
    ensures Inv(want, Unlinked(s, c))
  {
    var t := Unlinked(s, c);
    assert CallRight(want, s.temps, s.nextTemp, s.flights, s.calls[c]);
    hide Grouped, CallsRight, FlightsRight, TiersRight, UploadsRight, Right;
    SameBodies(want, s, t);
    CallsKept(want, s, t, c);
    FlightsKept(want, s, t, |s.flights|);
    SameGrouped(s, t);
  }

  lemma WriteBodies(want: Contents, s: State, c: nat, opens: bool, fault: Option<Error>, behind: bool, taken: bool)
    requires Inv(want, s) && c < |s.calls| && s.calls[c].Writing?
    ensures var t := Written(s, c, opens, fault, behind, taken); TiersRight(want, t) && UploadsRight(want, t)
  {
    var w := s.calls[c];
    assert CallRight(want, s.temps, s.nextTemp, s.flights, w);
    hide Grouped, FlightsRight, CallsRight, TierPut, TierRight, Right;
    if w.i < |s.tiers| && Opened(s, w.buffer, opens).Some? {
      OpenedRight(want, s, w.key, w.buffer, opens);
      AfterRight(want, s, w.i, w.key, Opened(s, w.buffer, opens).value, w.meta, fault);
    }
  }

  /** A Put's step touches its own call and at most its own temp file. */
  lemma WriteShape(s: State, c: nat, opens: bool, fault: Option<Error>, behind: bool, taken: bool)
    requires c < |s.calls| && s.calls[c].Writing?
    ensures var t, w := Written(s, c, opens, fault, behind, taken), s.calls[c];
            && t.nextTemp == s.nextTemp && t.flights == s.flights && t.group == s.group
            && (t.temps == s.temps || (w.buffer.Spill? && t.temps == s.temps - {w.buffer.path}))
            && |t.calls| == |s.calls| && t.calls == s.calls[c := t.calls[c]]
            && (t.calls[c].Done? || t.calls[c].Failed? || t.calls[c] == w.(i := w.i + 1))
  {
    WriteCall(s, c, opens, fault, behind, taken);
    hide TierPut, After, Opened;
  }

  lemma WriteCall(s: State, c: nat, opens: bool, fault: Option<Error>, behind: bool, taken: bool)
    requires c < |s.calls| && s.calls[c].Writing?
    ensures var t, w := Written(s, c, opens, fault, behind, taken), s.calls[c];
            && t.calls == s.calls[c := t.calls[c]]
            && (t.calls[c].Done? || t.calls[c].Failed? || t.calls[c] == w.(i := w.i + 1))
  {
    hide TierPut, After, Opened;
  }

  lemma WriteKeeps(want: Contents, s: State, c: nat, opens: bool, fault: Option<Error>, behind: bool, taken: bool)
    requires Inv(want, s) && c < |s.calls| && s.calls[c].Writing?
    ensures Inv(want, Written(s, c, opens, fault, behind, taken))
  {
    WriteBodies(want, s, c, opens, fault, behind, taken);
    var t := Written(s, c, opens, fault, behind, taken);
    assert CallRight(want, s.temps, s.nextTemp, s.flights, s.calls[c]);
    WriteShape(s, c, opens, fault, behind, taken);
    hide Grouped, FlightsRight, CallsRight, TiersRight, UploadsRight, Written, Right;
    CallsKept(want, s, t, c);
    FlightsKept(want, s, t, |s.flights|);
    SameGrouped(s, t);
  }

  lemma FlushKeeps(want: Contents, s: State, u: nat, fault: Option<Error>)
    requires Inv(want, s) && u < |s.uploads|
    ensures Inv(want, Uploaded(s, u, fault))
  {
    hide Grouped, CallsRight, FlightsRight, After;
    var t := Uploaded(s, u, fault);
    var up := s.uploads[u];
    if up.tier < |s.tiers| {
      AfterRight(want, s, up.tier, up.key, up.body, up.meta, fault);
    }
    CallsKept(want, s, t, |s.calls|);
    FlightsKept(want, s, t, |s.flights|);
    SameGrouped(s, t);
  }

  lemma StepKeeps(want: Contents, s: State, step: Step)
    requires Inv(want, s) && Honest(want, step)
    ensures Inv(want, Next(s, step))
  {
    hide Begin, Front, Joined, Asked, Copied, Received, Unlinked, Written, Uploaded, Grouped;
    match step
    case StartGet(key) =>
      SameGrouped(s, Next(s, step));
    case StartPut(key, body, m) =>
      BufferedWhole(body, m);
      BeginKeeps(want, s, key, body, m);
    case ReadFront(c, down) =>
      if c < |s.calls| && s.calls[c].AtFront? { FrontKeeps(want, s, c, down); }
    case Join(c) =>
      if c < |s.calls| && s.calls[c].AtGroup? { JoinKeeps(want, s, c); }
    case Ask(f, down) =>
      if f < |s.flights| && s.flights[f].Asking? { AskKeeps(want, s, f, down); }
    case Copy(f, opens, fault) =>
      if f < |s.flights| && s.flights[f].Copying? { CopyKeeps(want, s, f, opens, fault); }
    case Receive(c, opens) =>
      if c < |s.calls| && s.calls[c].Waiting? && s.calls[c].flight < |s.flights| { ReceiveKeeps(want, s, c, opens); }
    case Unlink(c) =>
      if CanUnlink(s, c) { UnlinkKeeps(want, s, c); }
    case Write(c, opens, fault, behind, taken) =>
      if c < |s.calls| && s.calls[c].Writing? { WriteKeeps(want, s, c, opens, fault, behind, taken); }
    case Flush(u, fault) =>
      if u < |s.uploads| { FlushKeeps(want, s, u, fault); }
    case Forget(tier, key) =>
      SameGrouped(s, Next(s, step));
  }

  lemma {:induction false} RunKeeps(want: Contents, s: State, steps: seq<Step>)
    requires Inv(want, s) && forall i :: 0 <= i < |steps| ==> Honest(want, steps[i])
    ensures Inv(want, Run(s, steps))
    decreases |steps|
  {
    hide Inv, Next, Honest;
    if steps != [] {
      StepKeeps(want, s, steps[0]);
      RunKeeps(want, Next(s, steps[0]), steps[1..]);
    }
  }

  /** In every run from tiers that hold only right bodies, every hit returns the content of its
      key: half-finished copies, failing tiers, late uploads, shared flights, evictions and
      deletes included. */
  lemma HitsCarryContent(want: Contents, tiers: seq<Held>, steps: seq<Step>, c: nat)
    requires forall i :: 0 <= i < |tiers| ==> TierRight(want, tiers[i])
    requires forall i :: 0 <= i < |steps| ==> Honest(want, steps[i])
    requires var s := Run(Start(tiers), steps); c < |s.calls| && s.calls[c].Hit? && s.calls[c].key in want
    ensures var call := Run(Start(tiers), steps).calls[c]; call.found.body == want[call.key]
  {
    hide Run;
    RunKeeps(want, Start(tiers), steps);
    var s := Run(Start(tiers), steps);
    assert CallRight(want, s.temps, s.nextTemp, s.flights, s.calls[c]);
  }

  /** However many callers miss a key at once, one flight at a time looks for it. */
  lemma OneFlightPerKey(tiers: seq<Held>, steps: seq<Step>, f: nat, g: nat)
    requires var s := Run(Start(tiers), steps);
             f < |s.flights| && g < |s.flights| && Active(s.flights[f]) && Active(s.flights[g])
                 && s.flights[f].key == s.flights[g].key
    ensures f == g
  {
    hide Run;
    RunKeeps(map[], Start(tiers), steps);
  }

  /* ---- nearest last ---- */

  /** Reads alone, no forward copy failing. */
  predicate Calm(step: Step) {
    !step.StartPut? && !step.Forget? && (step.Copy? ==> step.fault.None?)
  }

  /** Only Gets are about, and a flight about to copy has the tier behind filled. */
  ghost predicate ReadsOnly(s: State, key: string) {
    && s.uploads == []
    && (forall c :: 0 <= c < |s.calls| ==> !s.calls[c].Writing?)
    && (forall f :: 0 <= f < |s.flights| ==> FlightFilled(s.tiers, key, s.flights[f]))
    && Gapless(s.tiers, key)
  }

  predicate FlightFilled(tiers: seq<Held>, key: string, f: Flight) {
    match f
    case Asking(_, i) => i >= 1
    case Copying(k, _, _, j) => -1 <= j < |tiers| - 1 && (k == key ==> key in tiers[j + 1])
    case _ => true
  }

  lemma CopyReadsOnly(s: State, f: nat, opens: bool, key: string)
    requires ReadsOnly(s, key) && f < |s.flights| && s.flights[f].Copying?
    ensures ReadsOnly(Copied(s, f, opens, None), key)
  {
    assert FlightFilled(s.tiers, key, s.flights[f]);
  }

  lemma StepReadsOnly(s: State, step: Step, key: string)
    requires ReadsOnly(s, key) && Calm(step)
    ensures ReadsOnly(Next(s, step), key)
  {
    if step.Copy? && step.f < |s.flights| && s.flights[step.f].Copying? {
      hide Copied, ReadsOnly;
      CopyReadsOnly(s, step.f, step.opens, key);
    } else if step.Ask? {
      hide Gapless, Small;
    } else {
      hide Written, Uploaded, Begin, Asked, Copied, Gapless;
    }
  }

  lemma {:induction false} RunReadsOnly(s: State, steps: seq<Step>, key: string)
    requires ReadsOnly(s, key) && forall i :: 0 <= i < |steps| ==> Calm(steps[i])
    ensures ReadsOnly(Run(s, steps), key)
    decreases |steps|
  {
    hide ReadsOnly, Next, Calm;
    if steps != [] {
      StepReadsOnly(s, steps[0], key);
      RunReadsOnly(Next(s, steps[0]), steps[1..], key);
    }
  }

  /** Copying the nearest tier last, any number of interleaved Gets never leave a tier that has
      the object in front of one that does not but whose successor does. */
  lemma NearestLast(tiers: seq<Held>, steps: seq<Step>, key: string)
    requires Gapless(tiers, key) && forall i :: 0 <= i < |steps| ==> Calm(steps[i])
    ensures Gapless(Run(Start(tiers), steps).tiers, key)
  {
    hide Run, Calm;
    RunReadsOnly(Start(tiers), steps, key);
  }
}
