/** The circuit breaker (agent/breaker/breaker.go). */
module Breaker {
  import opened Tiers

  datatype Config = Config(threshold: int, window: int)

  /** The bookkeeping the lock guards; None is the zero time. */
  datatype State = State(consecutive: int, openUntil: Option<int>, trips: int)

  function Initial(): State { State(0, None, 0) }

  datatype Allowed = Allowed(st: State, ok: bool)

  function Allow(s: State, now: int): Allowed {
    if s.openUntil.None? then Allowed(s, true)
    else if now < s.openUntil.value then Allowed(s, false)
    else Allowed(State(0, None, s.trips), true)
  }

  function Record(c: Config, s: State, healthy: bool, now: int): State {
    if healthy then s.(consecutive := 0)
    else if s.consecutive + 1 >= c.threshold then State(0, Some(now + c.window), s.trips + 1)
    else s.(consecutive := s.consecutive + 1)
  }

  predicate Healthy(e: Option<Error>) {
    e == None || e == Some(NotFound) || e == Some(Exists)
  }

  /** A tier's answer: what it returned, or an error. */
  datatype Answer<T> = Answer(value: T, error: Option<Error>)

  class Breaker {
    const cfg: Config
    var consecutive: int
    var openUntil: Option<int>
    var drops: int
    var bypassed: int
    var trips: int

    ghost function View(): State
      reads this
    {
      State(consecutive, openUntil, trips)
    }

    /** Options that make no sense are ignored: the defaults are five failures and thirty seconds. */
    constructor (threshold: int, window: int)
      ensures cfg.threshold == (if threshold > 0 then threshold else 5)
      ensures cfg.window == (if window > 0 then window else 30_000_000_000)
      ensures View() == Initial() && drops == 0 && bypassed == 0
    {
      cfg := Config(if threshold > 0 then threshold else 5, if window > 0 then window else 30_000_000_000);
      consecutive, openUntil, drops, bypassed, trips := 0, None, 0, 0, 0;
    }

    method Ask(now: int) returns (ok: bool)
      modifies this`openUntil, this`consecutive
      ensures Allowed(View(), ok) == Allow(old(View()), now)
      ensures ok <==> old(openUntil).None? || now >= old(openUntil).value
      ensures ok ==> openUntil.None?
      ensures ok && old(openUntil).Some? ==> consecutive == 0
      ensures !ok || old(openUntil).None? ==> View() == old(View())
    {
      if openUntil.None? {
        return true;
      }
      if now < openUntil.value {
        return false;
      }
      openUntil := None;
      consecutive := 0;
      return true;
    }

    method Note(error: Option<Error>, now: int)
      modifies this`openUntil, this`consecutive, this`trips
      ensures View() == Record(cfg, old(View()), Healthy(error), now)
      ensures error == None || error == Some(NotFound) || error == Some(Exists) ==>
                View() == State(0, old(openUntil), old(trips))
      ensures error == Some(NoSpace) || error == Some(Broken) ==>
                View() == if old(consecutive) + 1 >= cfg.threshold
                    then State(0, Some(now + cfg.window), old(trips) + 1)
                          else State(old(consecutive) + 1, old(openUntil), old(trips))
    {
      if error == None || error == Some(NotFound) || error == Some(Exists) {
        consecutive := 0;
        return;
      }
      consecutive := consecutive + 1;
      if consecutive >= cfg.threshold {
        openUntil := Some(now + cfg.window);
        consecutive := 0;
        trips := trips + 1;
      }
    }

    /** A read through the breaker, given what the tier would answer and when: never a failure. */
    method Read<T>(now: int, later: int, tier: Answer<T>) returns (r: Result<T>)
      modifies this
      ensures drops == old(drops)
      ensures var a := Allow(old(View()), now);
              && (!a.ok ==> View() == a.st && bypassed == old(bypassed) + 1 && r == Err(NotFound))
              && (a.ok ==> View() == Record(cfg, a.st, Healthy(tier.error), later) && bypassed == old(bypassed))
              && (a.ok && tier.error == None ==> r == Ok(tier.value))
              && (a.ok && tier.error != None ==> r == Err(NotFound))
    {
      var ok := Ask(now);
      if !ok {
        bypassed := bypassed + 1;
        return Err(NotFound);
      }
      Note(tier.error, later);
      if tier.error != None && tier.error != Some(NotFound) {
        return Err(NotFound);
      }
      return if tier.error == None then Ok(tier.value) else Err(tier.error.value);
    }

    /** A write or a delete: always nil to the caller, every one the tier did not take is a drop.
        benign is the error that is no failure: Exists for a Put, NotFound for a Delete. */
    method Write(now: int, later: int, error: Option<Error>, benign: Error)
      modifies this
      ensures var a := Allow(old(View()), now);
              && (!a.ok ==> View() == a.st && bypassed == old(bypassed) + 1 && drops == old(drops) + 1)
              && (a.ok ==> View() == Record(cfg, a.st, Healthy(error), later) && bypassed == old(bypassed))
              && (a.ok ==> drops == old(drops) + if error == None || error == Some(benign) then 0 else 1)
    {
      var ok := Ask(now);
      if !ok {
        bypassed := bypassed + 1;
        drops := drops + 1;
        return;
      }
      Note(error, later);
      if error != None && error != Some(benign) {
        drops := drops + 1;
      }
    }
  }

  /* ---- every interleaving of calls ---- */

  /** One locked section of one call: a call in flight is an Asks now and a Notes later. */
  datatype Event = Asks(now: int) | Notes(healthy: bool, now: int)

  function After(c: Config, s: State, events: seq<Event>): State
    decreases |events|
  {
    if events == [] then s
    else
      var init, last := events[..|events| - 1], events[|events| - 1];
      var m := After(c, s, init);
      match last
      case Asks(now) => Allow(m, now).st
      case Notes(healthy, now) => Record(c, m, healthy, now)
  }

  function Failures(events: seq<Event>): nat {
    if events == [] then 0
    else
      var last := events[|events| - 1];
      Failures(events[..|events| - 1]) + (if last.Notes? && !last.healthy then 1 else 0)
  }

  /** Each trip is paid for by threshold failures of its own, whatever was in flight when it tripped. */
  lemma {:induction false} TripsPaidFor(c: Config, events: seq<Event>)
    requires c.threshold > 0
    ensures var s := After(c, Initial(), events);
            && 0 <= s.consecutive < c.threshold
            && 0 <= s.trips
            && c.threshold * s.trips + s.consecutive <= Failures(events)
    decreases |events|
  {
    if events != [] {
      var init := events[..|events| - 1];
      TripsPaidFor(c, init);
      var m := After(c, Initial(), init);
      assert c.threshold * (m.trips + 1) == c.threshold * m.trips + c.threshold;
    }
  }

  /* ---- when the breaker is open ---- */

  /** The state before event i. */
  function Before(c: Config, events: seq<Event>, i: nat): State
    requires i <= |events|
  {
    After(c, Initial(), events[..i])
  }

  lemma BeforeNext(c: Config, events: seq<Event>, i: nat)
    requires i < |events|
    ensures Before(c, events, 0) == Initial()
    ensures Before(c, events, i + 1) == match events[i]
                                        case Asks(now) => Allow(Before(c, events, i), now).st
                                        case Notes(healthy, now) => Record(c, Before(c, events, i), healthy, now)
  {
    assert events[..i + 1][..i] == events[..i];
  }

  /** An event after which one more trip has been counted. */
  predicate TripAt(c: Config, events: seq<Event>, j: nat)
    requires j < |events|
  {
    Before(c, events, j + 1).trips > Before(c, events, j).trips
  }

  /** A call began, between events j and i, when the window of a trip at j had passed. */
  ghost predicate Cleared(c: Config, events: seq<Event>, j: nat, i: nat)
    requires j < i <= |events|
  {
    exists h :: j < h < i && events[h].Asks? && events[h].now >= events[j].now + c.window
  }

  /** The last trip before event i. */
  ghost predicate LastTrip(c: Config, events: seq<Event>, j: nat, i: nat)
    requires j < i <= |events|
  {
    TripAt(c, events, j) && forall h :: j < h < i ==> !TripAt(c, events, h)
  }

  ghost predicate Refused(c: Config, events: seq<Event>, i: nat)
    requires i < |events| && events[i].Asks?
  {
    !Allow(Before(c, events, i), events[i].now).ok
  }

  /** While it is set, openUntil is the end of the window of the last trip, not cleared yet. */
  ghost predicate OpenRight(c: Config, events: seq<Event>, i: nat)
    requires i <= |events|
  {
    match Before(c, events, i).openUntil
    case Some(u) =>
      exists j :: 0 <= j < i && LastTrip(c, events, j, i) && !Cleared(c, events, j, i)
                  && u == events[j].now + c.window
    case None => forall j :: 0 <= j < i && LastTrip(c, events, j, i) ==> Cleared(c, events, j, i)
  }

  lemma {:induction false} OpenIs(c: Config, events: seq<Event>, i: nat)
    requires c.threshold > 0 && i <= |events|
    ensures OpenRight(c, events, i)
  {
    if i == 0 {
      assert events[..0] == [];
    } else {
      hide Before, After;
      OpenIs(c, events, i - 1);
      BeforeNext(c, events, i - 1);
      OpenStep(c, events, i);
    }
  }

  lemma OpenStep(c: Config, events: seq<Event>, i: nat)
    requires c.threshold > 0 && 0 < i <= |events| && OpenRight(c, events, i - 1)
    requires Before(c, events, i) == match events[i - 1]
                                     case Asks(now) => Allow(Before(c, events, i - 1), now).st
                                     case Notes(healthy, now) => Record(c, Before(c, events, i - 1), healthy, now)
    ensures OpenRight(c, events, i)
  {
    hide Before, After;
    if TripAt(c, events, i - 1) {
      assert LastTrip(c, events, i - 1, i) && !Cleared(c, events, i - 1, i);
    } else {
      forall j | 0 <= j < i - 1
        ensures LastTrip(c, events, j, i) <==> LastTrip(c, events, j, i - 1)
        ensures Cleared(c, events, j, i) <==>
                  Cleared(c, events, j, i - 1) || (events[i - 1].Asks?
                      && events[i - 1].now >= events[j].now + c.window)
      {
      }
      OneLastTrip(c, events, i - 1);
    }
  }

  lemma OneLastTrip(c: Config, events: seq<Event>, i: nat)
    requires i <= |events|
    ensures forall j, h :: 0 <= j < i && 0 <= h < i && LastTrip(c, events, j, i) && LastTrip(c, events, h, i) ==>
              j == h
  {
    hide TripAt;
  }

  /** A call is refused if and only if it begins within the window of the last trip, no call having
      begun past that window since. */
  lemma RefusedExactly(c: Config, events: seq<Event>, i: nat)
    requires c.threshold > 0 && i < |events| && events[i].Asks?
    ensures Refused(c, events, i) <==>
              exists j :: 0 <= j < i && LastTrip(c, events, j, i) && !Cleared(c, events, j, i)
                          && events[i].now < events[j].now + c.window
  {
    hide Before, LastTrip, Cleared;
    OpenIs(c, events, i);
    OneLastTrip(c, events, i);
  }

  /** The first call at or after the end of a trip's window is let through, with the count at zero. */
  lemma Reopens(c: Config, events: seq<Event>, j: nat, i: nat)
    requires c.threshold > 0 && j < i < |events| && LastTrip(c, events, j, i) && !Cleared(c, events, j, i)
    requires events[i].Asks? && events[i].now >= events[j].now + c.window
    ensures !Refused(c, events, i) && Before(c, events, i + 1).consecutive == 0
              && Before(c, events, i + 1).openUntil == None
  {
    hide Before, LastTrip, Cleared;
    OpenIs(c, events, i);
    OneLastTrip(c, events, i);
    BeforeNext(c, events, i);
  }

  /* ---- what a trip takes ---- */

  /** Failures noted since the last healthy note, trip or clearing call. */
  ghost function Streak(c: Config, events: seq<Event>, i: nat): nat
    requires i <= |events|
  {
    if i == 0 then 0
    else match events[i - 1]
      case Asks(now) => if Clears(c, events, i - 1) then 0 else Streak(c, events, i - 1)
      case Notes(healthy, _) =>
        if healthy || TripAt(c, events, i - 1) then 0 else Streak(c, events, i - 1) + 1
  }

  /** The call at i is the first past the window of the last trip. */
  ghost predicate Clears(c: Config, events: seq<Event>, i: nat)
    requires i < |events| && events[i].Asks?
  {
    exists j :: 0 <= j < i && LastTrip(c, events, j, i) && !Cleared(c, events, j, i)
                && events[i].now >= events[j].now + c.window
  }

  /** The count is the streak, and the breaker trips exactly at the failure that makes it threshold. */
  lemma {:induction false} TripsExactly(c: Config, events: seq<Event>, i: nat)
    requires c.threshold > 0 && i <= |events|
    ensures Before(c, events, i).consecutive == Streak(c, events, i)
    ensures i < |events| ==>
              (TripAt(c, events, i) <==>
                 events[i].Notes? && !events[i].healthy && Streak(c, events, i) + 1 >= c.threshold)
  {
    hide After, LastTrip, Cleared;
    if i > 0 {
      TripsExactly(c, events, i - 1);
      hide Before;
      BeforeNext(c, events, i - 1);
      OpenIs(c, events, i - 1);
      OneLastTrip(c, events, i - 1);
    } else {
      assert events[..0] == [];
      EmptyAfter(c);
    }
    if i < |events| {
      BeforeNext(c, events, i);
    }
  }

  lemma EmptyAfter(c: Config)
    ensures After(c, Initial(), []) == Initial()
  {
  }

  lemma TripsAreNotes(c: Config, events: seq<Event>, i: nat)
    requires i < |events| && TripAt(c, events, i)
    ensures events[i].Notes? && !events[i].healthy
  {
    hide Before, After;
    BeforeNext(c, events, i);
  }

  /** A streak is that many failures with neither a healthy note nor a trip among them. */
  lemma {:induction false} StreakIs(c: Config, events: seq<Event>, i: nat) returns (h: nat)
    requires i <= |events|
    ensures h <= i && Failures(events[h..i]) == Streak(c, events, i)
    ensures forall k :: h <= k < i ==> !(events[k].Notes? && events[k].healthy) && !TripAt(c, events, k)
  {
    hide TripAt, Clears;
    if i == 0 || (events[i - 1].Notes? && (events[i - 1].healthy || TripAt(c, events, i - 1)))
       || (events[i - 1].Asks? && Clears(c, events, i - 1)) {
      h := i;
    } else {
      h := StreakIs(c, events, i - 1);
      if TripAt(c, events, i - 1) {
        TripsAreNotes(c, events, i - 1);
      }
      assert events[h..i][..i - 1 - h] == events[h..i - 1];
    }
  }

  /** So a trip needs threshold failures with no healthy note and no other trip between them. */
  lemma TripNeeds(c: Config, events: seq<Event>, i: nat) returns (h: nat)
    requires c.threshold > 0 && i < |events| && TripAt(c, events, i)
    ensures h <= i && Failures(events[h..i + 1]) >= c.threshold
    ensures forall k :: h <= k <= i ==> !(events[k].Notes? && events[k].healthy)
    ensures forall k :: h <= k < i ==> !TripAt(c, events, k)
  {
    hide TripAt, Streak;
    TripsExactly(c, events, i);
    h := StreakIs(c, events, i);
    assert events[h..i + 1][..i - h] == events[h..i];
  }

  /* ---- a dead tier, one call at a time ---- */

  /** A call that starts at begin and, if it was let through, failed at end. */
  datatype Call = Call(begin: int, end: int)

  ghost predicate Sequential(calls: seq<Call>) {
    && (forall i :: 0 <= i < |calls| ==> calls[i].begin <= calls[i].end)
    && (forall i, j :: 0 <= i < j < |calls| ==> calls[i].end <= calls[j].begin)
  }

  /** The breaker after calls, all of them failing. */
  function Dead(c: Config, s: State, calls: seq<Call>): State
    decreases |calls|
  {
    if calls == [] then s
    else
      var a := Allow(Dead(c, s, calls[..|calls| - 1]), calls[|calls| - 1].begin);
      if a.ok then Record(c, a.st, false, calls[|calls| - 1].end) else a.st
  }

  /** A call that reached the tier: when it began, and how many failures were counted before it. */
  datatype Hit = Hit(at: int, nth: int)

  function Hits(c: Config, s: State, calls: seq<Call>): seq<Hit>
    decreases |calls|
  {
    if calls == [] then []
    else
      var init, last := calls[..|calls| - 1], calls[|calls| - 1];
      var a := Allow(Dead(c, s, init), last.begin);
      Hits(c, s, init) + (if a.ok then [Hit(last.begin, a.st.consecutive)] else [])
  }

  function Succ(c: Config, nth: int): int {
    if nth + 1 >= c.threshold then 0 else nth + 1
  }

  /** Hits come in rounds of threshold, and a new round begins a window or more after the last one's end. */
  ghost predicate Rounds(c: Config, h: seq<Hit>) {
    && (forall i :: 0 <= i < |h| ==> 0 <= h[i].nth < c.threshold)
    && (forall i, j :: 0 <= i < j < |h| ==> h[i].at <= h[j].at)
    && (forall i, j :: 0 <= i < |h| && j == i + 1 < |h| ==>
          h[j].nth == Succ(c, h[i].nth) && (h[j].nth == 0 ==> h[j].at >= h[i].at + c.window))
  }

  ghost predicate Standing(c: Config, h: seq<Hit>, s: State) {
    if h == [] then s.consecutive == 0 && s.openUntil == None
    else
      var last := h[|h| - 1];
      && s.consecutive == Succ(c, last.nth)
      && (s.consecutive != 0 ==> s.openUntil == None)
      && (s.consecutive == 0 ==> s.openUntil.Some? && s.openUntil.value >= last.at + c.window)
  }

  /** One more failing call. */
  lemma RoundsStep(c: Config, h: seq<Hit>, s: State, call: Call)
    requires c.threshold > 0 && Rounds(c, h) && Standing(c, h, s)
    requires call.begin <= call.end && forall i :: 0 <= i < |h| ==> h[i].at <= call.begin
    requires Allow(s, call.begin).ok
    ensures var a := Allow(s, call.begin);
            var g := h + [Hit(call.begin, a.st.consecutive)];
            Rounds(c, g) && Standing(c, g, Record(c, a.st, false, call.end))
  {
  }

  lemma {:induction false} DeadRounds(c: Config, calls: seq<Call>)
    requires c.threshold > 0 && Sequential(calls)
    ensures var h := Hits(c, Initial(), calls);
            && Rounds(c, h) && Standing(c, h, Dead(c, Initial(), calls))
            && (calls != [] ==> forall i :: 0 <= i < |h| ==> h[i].at <= calls[|calls| - 1].end)
    decreases |calls|
  {
    hide Rounds, Standing, Record;
    if calls == [] {
      NoRounds(c);
    } else {
      var init, last := calls[..|calls| - 1], calls[|calls| - 1];
      DeadRounds(c, init);
      var h := Hits(c, Initial(), init);
      if init != [] {
        assert calls[|calls| - 2].end <= last.begin;
      }
      var s := Dead(c, Initial(), init);
      if Allow(s, last.begin).ok {
        RoundsStep(c, h, s, last);
      } else {
        assert h + [] == h;
      }
    }
  }

  lemma NoRounds(c: Config)
    ensures Rounds(c, []) && Standing(c, [], Initial())
  {
  }

  /** Within any threshold + 1 hits in a row a round begins. */
  lemma {:induction false} RoundBegins(c: Config, h: seq<Hit>, i: nat, m: nat) returns (k: nat)
    requires c.threshold > 0 && Rounds(c, h) && i + m < |h|
    ensures k <= i + m && (k > i ==> h[k].nth == 0)
    ensures k <= i ==> h[i + m].nth == h[i].nth + m
  {
    if m == 0 {
      k := i;
    } else {
      k := RoundBegins(c, h, i, m - 1);
      if k <= i && h[i + m].nth == 0 {
        k := i + m;
      }
    }
  }

  lemma GapOfOne(c: Config, h: seq<Hit>, i: nat)
    requires c.threshold > 0 && Rounds(c, h) && i + c.threshold < |h|
    ensures h[i + c.threshold].at >= h[i].at + c.window
  {
    var k := RoundBegins(c, h, i, c.threshold);
    assert k > i;
    assert h[k].at >= h[k - 1].at + c.window;
  }

  lemma {:induction false} Gap(c: Config, h: seq<Hit>, i: nat, m: nat)
    requires c.threshold > 0 && c.window > 0 && Rounds(c, h) && i + m * c.threshold < |h| && m * c.threshold >= 0
    ensures h[i + m * c.threshold].at >= h[i].at + m * c.window
  {
    if m > 0 {
      assert m * c.threshold == (m - 1) * c.threshold + c.threshold;
      assert m * c.window == (m - 1) * c.window + c.window;
      assert (m - 1) * c.threshold >= 0;
      Gap(c, h, i, m - 1);
      GapOfOne(c, h, i + (m - 1) * c.threshold);
    }
  }

  lemma GapAtLeast(c: Config, h: seq<Hit>, p: nat, m: nat, q: nat)
    requires c.threshold > 0 && c.window > 0 && Rounds(c, h) && 0 <= m * c.threshold <= q - p && q < |h|
    ensures h[q].at >= h[p].at + m * c.window
  {
    var k := p + m * c.threshold;
    Gap(c, h, p, m);
    assert k < q ==> h[k].at <= h[q].at;
  }

  /** How many hits began in [from, to]. */
  function Within(h: seq<Hit>, from: int, to: int): nat
    decreases |h|
  {
    if h == [] then 0
    else Within(h[..|h| - 1], from, to) + (if from <= h[|h| - 1].at <= to then 1 else 0)
  }

  lemma {:induction false} WithinSpan(h: seq<Hit>, from: int, to: int) returns (p: nat, q: nat)
    requires Within(h, from, to) > 0
    ensures p <= q < |h| && from <= h[p].at && h[q].at <= to && Within(h, from, to) <= q - p + 1
    decreases |h|
  {
    var init, last := h[..|h| - 1], h[|h| - 1];
    if !(from <= last.at <= to) {
      p, q := WithinSpan(init, from, to);
    } else if Within(init, from, to) == 0 {
      p, q := |h| - 1, |h| - 1;
    } else {
      p, q := WithinSpan(init, from, to);
      q := |h| - 1;
    }
  }

  lemma WindowsPass(length: int, window: int)
    requires window > 0
    ensures (length / window + 1) * window > length
  {
  }

  /** Hits no further apart than length number at most threshold a window, plus threshold. */
  lemma SpanBound(c: Config, h: seq<Hit>, p: nat, q: nat, length: int)
    requires c.threshold > 0 && c.window > 0 && length >= 0 && Rounds(c, h)
    requires p <= q < |h| && h[q].at - h[p].at <= length
    ensures q - p + 1 <= c.threshold * (length / c.window + 1)
  {
    var m := length / c.window + 1;
    var n := m * c.threshold;
    WindowsPass(length, c.window);
    assert m >= 1 && n >= 0 by { MultipleOf(m, c.threshold); }
    if q - p >= n {
      GapAtLeast(c, h, p, m, q);
    }
  }

  lemma MultipleOf(m: int, t: int)
    requires m >= 0 && t >= 0
    ensures m * t >= 0
  {
  }

  /** A dead tier called one call at a time is reached at most threshold times a window, plus
      threshold, in any interval. */
  lemma DeadTierBound(c: Config, calls: seq<Call>, from: int, length: int)
    requires c.threshold > 0 && c.window > 0 && length >= 0 && Sequential(calls)
    ensures Within(Hits(c, Initial(), calls), from, from + length) <= c.threshold * (length / c.window + 1)
  {
    hide Rounds, Within, Hits, Standing, Dead;
    var h := Hits(c, Initial(), calls);
    DeadRounds(c, calls);
    MultipleOf(c.threshold, length / c.window + 1);
    if Within(h, from, from + length) > 0 {
      var p, q := WithinSpan(h, from, from + length);
      SpanBound(c, h, p, q, length);
    }
  }
}
