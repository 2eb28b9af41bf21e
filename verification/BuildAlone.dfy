/** One Put or Get of the build cache that nobody interrupts takes the steps of CrashOrder to
    the result of BuildCache (frontend/gobuild/gobuild.go). */
module BuildAlone {
  import opened Tiers
  import opened ActionRecord
  import opened BuildCache
  import opened CrashOrder

  /** A Put that nobody interrupts is over and leaves what BuildCache.Cache.Put does. */
  lemma PutAlone(s: State, id: string, outputId: string, modTime: Time, now: Time, text: string,
                 outputFails: bool, recordFails: bool)
    ensures var i := |s.puts|;
            Run(s, [Begin(id, outputId, modTime, now, text), WriteBytes(i, outputFails), WriteRecord(i, recordFails)])
            == s.(objects := Recorded(s.objects, id, outputId, modTime, now, text, outputFails, recordFails),
                  puts := s.puts + [Over])
  {
    hide Run, Key, FormatAction, ValidId;
    var i := |s.puts|;
    var a, b, c := Begin(id, outputId, modTime, now, text), WriteBytes(i, outputFails), WriteRecord(i, recordFails);
    var s1 := Do(s, a);
    var s2 := Do(s1, b);
    var s3 := Do(s2, c);
    RunCons(s, a, [b, c]);
    RunCons(s1, b, [c]);
    RunCons(s2, c, []);
    RunNone(s3);
    assert [a] + [b, c] == [a, b, c] && [b] + [c] == [b, c] && [c] + [] == [c];
    assert |s3.puts| == i + 1 && s3.puts[..i] == s.puts && s3.puts[i] == Over;
    assert s3.puts == s.puts + [Over];
  }

  /* ---- a Get ---- */

  /** What a whole Get answers and leaves, every output wanted. */
  function Whole(t: Objects, legacy: string, id: string, stuck: set<string>): Answer
    requires ValidId(id)
  {
    Get(t, legacy, id, (o, m) => true, stuck)
  }

  /** The Get at i has answered as the whole one does. */
  ghost predicate Told(s: State, i: nat, a: Answer) {
    i < |s.gets| && s.gets[i] == Answered(a.hit) && s.objects == a.objects
  }

  /** From the record on: the layouts are asked for the output, the record's own first. */
  lemma {:induction false} FetchAlone(s: State, i: nat, t: Objects, stuck: set<string>) returns (steps: seq<Step>)
    requires i < |s.gets| && s.gets[i].Fetching? && GetValid(s.gets[i])
    requires var g := s.gets[i];
             && g.n <= |PrefixesFrom(g.legacy, g.from)|
             && s.objects == t - (Junk(t, Prefixes(g.legacy), g.id) - stuck)
             && Followed(t, Prefixes(g.legacy), g.id) == Some(g.from) && RecordAt(t, g.from, g.id) == Some(g.rec)
             && forall j :: 0 <= j < g.n ==> OutputKey(PrefixesFrom(g.legacy, g.from)[j], g.rec.outputId) !in t
    ensures Told(Run(s, steps), i, Whole(t, s.gets[i].legacy, s.gets[i].id, stuck))
    decreases |PrefixesFrom(s.gets[i].legacy, s.gets[i].from)| - s.gets[i].n
  {
    hide Run, Key, RecordAt, Junk, Followed, Prefixes, PrefixesFrom, Located;
    var g := s.gets[i];
    var qs := PrefixesFrom(g.legacy, g.from);
    var u := Do(s, Turn(i, false));
    if g.n == |qs| {
      LocatedIs(t, qs, g.rec.outputId, g.n);
      var drop := Turn(i, ActionKey(g.from, g.id) in stuck);
      steps := [Turn(i, false)] + ([drop] + []);
      RunCons(s, Turn(i, false), [drop] + []);
      RunCons(u, drop, []);
      RunNone(Do(u, drop));
    } else {
      var k := OutputKey(qs[g.n], g.rec.outputId);
      OutputKept(t, s.objects, g.legacy, g.id, qs[g.n], g.rec.outputId, stuck);
      if k in t {
        LocatedIs(t, qs, g.rec.outputId, g.n);
        steps := [Turn(i, false)] + [];
        RunCons(s, Turn(i, false), []);
        RunNone(u);
      } else {
        var rest := FetchAlone(u, i, t, stuck);
        steps := [Turn(i, false)] + rest;
        RunCons(s, Turn(i, false), rest);
      }
    }
  }

  /** What a Get has deleted on its way was no output. */
  lemma OutputKept(t: Objects, u: Objects, legacy: string, id: string, q: string, o: string, stuck: set<string>)
    requires ValidId(id) && ValidId(o) && u == t - (Junk(t, Prefixes(legacy), id) - stuck)
    ensures OutputKey(q, o) in u <==> OutputKey(q, o) in t
    ensures OutputKey(q, o) in t ==> u[OutputKey(q, o)] == t[OutputKey(q, o)]
  {
    hide Key, RecordAt;
    var k := OutputKey(q, o);
    if k in Junk(t, Prefixes(legacy), id) {
      var p :| p in Prefixes(legacy) && k == ActionKey(p, id);
      KeyInjective(q, "output", o, p, "action", id);
    }
  }

  /** The search for the record, n layouts passed and gone found unusable. */
  lemma {:induction false} SearchAlone(s: State, i: nat, t: Objects, gone: set<string>, stuck: set<string>)
    returns (steps: seq<Step>)
    requires i < |s.gets| && s.gets[i].Asking? && GetValid(s.gets[i])
    requires Seeking(t, Prefixes(s.gets[i].legacy), s.gets[i].id, s.gets[i].n, gone)
               && s.objects == t - (gone - stuck)
    ensures Told(Run(s, steps), i, Whole(t, s.gets[i].legacy, s.gets[i].id, stuck))
    decreases |Prefixes(s.gets[i].legacy)| - s.gets[i].n
  {
    hide Run, Key, ParseAction, Junk, Followed, Seeking, Prefixes;
    var g := s.gets[i];
    var ps := Prefixes(g.legacy);
    var u := Do(s, Turn(i, false));
    SeekingBound(t, ps, g.id, g.n, gone);
    if g.n == |ps| {
      SeekingOver(t, ps, g.id, gone);
      steps := [Turn(i, false)] + [];
      RunCons(s, Turn(i, false), []);
      RunNone(u);
      return;
    }
    var k := ActionKey(ps[g.n], g.id);
    SameLayout(t, g.id, ps, g.n, gone);
    if RecordAt(s.objects, ps[g.n], g.id).Some? {
      SeekingFound(t, ps, g.id, g.n, gone);
      var rest := FetchAlone(u, i, t, stuck);
      steps := [Turn(i, false)] + rest;
      RunCons(s, Turn(i, false), rest);
    } else if k !in s.objects {
      SeekingStep(t, ps, g.id, g.n, gone);
      var rest := SearchAlone(u, i, t, gone + (if k in t then {k} else {}), stuck);
      steps := [Turn(i, false)] + rest;
      RunCons(s, Turn(i, false), rest);
    } else {
      SeekingStep(t, ps, g.id, g.n, gone);
      var discard := Turn(i, k in stuck);
      var v := Do(u, discard);
      var rest := SearchAlone(v, i, t, gone + {k}, stuck);
      steps := [Turn(i, false)] + ([discard] + rest);
      RunCons(s, Turn(i, false), [discard] + rest);
      RunCons(u, discard, rest);
    }
  }

  lemma SeekingBound(t: Objects, ps: seq<string>, id: string, n: nat, gone: set<string>)
    requires ValidId(id) && Seeking(t, ps, id, n, gone)
    ensures n <= |ps|
  {
  }

  /** A Get that nobody interrupts answers and leaves what BuildCache.Get does. */
  lemma GetAlone(s: State, id: string, legacy: string, stuck: set<string>) returns (steps: seq<Step>)
    requires ValidId(id)
    ensures Told(Run(s, [Ask(id, legacy)] + steps), |s.gets|, Whole(s.objects, legacy, id, stuck))
  {
    hide Run, Seeking, Whole;
    SeekingStart(s.objects, Prefixes(legacy), id);
    assert s.objects - ({} - stuck) == s.objects;
    steps := SearchAlone(Do(s, Ask(id, legacy)), |s.gets|, s.objects, {}, stuck);
    RunCons(s, Ask(id, legacy), steps);
  }
}
