/** A body crossing the network in chunks, and errors crossing as codes
    (server/cacheservice.go, engine/remote/remote.go). */
module Wire {
  import opened Tiers

  const CHUNK := 0x10_0000

  /* ---- sending ---- */

  /** One Read of the source: some bytes and, with or after the last of them, how it ended. */
  datatype End = Open | Eof | Failed

  datatype Piece = Piece(data: Body, end: End)

  /** A reader that is asked for CHUNK bytes until it ends. */
  predicate Source(ps: seq<Piece>) {
    && ps != []
    && (forall i :: 0 <= i < |ps| ==> |ps[i].data| <= CHUNK)
    && (forall i :: 0 <= i < |ps| - 1 ==> ps[i].end == Open)
    && ps[|ps| - 1].end != Open
  }

  function Content(ps: seq<Piece>): Body
    decreases |ps|
  {
    if ps == [] then [] else Content(ps[..|ps| - 1]) + ps[|ps| - 1].data
  }

  function Joined(chunks: seq<Body>): Body {
    if chunks == [] then [] else chunks[0] + Joined(chunks[1..])
  }

  lemma {:induction false} JoinedAppend(chunks: seq<Body>, last: Body)
    ensures Joined(chunks + [last]) == Joined(chunks) + last
  {
    if chunks == [] {
      assert chunks + [last] == [last];
    } else {
      JoinedAppend(chunks[1..], last);
      assert (chunks + [last])[1..] == chunks[1..] + [last];
    }
  }

  lemma {:induction false} ContentPrefix(ps: seq<Piece>, i: nat)
    requires i <= |ps|
    ensures Content(ps[..i]) <= Content(ps)
    decreases |ps|
  {
    if i == |ps| {
      assert ps[..i] == ps;
    } else {
      ContentPrefix(ps[..|ps| - 1], i);
      assert ps[..|ps| - 1][..i] == ps[..i];
    }
  }

  lemma ContentAppend(ps: seq<Piece>, p: Piece)
    ensures Content(ps + [p]) == Content(ps) + p.data && Content([]) == []
  {
    assert (ps + [p])[..|ps|] == ps;
  }

  /** How a send loop ended: the source's end, or a send the other side did not take. */
  datatype Sent = Complete | SourceFailed | SendFailed

  /** The loop of the server's Get and of the client's Put. The transport takes the first takes
      messages; the chunks it took are the source's bytes, cut where the reads cut them, none empty. */
  method SendAll(ps: seq<Piece>, takes: nat) returns (chunks: seq<Body>, outcome: Sent)
    requires Source(ps)
    ensures Joined(chunks) <= Content(ps) && |chunks| <= takes
    ensures forall i :: 0 <= i < |chunks| ==> 0 < |chunks[i]| <= CHUNK
    ensures outcome != SendFailed ==> Joined(chunks) == Content(ps)
    ensures outcome == Complete ==> ps[|ps| - 1].end == Eof
    ensures outcome == SourceFailed ==> ps[|ps| - 1].end == Failed
    ensures outcome == SendFailed ==> |chunks| == takes < |ps|
  {
    chunks := [];
    var i := 0;
    while true
      invariant 0 <= i < |ps| && Joined(chunks) == Content(ps[..i]) && |chunks| <= takes && |chunks| <= i
      invariant forall k :: 0 <= k < |chunks| ==> 0 < |chunks[k]| <= CHUNK
      decreases |ps| - i
    {
      var p := ps[i];
      assert ps[..i + 1][..i] == ps[..i];
      if |p.data| > 0 {
        if |chunks| == takes {
          ContentPrefix(ps, i);
          return chunks, SendFailed;
        }
        JoinedAppend(chunks, p.data);
        chunks := chunks + [p.data];
      }
      if p.end == Eof {
        assert ps[..i + 1] == ps;
        return chunks, Complete;
      }
      if p.end == Failed {
        assert ps[..i + 1] == ps;
        return chunks, SourceFailed;
      }
      i := i + 1;
    }
  }

  /* ---- receiving ---- */

  datatype Msg = Header | Chunk(data: Body)

  /** Why a reader has nothing more to give. */
  datatype Stop = EndOfBody | Transport | SecondHeader

  /** The bytes a stream still carries. A header in the middle ends the body for the server,
      which is strict, and is passed over by the client. */
  function Carries(ms: seq<Msg>, strict: bool): Body {
    if ms == [] then []
    else if ms[0].Header? then (if strict then [] else Carries(ms[1..], strict))
    else ms[0].data + Carries(ms[1..], strict)
  }

  function StopOf(ms: seq<Msg>, strict: bool, clean: bool): Stop {
    if ms == [] then (if clean then EndOfBody else Transport)
    else if ms[0].Header? && strict then SecondHeader
    else StopOf(ms[1..], strict, clean)
  }

  /** streamBody on the server, which is strict, and getStream on the client. clean: the sender
      closed the stream rather than break it. */
  class ChunkReader {
    var stream: seq<Msg>
    const strict: bool
    const clean: bool
    var buf: Body
    var n: nat
    var err: Option<Stop>
    ghost const stop: Stop

    constructor (stream: seq<Msg>, strict: bool, clean: bool)
      ensures this.stream == stream && this.strict == strict && this.clean == clean
      ensures Valid() && Left() == Carries(stream, strict) && n == 0 && stop == StopOf(stream, strict, clean)
    {
      this.stream, this.strict, this.clean, buf, n, err := stream, strict, clean, [], 0, None;
      stop := StopOf(stream, strict, clean);
    }

    ghost predicate Valid()
      reads this
    {
      if err.Some? then buf == [] && err.value == stop else StopOf(stream, strict, clean) == stop
    }

    /** What a caller has not been given yet. */
    ghost function Left(): Body
      reads this
    {
      if err.Some? then [] else buf + Carries(stream, strict)
    }

    /** A read into p bytes gives the next of what is left, in order, and an error only once
        nothing is. */
    method Read(p: nat) returns (data: Body, error: Option<Stop>)
      requires Valid()
      modifies this`stream, this`buf, this`n, this`err
      ensures Valid() && data + Left() == old(Left()) && |data| <= p && n == old(n) + |data|
      ensures error.Some? ==> data == [] && Left() == [] && error == Some(stop) && err == error
      ensures error.None? && p > 0 ==> |data| > 0
      ensures error.None? ==> |data| == p || buf == []
    {
      while |buf| == 0
        invariant Valid() && Left() == old(Left()) && n == old(n)
        decreases |stream|, err.None?
      {
        if err.Some? {
          return [], err;
        }
        if stream == [] {
          err := Some(if clean then EndOfBody else Transport);
          return [], err;
        }
        var m := stream[0];
        stream := stream[1..];
        if m.Header? && strict {
          err := Some(SecondHeader);
          return [], err;
        }
        buf := if m.Header? then [] else m.data;
      }
      var k := if p < |buf| then p else |buf|;
      data := buf[..k];
      assert buf == data + buf[k..];
      buf := buf[k..];
      n := n + k;
      return data, None;
    }

    /** Reads into buffers of the given sizes, stopping at the first error. */
    method Drain(sizes: seq<nat>) returns (out: Body, error: Option<Stop>)
      requires Valid() && n == 0
      modifies this`stream, this`buf, this`n, this`err
      ensures Valid() && out + Left() == old(Left()) && n == |out|
      ensures error.Some? ==> out == old(Left()) && error == Some(stop)
      ensures (forall i :: 0 <= i < |sizes| ==> sizes[i] > 0) && |sizes| > |old(Left())| ==> error.Some?
    {
      out, error := [], None;
      var i := 0;
      while i < |sizes|
        invariant 0 <= i <= |sizes| && Valid() && error == None
        invariant out + Left() == old(Left()) && n == |out|
        invariant (forall k :: 0 <= k < |sizes| ==> sizes[k] > 0) ==> |out| >= i
      {
        var data: Body;
        data, error := Read(sizes[i]);
        assert out + (data + Left()) == out + data + Left();
        out := out + data;
        if error.Some? {
          return out, error;
        }
        i := i + 1;
      }
    }
  }

  function Chunks(bodies: seq<Body>): seq<Msg> {
    if bodies == [] then [] else [Chunk(bodies[0])] + Chunks(bodies[1..])
  }

  lemma {:induction false} ChunksCarry(bodies: seq<Body>, strict: bool, clean: bool)
    ensures Carries(Chunks(bodies), strict) == Joined(bodies)
    ensures StopOf(Chunks(bodies), strict, clean) == (if clean then EndOfBody else Transport)
  {
    if bodies != [] {
      ChunksCarry(bodies[1..], strict, clean);
      assert Chunks(bodies)[1..] == Chunks(bodies[1..]);
    }
  }

  /** A header in the middle: for the server the body ends before it and an error follows, for the
      client it is as if it were not there. */
  lemma {:induction false} HeaderInside(bodies: seq<Body>, rest: seq<Msg>, clean: bool)
    ensures var ms := Chunks(bodies) + [Header] + rest;
            && Carries(ms, true) == Joined(bodies) && StopOf(ms, true, clean) == SecondHeader
            && Carries(ms, false) == Joined(bodies) + Carries(rest, false)
            && StopOf(ms, false, clean) == StopOf(rest, false, clean)
  {
    var ms := Chunks(bodies) + [Header] + rest;
    if bodies == [] {
      assert ms[1..] == rest;
    } else {
      HeaderInside(bodies[1..], rest, clean);
      assert ms[1..] == Chunks(bodies[1..]) + [Header] + rest;
    }
  }

  /** Whether the receiver sees the stream end cleanly: the server's Get answers a source that
      failed with an error, the client's Put closes the stream all the same. */
  predicate EndsClean(upload: bool, outcome: Sent) {
    outcome.Complete? || (upload && outcome.SourceFailed?)
  }

  /** End to end: however the source splits its reads and the destination its buffers, what is
      read is what was sent, in order, and a clean end comes after all of it. On a download a
      clean end means the source was whole; on an upload it does exactly when the source did
      not fail, which the receiver cannot tell. */
  method Transfer(ps: seq<Piece>, upload: bool, takes: nat, sizes: seq<nat>)
    returns (out: Body, error: Option<Stop>, outcome: Sent, count: nat)
    requires Source(ps)
    ensures out <= Content(ps) && count == |out|
    ensures error == Some(EndOfBody) ==> out == Content(ps) && (outcome == Complete <==>
              !(upload && ps[|ps| - 1].end == Failed))
    ensures error == Some(Transport) ==> outcome != Complete
    ensures error != Some(SecondHeader)
    ensures takes >= |ps| && (forall i :: 0 <= i < |sizes| ==> sizes[i] > 0) && |sizes| > |Content(ps)|
            ==> error == Some(if upload || ps[|ps| - 1].end == Eof then EndOfBody else Transport)
  {
    var chunks: seq<Body>;
    chunks, outcome := SendAll(ps, takes);
    var clean := EndsClean(upload, outcome);
    ChunksCarry(chunks, upload, clean);
    var r := new ChunkReader(Chunks(chunks), upload, clean);
    out, error := r.Drain(sizes);
    assert out <= Joined(chunks);
    count := r.n;
  }

  /* ---- errors ---- */

  /** The errors errors.Is is asked about. */
  datatype Sentinel = IsNotFound | IsExists | IsNoSpace | IsCanceled | IsDeadline

  datatype Code =
    | CodeNotFound | CodeAlreadyExists | CodeResourceExhausted
    | CodeCanceled | CodeDeadlineExceeded | CodeInternal | CodeOther(n: int)

  /** An error value: what it wraps, and its code when it is a Connect error already. */
  datatype Problem = Problem(wraps: set<Sentinel>, code: Option<Code>)

  function ToCode(e: Problem): Code {
    if IsNotFound in e.wraps then CodeNotFound
    else if IsExists in e.wraps then CodeAlreadyExists
    else if IsNoSpace in e.wraps then CodeResourceExhausted
    else if IsCanceled in e.wraps then CodeCanceled
    else if IsDeadline in e.wraps then CodeDeadlineExceeded
    else match e.code
      case Some(c) => c
      case None => CodeInternal
  }

  function FromCode(c: Code): Problem {
    match c
    case CodeNotFound => Problem({IsNotFound}, None)
    case CodeAlreadyExists => Problem({IsExists}, None)
    case CodeResourceExhausted => Problem({IsNoSpace}, None)
    case _ => Problem({}, Some(c))
  }

  function CodeOf(s: Sentinel): Code {
    match s
    case IsNotFound => CodeNotFound
    case IsExists => CodeAlreadyExists
    case IsNoSpace => CodeResourceExhausted
    case IsCanceled => CodeCanceled
    case IsDeadline => CodeDeadlineExceeded
  }

  predicate Survivable(s: Sentinel) {
    s.IsNotFound? || s.IsExists? || s.IsNoSpace?
  }

  /** The order in which the server asks. */
  function Rank(s: Sentinel): nat {
    match s
    case IsNotFound => 0
    case IsExists => 1
    case IsNoSpace => 2
    case IsCanceled => 3
    case IsDeadline => 4
  }

  /** Each of the three errors a chain acts on arrives exactly when the server's error wraps it
      and none asked about before it, or wraps none and already carried its code. */
  lemma WireFaithful(e: Problem, s: Sentinel)
    requires Survivable(s)
    ensures s in FromCode(ToCode(e)).wraps <==>
              || (s in e.wraps && forall r :: r in e.wraps ==> Rank(s) <= Rank(r))
              || (e.wraps == {} && e.code == Some(CodeOf(s)))
  {
    var asked := [IsNotFound, IsExists, IsNoSpace, IsCanceled, IsDeadline];
    assert forall r: Sentinel :: r in e.wraps ==> Rank(r) < 5 && asked[Rank(r)] == r;
    if e.wraps != {} {
      var r :| r in e.wraps;
      assert r in asked;
    }
    assert forall r :: r in asked && r in e.wraps && Rank(r) < Rank(s) ==> !(forall q :: q in e.wraps ==>
             Rank(s) <= Rank(q));
  }

  /** What is sent is the code of the first of the five that the error wraps, in the order asked;
      without any, the code the error has already, and an internal error otherwise. */
  lemma CodeSent(e: Problem, s: Sentinel)
    ensures s in e.wraps && (forall r :: r in e.wraps ==> Rank(s) <= Rank(r)) ==> ToCode(e) == CodeOf(s)
    ensures e.wraps == {} ==> ToCode(e) == if e.code.Some? then e.code.value else CodeInternal
  {
    if s in e.wraps && forall r :: r in e.wraps ==> Rank(s) <= Rank(r) {
      var asked := [IsNotFound, IsExists, IsNoSpace, IsCanceled, IsDeadline];
      assert forall r :: r in asked && Rank(r) < Rank(s) ==> r !in e.wraps;
      assert asked[0] in asked && asked[1] in asked && asked[2] in asked && asked[3] in asked && asked[4] in asked;
    }
  }

  /** Codes come back from the client's vocabulary unchanged. */
  lemma CodesRoundTrip(c: Code)
    ensures ToCode(FromCode(c)) == c
  {
  }
}
