/** Several tiers read front to back and written through, one call at a time
    (engine/chain/chain.go). */
module TierChain {
  import opened Tiers

  /** What one tier holds. */
  type Held = map<string, Object>

  /** Bodies up to here are buffered in memory, longer or unknown ones in a temp file. */
  const THRESHOLD := 0x80_0000

  predicate Small(m: Meta) {
    0 < m.size <= THRESHOLD
  }

  /* ---- one tier ---- */

  /** A tier's Put: a call that fails, for whatever reason, stores nothing; otherwise an immutable
      key already present is refused and anything else is stored. */
  function TierPut(t: Held, key: string, body: Body, m: Meta, fault: Option<Error>): (r: (Held, Result<()>))
    ensures r.1.Err? ==> r.0 == t
    ensures r.1.Ok? ==> r.0 == t[key := Stored(body, m)]
    ensures r.1.Ok? <==> fault.None? && !(m.immutable && key in t)
    ensures r.1 == Err(Exists) && fault != Some(Exists) ==> m.immutable && key in t
  {
    match fault
    case Some(e) => (t, Err(e))
    case None => if m.immutable && key in t then (t, Err(Exists)) else (t[key := Stored(body, m)], Ok(()))
  }

  /** A tier after a Put reached it. */
  function After(t: Held, key: string, body: Body, m: Meta, fault: Option<Error>): Held {
    TierPut(t, key, body, m, fault).0
  }

  function Fault(faults: map<int, Error>, j: int): Option<Error> {
    if j in faults then Some(faults[j]) else None
  }

  /** Tiers say a key exists only when it does. */
  ghost predicate Truthful(faults: map<int, Error>) {
    forall j :: j in faults ==> faults[j] != Exists
  }

  /** Every object carries the length it was stored with. */
  ghost predicate Sized(tiers: seq<Held>) {
    forall j, k :: 0 <= j < |tiers| && k in tiers[j] ==> tiers[j][k].meta.size == |tiers[j][k].body|
  }

  /* ---- the chain as one map ---- */

  /** The frontmost tier from i on that holds the key and is not down; |tiers| when there is none. */
  function FirstUp(tiers: seq<Held>, down: set<int>, key: string, i: nat): (r: nat)
    requires i <= |tiers|
    ensures i <= r <= |tiers|
    ensures r < |tiers| ==> key in tiers[r] && r !in down
    ensures forall j :: i <= j < r ==> j in down || key !in tiers[j]
    decreases |tiers| - i
  {
    if i == |tiers| || (key in tiers[i] && i !in down) then i else FirstUp(tiers, down, key, i + 1)
  }

  /** What the chain holds for a key. */
  function View(tiers: seq<Held>, key: string): Option<Object> {
    var i := FirstUp(tiers, {}, key, 0);
    if i < |tiers| then Some(tiers[i][key]) else None
  }

  lemma {:induction false} FirstUpIs(tiers: seq<Held>, down: set<int>, key: string, i: nat, r: nat)
    requires i <= r <= |tiers| && (r < |tiers| ==> key in tiers[r] && r !in down)
    requires forall j :: i <= j < r ==> j in down || key !in tiers[j]
    ensures FirstUp(tiers, down, key, i) == r
    decreases r - i
  {
    if i < r {
      FirstUpIs(tiers, down, key, i + 1, r);
    }
  }

  /** The view is decided by the tiers up to the first that holds the key. */
  lemma ViewIs(tiers: seq<Held>, key: string, r: nat)
    requires r <= |tiers| && (r < |tiers| ==> key in tiers[r])
    requires forall j :: 0 <= j < r ==> key !in tiers[j]
    ensures View(tiers, key) == if r < |tiers| then Some(tiers[r][key]) else None
  {
    FirstUpIs(tiers, {}, key, 0, r);
  }

  lemma ViewCongruent(before: seq<Held>, after: seq<Held>, key: string)
    requires |before| == |after|
    requires forall j :: 0 <= j < |before| ==> Same(before[j], after[j], key)
    ensures View(before, key) == View(after, key)
  {
    var r := FirstUp(before, {}, key, 0);
    assert forall j :: 0 <= j < |before| ==> Same(before[j], after[j], key);
    ViewIs(after, key, r);
  }

  /** Two states of a tier agree on a key. */
  predicate Same(t: Held, u: Held, key: string) {
    (key in t <==> key in u) && (key in t ==> t[key] == u[key])
  }

  /* ---- copying forward ---- */

  /** The tiers after a hit at tier at was offered to every tier in front of it. */
  ghost predicate Forwarded(before: seq<Held>, after: seq<Held>, key: string, o: Object, at: nat)
    requires at <= |before|
  {
    && |after| == |before|
    && (forall j :: at <= j < |before| ==> after[j] == before[j])
    && (forall j :: 0 <= j < at ==> after[j] == before[j] || after[j] == before[j][key := o])
  }

  /** Whichever copies landed, a forward from the first tier holding the key changes nothing a
      caller can see; from a later one it may only replace what is seen by what was found. */
  lemma ForwardKeepsView(before: seq<Held>, after: seq<Held>, key: string, o: Object, at: nat)
    requires at < |before| && key in before[at] && before[at][key] == o
    requires Forwarded(before, after, key, o, at)
    ensures forall k :: k != key ==> View(after, k) == View(before, k)
    ensures View(after, key) == View(before, key) || View(after, key) == Some(o)
    ensures FirstUp(before, {}, key, 0) == at ==> View(after, key) == View(before, key)
  {
    forall k | k != key ensures View(after, k) == View(before, k) {
      ViewCongruent(before, after, k);
    }
    var r := FirstUp(after, {}, key, 0);
    var q := FirstUp(before, {}, key, 0);
    assert q <= at && r <= q;
    assert after[r] == before[r] || after[r] == before[r][key := o];
  }

  /** Nothing between two tiers that hold the key misses it. */
  ghost predicate Gapless(tiers: seq<Held>, key: string) {
    forall a, b, c :: 0 <= a <= b <= c < |tiers| && key in tiers[a] && key in tiers[c] ==> key in tiers[b]
  }

  /** The order of the copies leaves no gap exactly when every tier in front of one that refused
      its copy refused too. */
  lemma ForwardGapless(before: seq<Held>, after: seq<Held>, key: string, o: Object, at: nat, faults: map<int, Error>)
    requires at < |before| == |after| && key in before[at] && Gapless(before, key)
    requires forall j :: 0 <= j < at ==> key !in before[j]
    requires forall j :: 0 <= j < at ==> after[j] == After(before[j], key, o.body, o.meta, Fault(faults, j))
    requires forall j :: at <= j < |before| ==> after[j] == before[j]
    ensures Gapless(after, key) <==> forall i, j :: 0 <= i < j < at && j in faults ==> i in faults
  {
    assert forall j :: 0 <= j < at ==> (key in after[j] <==> j !in faults);
    if i, j :| 0 <= i < j < at && j in faults && i !in faults {
      assert key in after[i] && key !in after[j] && key in after[at];
      assert !Gapless(after, key);
    } else {
      forall a, b, c | 0 <= a <= b <= c < |after| && key in after[a] && key in after[c] ensures key in after[b] {
        if at <= b {
          assert key in before[at] && key in before[c];
        }
      }
    }
  }

  /** What Get answers: tier 0 may be down and is passed over, a tier behind it that fails before
      a hit ends the search, and a body that is not small needs a temp file. */
  ghost function Answer(tiers: seq<Held>, down: set<int>, key: string, spillFails: bool): Result<Object> {
    var at := FirstUp(tiers, down, key, 0);
    if exists d :: 1 <= d < |tiers| && d <= at && d in down then Err(Broken)
    else if at == |tiers| then Err(NotFound)
    else if at > 0 && !Small(tiers[at][key].meta) && spillFails then Err(Broken)
    else Ok(tiers[at][key])
  }

  /** The tiers after a forward from tier at that found the temp file, if it needs one, up to lost. */
  function ForwardAll(tiers: seq<Held>, key: string, o: Object, at: nat, faults: map<int, Error>,
                      lost: int): seq<Held> {
    seq(|tiers|, j requires 0 <= j < |tiers| =>
      if j < at && (Small(o.meta) || lost <= j) then After(tiers[j], key, o.body, o.meta, Fault(faults, j))
          else tiers[j])
  }

  /** What a whole Get returns and leaves, when nothing else touches the tiers meanwhile. */
  datatype Got = Got(r: Result<Object>, tiers: seq<Held>)

  ghost function Getting(tiers: seq<Held>, down: set<int>, key: string, faults: map<int, Error>,
                         spillFails: bool, lost: int, gone: bool): Got {
    var at := FirstUp(tiers, down, key, 0);
    match Answer(tiers, down, key, spillFails)
    case Err(e) => Got(Err(e), tiers)
    case Ok(o) =>
      Got(if gone && at > 0 && !Small(o.meta) then Err(Broken)
          else Ok(o), ForwardAll(tiers, key, o, at, faults, lost))
  }

  /** The search has come to tier i: the front failed or lacks the key, those after it lack it. */
  ghost predicate Passed(tiers: seq<Held>, down: set<int>, key: string, i: nat) {
    && 1 <= i
    && (|tiers| > 0 ==> 0 in down || key !in tiers[0])
    && (forall j :: 1 <= j < i && j < |tiers| ==> j !in down && key !in tiers[j])
  }

  /** What a tier shows once a copy was offered to it: its own if it failed or has a write-once one
      already, otherwise the copy; other keys stay. */
  ghost predicate Offered(before: Held, after: Held, key: string, body: Body, m: Meta, failed: bool) {
    after == if failed || (m.immutable && key in before) then before
             else before[key := Object(body, m.(size := |body|))]
  }

  /** A search that ends without a hit says why and changes nothing. */
  lemma GetMisses(tiers: seq<Held>, down: set<int>, key: string, faults: map<int, Error>, spillFails: bool, lost: int,
                  gone: bool, i: nat)
    requires Passed(tiers, down, key, i) && (i <= |tiers| || |tiers| == 0)
    ensures i >= |tiers| ==> Getting(tiers, down, key, faults, spillFails, lost, gone) == Got(Err(NotFound), tiers)
    ensures i < |tiers| && i in down ==>
              Getting(tiers, down, key, faults, spillFails, lost, gone) == Got(Err(Broken), tiers)
  {
    if i >= |tiers| {
      FirstUpIs(tiers, down, key, 0, |tiers|);
    }
  }

  /** A hit in the front tier is the answer, and nothing is copied. */
  lemma GetHitsFront(tiers: seq<Held>, down: set<int>, key: string, faults: map<int, Error>, spillFails: bool,
                     lost: int, gone: bool)
    requires |tiers| > 0 && 0 !in down && key in tiers[0]
    ensures Getting(tiers, down, key, faults, spillFails, lost, gone) == Got(Ok(tiers[0][key]), tiers)
  {
    FirstUpIs(tiers, down, key, 0, 0);
    assert ForwardAll(tiers, key, tiers[0][key], 0, faults, lost) == tiers;
  }

  /** A hit further back is the answer, and every tier in front is offered it: each that does not
      fail and has no write-once copy of its own holds it afterwards. */
  lemma GetFills(tiers: seq<Held>, down: set<int>, key: string, faults: map<int, Error>, spillFails: bool, lost: int,
                 gone: bool, i: nat)
    requires Passed(tiers, down, key, i) && i < |tiers| && i !in down && key in tiers[i]
    ensures var o, g := tiers[i][key], Getting(tiers, down, key, faults, spillFails, lost, gone);
            if !Small(o.meta) && spillFails then g == Got(Err(Broken), tiers)
            else
              && g.r == (if gone && !Small(o.meta) then Err(Broken) else Ok(o))
              && |g.tiers| == |tiers| && g.tiers[i..] == tiers[i..]
              && (forall j :: 0 <= j < i ==>
                    Offered(tiers[j], g.tiers[j], key, o.body, o.meta, j in faults || (!Small(o.meta) && j < lost)))
  {
    hide Small;
    FirstUpIs(tiers, down, key, 0, i);
    var o := tiers[i][key];
    var all := ForwardAll(tiers, key, o, i, faults, lost);
    assert all[i..] == tiers[i..];
  }

  /* ---- buffering ---- */

  /** What a multi-tier Put keeps of a body: a small declared size is read one byte past. */
  function Buffered(body: Body, m: Meta): Body {
    if Small(m) && m.size + 1 < |body| then body[..m.size + 1] else body
  }

  /** The whole body is stored unless a small declared size falls short of it by two or more. */
  lemma BufferedWhole(body: Body, m: Meta)
    ensures Buffered(body, m) == body <==> !(0 < m.size <= THRESHOLD && |body| > m.size + 1)
    ensures Buffered(body, m) <= body
    ensures Buffered(body, m) != body ==> |Buffered(body, m)| == m.size + 1
  {
    if Small(m) && m.size + 1 < |body| {
      assert |Buffered(body, m)| < |body|;
    }
  }

  /** A put handed to write-behind. */
  datatype Upload = Upload(tier: nat, key: string, body: Body, meta: Meta)

  /** What a Put's tail leaves in the queue: an upload for each tier that took one, front to back. */
  function Handed(tiers: nat, takes: set<int>, key: string, body: Body, m: Meta, i: nat): (r: seq<Upload>)
    decreases tiers - i
  {
    if i >= tiers then []
    else (if i in takes then [Upload(i, key, body, m)] else []) + Handed(tiers, takes, key, body, m, i + 1)
  }

  /** What a whole Put returns, leaves and hands over, its body once read. */
  datatype PutDone = PutDone(r: Result<()>, tiers: seq<Held>, handed: seq<Upload>)

  function Putting(tiers: seq<Held>, behind: bool, key: string, body: Body, m: Meta,
                   faults: map<int, Error>, takes: set<int>): PutDone {
    if |tiers| == 0 then PutDone(Err(Broken), tiers, [])
    else
      var kept := if |tiers| == 1 then body else Buffered(body, m);
      var meta := if |tiers| == 1 then m else m.(size := |kept|);
      var front := TierPut(tiers[0], key, kept, meta, Fault(faults, 0)).1;
      if front.Err? && (|tiers| == 1 || front.error != Exists) then PutDone(front, tiers, [])
      else PutDone(Ok(()), WriteAll(tiers, behind, key, kept, meta, faults, 0),
                   if behind then Handed(|tiers|, takes, key, kept, meta, 1) else [])
  }

  /** The tiers after those from i on had their turn; write-behind leaves all but the first alone. */
  function WriteAll(tiers: seq<Held>, behind: bool, key: string, body: Body, m: Meta,
                    faults: map<int, Error>, i: nat): seq<Held> {
    seq(|tiers|, j requires 0 <= j < |tiers| =>
      if j < i || (j > 0 && behind) then tiers[j] else After(tiers[j], key, body, m, Fault(faults, j)))
  }

  /** A front tier that fails is the answer, and nothing was written anywhere. */
  lemma PutFails(tiers: seq<Held>, behind: bool, key: string, body: Body, m: Meta, faults: map<int, Error>,
                 takes: set<int>)
    requires |tiers| > 0 && 0 in faults && (|tiers| > 1 ==> faults[0] != Exists)
    ensures Putting(tiers, behind, key, body, m, faults, takes) == PutDone(Err(faults[0]), tiers, [])
  {
  }

  /** A single tier gets the body as it is and its answer is the answer. */
  lemma PutPasses(tiers: seq<Held>, behind: bool, key: string, body: Body, m: Meta, faults: map<int, Error>,
                  takes: set<int>)
    requires |tiers| == 1 && 0 !in faults
    ensures var done := Putting(tiers, behind, key, body, m, faults, takes);
            && done.r == (if m.immutable && key in tiers[0] then Err(Exists) else Ok(())) && done.handed == []
            && |done.tiers| == 1 && Offered(tiers[0], done.tiers[0], key, body, m, false)
  {
  }

  /** With several tiers and a front that does not fail the Put is nil, and every tier is offered the
      buffered body: inline, or behind the first through the queue, to the tiers it takes, in order. */
  lemma PutReaches(tiers: seq<Held>, behind: bool, key: string, body: Body, m: Meta, faults: map<int, Error>,
                   takes: set<int>)
    requires |tiers| > 1 && 0 !in faults
    ensures var done, kept := Putting(tiers, behind, key, body, m, faults, takes), Buffered(body, m);
            && done.r == Ok(()) && |done.tiers| == |tiers|
            && (forall j :: 0 <= j < |tiers| && (j == 0 || !behind) ==>
                Offered(tiers[j], done.tiers[j], key, kept, m, j in faults))
            && (behind ==> done.tiers[1..] == tiers[1..])
            && (!behind ==> done.handed == [])
            && (behind ==>
                  && (forall u :: u in done.handed <==>
                        u == Upload(u.tier, key, kept, m.(size := |kept|)) && 1 <= u.tier < |tiers|
                            && u.tier in takes)
                  && (forall a, b :: 0 <= a < b < |done.handed| ==> done.handed[a].tier < done.handed[b].tier))
  {
    hide Buffered, Handed;
    var kept := Buffered(body, m);
    HandedIs(|tiers|, takes, key, kept, m.(size := |kept|), 1);
    var all := WriteAll(tiers, behind, key, kept, m.(size := |kept|), faults, 0);
    assert behind ==> all[1..] == tiers[1..];
  }

  lemma {:induction false} HandedIs(n: nat, takes: set<int>, key: string, body: Body, m: Meta, i: nat)
    ensures var h := Handed(n, takes, key, body, m, i);
            && (forall u :: u in h <==> u == Upload(u.tier, key, body, m) && i <= u.tier < n && u.tier in takes)
            && (forall a, b :: 0 <= a < b < |h| ==> h[a].tier < h[b].tier)
    decreases n - i
  {
    if i < n {
      HandedIs(n, takes, key, body, m, i + 1);
      var rest := Handed(n, takes, key, body, m, i + 1);
      assert forall a :: 0 <= a < |rest| ==> rest[a] in rest;
    }
  }

  lemma HandedNone(takes: set<int>, key: string, body: Body, m: Meta)
    ensures Handed(1, takes, key, body, m, 1) == []
  {
  }

  lemma WrittenAll(before: seq<Held>, after: seq<Held>, behind: bool, key: string, body: Body, m: Meta,
                   faults: map<int, Error>)
    requires |before| == |after| > 0 && after[0] == After(before[0], key, body, m, Fault(faults, 0))
    requires behind ==> after[1..] == before[1..]
    requires !behind ==>
               forall j :: 1 <= j < |before| ==> after[j] == After(before[j], key, body, m, Fault(faults, j))
    ensures after == WriteAll(before, behind, key, body, m, faults, 0)
  {
    hide After;
    assert behind ==>
        forall j :: 1 <= j < |before| ==> after[j] == after[1..][j - 1] == before[1..][j - 1] == before[j];
  }

  /** Writing one key disturbs no other. */
  lemma PutView(before: seq<Held>, after: seq<Held>, key: string)
    requires |before| == |after|
    requires forall j, k :: 0 <= j < |before| && k != key ==> Same(before[j], after[j], k)
    ensures forall k :: k != key ==> View(after, k) == View(before, k)
  {
    forall k | k != key ensures View(after, k) == View(before, k) {
      assert forall j :: 0 <= j < |before| ==> Same(before[j], after[j], k);
      ViewCongruent(before, after, k);
    }
  }

  /** Once the front tier took a Put or already had the key, the chain shows what it holds,
      whatever the tiers behind did. */
  lemma PutShows(before: seq<Held>, after: seq<Held>, key: string, body: Body, m: Meta, faults: map<int, Error>)
    requires |before| == |after| > 0
    requires forall j :: 0 <= j < |before| ==>
                 after[j] == before[j] || after[j] == After(before[j], key, body, m, Fault(faults, j))
    ensures forall k :: k != key ==> View(after, k) == View(before, k)
    ensures key in before[0] ==> View(before, key) == Some(before[0][key])
    ensures key in after[0] ==> View(after, key) == Some(after[0][key])
  {
    PutView(before, after, key);
  }

  lemma AfterSized(tiers: seq<Held>, i: nat, key: string, body: Body, m: Meta, fault: Option<Error>)
    requires Sized(tiers) && i < |tiers|
    ensures Sized(tiers[i := After(tiers[i], key, body, m, fault)])
  {
  }

  class Chain {
    var tiers: seq<Held>
    const writeBehind: bool
    /** Uploads taken and not yet written. */
    var queue: seq<Upload>

    ghost predicate Valid()
      reads this
    {
      Sized(tiers) && forall u :: u in queue ==> u.tier < |tiers|
    }

    constructor (tiers: seq<Held>, writeBehind: bool)
      requires Sized(tiers)
      ensures Valid() && this.tiers == tiers && this.writeBehind == writeBehind && queue == []
    {
      this.tiers, this.writeBehind, queue := tiers, writeBehind, [];
    }

    /** Offers what tier at answered to every tier in front of it, nearest last. faults: tiers
        whose Put fails. lost: the temp file opens for no tier in front of this one. */
    method Forward(key: string, o: Object, at: nat, faults: map<int, Error>, lost: int)
      requires Valid() && at < |tiers| && key in tiers[at] && o == tiers[at][key]
      modifies this`tiers
      ensures Valid() && Forwarded(old(tiers), tiers, key, o, at)
      ensures tiers == ForwardAll(old(tiers), key, o, at, faults, lost)
    {
      var j := at - 1;
      while j >= 0
        invariant -1 <= j < at < |tiers| && Valid()
        invariant Forwarded(old(tiers), tiers, key, o, at)
        invariant forall h :: 0 <= h <= j ==> tiers[h] == old(tiers)[h]
        invariant j < at - 1 ==> Small(o.meta) || lost <= j + 1
        invariant forall h :: j < h < at ==> tiers[h] == After(old(tiers)[h], key, o.body, o.meta, Fault(faults, h))
      {
        if !Small(o.meta) && j < lost {
          break;
        }
        tiers := tiers[j := After(tiers[j], key, o.body, o.meta, Fault(faults, j))];
        j := j - 1;
      }
    }

    /** down: tiers whose read fails, the body's stream included. spillFails: the temp file cannot
        be made or filled. gone: it cannot be opened for the caller. Without failures Get answers
        from the view, and whatever fails on the way forward it leaves the view as it was. */
    method Get(key: string, down: set<int>, faults: map<int, Error>, spillFails: bool, lost: int, gone: bool)
               returns (r: Result<Object>)
      requires Valid()
      modifies this`tiers
      ensures Valid() && |tiers| == |old(tiers)|
      ensures Got(r, tiers) == Getting(old(tiers), down, key, faults, spillFails, lost, gone)
      ensures forall k :: k != key || 0 !in down ==> View(tiers, k) == View(old(tiers), k)
      ensures r.Ok? ==> View(tiers, key) == View(old(tiers), key) || View(tiers, key) == Some(r.value)
      ensures down == {} && !spillFails && !gone ==>
                r == match View(old(tiers), key)
                     case Some(o) => Ok(o)
                     case None => Err(NotFound)
    {
      if |tiers| > 0 && 0 !in down && key in tiers[0] {
        return Ok(tiers[0][key]);
      }
      var i := 1;
      while i < |tiers|
        invariant 1 <= i && (i <= |tiers| || |tiers| == 0) && tiers == old(tiers)
        invariant forall j :: 0 <= j < i && j < |tiers| ==> key !in tiers[j] || j in down
        invariant forall j :: 1 <= j < i ==> j !in down
      {
        if i in down {
          return Err(Broken);
        }
        if key in tiers[i] {
          var o := tiers[i][key];
          if !Small(o.meta) {
            if spillFails {
              return Err(Broken);
            }
            o := o.(meta := o.meta.(size := |o.body|));
          }
          FirstUpIs(tiers, down, key, 0, i);
          if 0 !in down {
            FirstUpIs(tiers, {}, key, 0, i);
          }
          Forward(key, o, i, faults, lost);
          ForwardKeepsView(old(tiers), tiers, key, o, i);
          if gone && !Small(o.meta) {
            return Err(Broken);
          }
          return Ok(o);
        }
        i := i + 1;
      }
      FirstUpIs(tiers, down, key, 0, |tiers|);
      return Err(NotFound);
    }

    /** The front tier alone decides: an error leaves everything as it was, nil means the chain now
        shows this body or the front tier already had an immutable one. readable: the body could
        be read and buffered. takes: tiers whose upload the queue accepts; the rest are dropped. */
    method Put(key: string, body: Body, m: Meta, readable: bool, faults: map<int, Error>, takes: set<int>)
               returns (r: Result<()>)
      requires Valid() && Truthful(faults)
      modifies this
      ensures Valid() && |tiers| == |old(tiers)|
      ensures r.Err? ==> tiers == old(tiers) && queue == old(queue)
      ensures |tiers| == 0 ==> r == Err(Broken)
      ensures readable || |tiers| <= 1 ==>
                var done := Putting(old(tiers), writeBehind, key, body, m, faults, takes);
                r == done.r && tiers == done.tiers && queue == old(queue) + done.handed
      ensures |tiers| > 1 ==> (r.Ok? <==> readable && 0 !in faults)
      ensures r.Ok? ==> View(tiers, key) ==
                        if m.immutable && key in old(tiers)[0] then View(old(tiers), key)
                        else Some(Stored(if |tiers| > 1 then Buffered(body, m) else body, m))
      ensures forall k :: k != key ==> View(tiers, k) == View(old(tiers), k)
    {
      hide View, FirstUp, Buffered, Handed, Sized, Small, WriteAll;
      if |tiers| == 0 {
        return Err(Broken);
      }
      if |tiers| == 1 {
        var out := TierPut(tiers[0], key, body, m, Fault(faults, 0));
        AfterSized(tiers, 0, key, body, m, Fault(faults, 0));
        tiers := tiers[0 := out.0];
        PutShows(old(tiers), tiers, key, body, m, faults);
        HandedNone(takes, key, body, m);
        WrittenAll(old(tiers), tiers, writeBehind, key, body, m, faults);
        assert queue + [] == queue;
        return out.1;
      }
      if !readable {
        return Err(Broken);
      }
      var kept := Buffered(body, m);
      var meta := m.(size := |kept|);
      assert Stored(kept, meta) == Stored(kept, m);
      var front := TierPut(tiers[0], key, kept, meta, Fault(faults, 0));
      if front.1.Err? && front.1.error != Exists {
        return front.1;
      }
      AfterSized(tiers, 0, key, kept, meta, Fault(faults, 0));
      tiers := tiers[0 := front.0];
      WriteRest(key, kept, meta, faults, takes);
      PutShows(old(tiers), tiers, key, kept, meta, faults);
      WrittenAll(old(tiers), tiers, writeBehind, key, kept, meta, faults);
      assert old(queue) + [] == old(queue);
      return Ok(());
    }

    /** The tiers behind the first, inline or through the queue; what fails or is declined is dropped. */
    method WriteRest(key: string, body: Body, m: Meta, faults: map<int, Error>, takes: set<int>)
      requires Valid() && |tiers| > 0 && m.size == |body|
      modifies this
      ensures Valid() && |tiers| == |old(tiers)| && tiers[0] == old(tiers)[0]
      ensures writeBehind ==> tiers == old(tiers) && queue == old(queue) + Handed(|tiers|, takes, key, body, m, 1)
      ensures !writeBehind ==> queue == old(queue) && forall j :: 1 <= j < |tiers| ==>
                tiers[j] == After(old(tiers)[j], key, body, m, Fault(faults, j))
    {
      var i := 1;
      while i < |tiers|
        invariant 1 <= i <= |tiers| == |old(tiers)| && Valid()
        invariant tiers[0] == old(tiers)[0] && forall j :: i <= j < |tiers| ==> tiers[j] == old(tiers)[j]
        invariant writeBehind ==> tiers == old(tiers)
        invariant writeBehind ==>
                    queue + Handed(|tiers|, takes, key, body, m, i)
                    == old(queue) + Handed(|tiers|, takes, key, body, m, 1)
        invariant !writeBehind ==> queue == old(queue) && forall j :: 1 <= j < i ==>
                    tiers[j] == After(old(tiers)[j], key, body, m, Fault(faults, j))
      {
        if writeBehind {
          if i in takes {
            queue := queue + [Upload(i, key, body, m)];
          }
        } else {
          tiers := tiers[i := After(tiers[i], key, body, m, Fault(faults, i))];
        }
        i := i + 1;
      }
    }

    /** Any upload, for workers finish in any order, reaches its tier, or fails and is gone. It never
        hides what a nearer tier holds. */
    method Land(i: nat, fault: Option<Error>)
      requires Valid() && i < |queue|
      modifies this
      ensures Valid() && queue == old(queue)[..i] + old(queue)[i + 1..]
      ensures var u := old(queue)[i];
              tiers == old(tiers)[u.tier := After(old(tiers)[u.tier], u.key, u.body, u.meta, fault)]
      ensures forall k :: k != old(queue)[i].key ==> View(tiers, k) == View(old(tiers), k)
      ensures var u := old(queue)[i];
              FirstUp(old(tiers), {}, u.key, 0) < u.tier ==> View(tiers, u.key) == View(old(tiers), u.key)
    {
      var u := queue[i];
      queue := queue[..i] + queue[i + 1..];
      tiers := tiers[u.tier := After(tiers[u.tier], u.key, u.body, u.meta, fault)];
      PutView(old(tiers), tiers, u.key);
      var at := FirstUp(old(tiers), {}, u.key, 0);
      if at < u.tier {
        ViewIs(tiers, u.key, at);
      }
    }

    /** The frontmost tier that can be asked and has it; a tier's failure is never the answer. */
    method Stat(key: string, down: set<int>) returns (r: Result<Meta>)
      requires Valid()
      ensures r == (var at := FirstUp(tiers, down, key, 0);
                    if at < |tiers| then Ok(tiers[at][key].meta) else Err(NotFound))
      ensures down == {} ==>
                r == match View(tiers, key)
                     case Some(o) => Ok(o.meta)
                     case None => Err(NotFound)
    {
      var i := 0;
      while i < |tiers|
        invariant 0 <= i <= |tiers|
        invariant forall j :: 0 <= j < i ==> j in down || key !in tiers[j]
      {
        if i !in down && key in tiers[i] {
          FirstUpIs(tiers, down, key, 0, i);
          return Ok(tiers[i][key].meta);
        }
        i := i + 1;
      }
      FirstUpIs(tiers, down, key, 0, i);
      return Err(NotFound);
    }

    /** Every tier is tried; the errors name, in order, exactly the tiers still as they were. */
    method Delete(key: string, stuck: set<int>) returns (errs: seq<int>)
      requires Valid()
      modifies this`tiers
      ensures Valid() && |tiers| == |old(tiers)|
      ensures forall j :: 0 <= j < |tiers| ==> tiers[j] == if j in errs then old(tiers)[j] else old(tiers)[j] - {key}
      ensures forall j :: j in errs <==> j in stuck && 0 <= j < |tiers|
      ensures forall a, b :: 0 <= a < b < |errs| ==> errs[a] < errs[b]
      ensures errs == [] ==> View(tiers, key) == None
      ensures View(tiers, key).Some? ==>
                exists j :: j in errs && key in old(tiers)[j] && View(tiers, key) == Some(old(tiers)[j][key])
      ensures forall k :: k != key ==> View(tiers, k) == View(old(tiers), k)
    {
      errs := [];
      var i := 0;
      while i < |tiers|
        invariant 0 <= i <= |tiers| == |old(tiers)| && Valid()
        invariant forall j :: 0 <= j < i ==> tiers[j] == if j in errs then old(tiers)[j] else old(tiers)[j] - {key}
        invariant forall j :: i <= j < |tiers| ==> tiers[j] == old(tiers)[j]
        invariant forall j :: j in errs <==> j in stuck && 0 <= j < i
        invariant forall a :: 0 <= a < |errs| ==> errs[a] < i
        invariant forall a, b :: 0 <= a < b < |errs| ==> errs[a] < errs[b]
      {
        if i in stuck {
          errs := errs + [i];
        } else {
          tiers := tiers[i := tiers[i] - {key}];
        }
        i := i + 1;
      }
      forall k | k != key ensures View(tiers, k) == View(old(tiers), k) {
        ViewCongruent(old(tiers), tiers, k);
      }
    }
  }
}
