/** Deleting a prefix of the bucket in batches (engine/bucket/bucket.go, DeletePrefix). */
module BucketDelete {
  import opened Tiers

  const DELETE_BATCH := 1000

  datatype Listed = Listed(key: string, size: Option<int>)

  /** One answer of the store to a listing: a page that may say there is more, or an error. */
  datatype Answer = Page(contents: seq<Listed>, truncated: bool, token: bool) | ListError

  predicate More(a: Answer) {
    a.Page? && a.truncated && a.token
  }

  /** The answers of one call: as long as there is more, and then one that ends it. */
  predicate Complete(answers: seq<Answer>) {
    answers != [] && (forall i :: 0 <= i < |answers| - 1 ==> More(answers[i])) && !More(answers[|answers| - 1])
  }

  /** Everything the store listed, in order. */
  function All(answers: seq<Answer>): seq<Listed> {
    if answers == [] then [] else (if answers[0].Page? then answers[0].contents else []) + All(answers[1..])
  }

  function Flat(batches: seq<seq<Listed>>): seq<Listed>
    decreases |batches|
  {
    if batches == [] then [] else Flat(batches[..|batches| - 1]) + batches[|batches| - 1]
  }

  function SizeOf(s: seq<Listed>): int
    decreases |s|
  {
    if s == [] then 0 else SizeOf(s[..|s| - 1]) + (match s[|s| - 1].size case None => 0 case Some(n) => n)
  }

  lemma {:induction false} SizeConcat(a: seq<Listed>, b: seq<Listed>)
    ensures SizeOf(a + b) == SizeOf(a) + SizeOf(b)
    decreases |b|
  {
    if b == [] {
      assert a + b == a;
    } else {
      SizeConcat(a, b[..|b| - 1]);
      assert (a + b)[..|a + b| - 1] == a + b[..|b| - 1];
    }
  }

  lemma FlatLast(batches: seq<seq<Listed>>, b: seq<Listed>)
    ensures Flat(batches + [b]) == Flat(batches) + b
    ensures SizeOf(Flat(batches) + b) == SizeOf(Flat(batches)) + SizeOf(b)
  {
    assert (batches + [b])[..|batches|] == batches;
    SizeConcat(Flat(batches), b);
  }

  lemma SizeNone()
    ensures SizeOf([]) == 0
  {
  }

  lemma {:induction false} AllSplit(answers: seq<Answer>, i: nat)
    requires i <= |answers|
    ensures All(answers) == All(answers[..i]) + All(answers[i..])
  {
    if i > 0 {
      AllSplit(answers[1..], i - 1);
      assert answers[..i][1..] == answers[1..][..i - 1];
      assert answers[1..][i - 1..] == answers[i..];
    } else {
      assert answers[0..] == answers;
    }
  }

  lemma AllNext(answers: seq<Answer>, i: nat)
    requires i < |answers| && answers[i].Page?
    ensures All(answers[..i + 1]) == All(answers[..i]) + answers[i].contents
    ensures All(answers[..i]) + answers[i].contents <= All(answers)
  {
    AllSplit(answers[..i + 1], i);
    assert answers[..i + 1][..i] == answers[..i];
    assert answers[..i + 1][i..] == [answers[i]];
    AllSplit(answers, i + 1);
  }

  /** The state DeletePrefix and its flush closure share. accepts(i) says whether the store
      took batch i without a refusal. */
  class Wipe {
    const accepts: nat -> bool
    var pending: seq<Listed>
    var pendingBytes: int
    var entries: int
    var removed: int
    /** The batches asked for, in order. */
    var sent: seq<seq<Listed>>
    /** How many of them were taken, and everything read from the listing so far. */
    ghost var good: nat
    ghost var seen: seq<Listed>

    constructor (accepts: nat -> bool)
      ensures this.accepts == accepts && Open() && pending == [] && seen == []
    {
      this.accepts := accepts;
      pending, pendingBytes, entries, removed, sent := [], 0, 0, 0, [];
      good, seen := 0, [];
    }

    /** The counts are those of the batches taken, and listed keys are in a batch taken or pending. */
    ghost predicate Books()
      reads this
    {
      && good <= |sent| <= good + 1
      && Flat(sent[..good]) + pending == seen
      && entries == |Flat(sent[..good])| && removed == SizeOf(Flat(sent[..good])) && pendingBytes == SizeOf(pending)
      && (forall i :: 0 <= i < |sent| ==> 1 <= |sent[i]| <= DELETE_BATCH)
      && (forall i :: 0 <= i < |sent| - 1 ==> |sent[i]| == DELETE_BATCH)
      && (forall i :: 0 <= i < good ==> accepts(i))
      && (good < |sent| ==> !accepts(good))
    }

    /** Nothing has failed, every batch sent was full and the next one is not. */
    ghost predicate Open()
      reads this
    {
      Books() && good == |sent| && |pending| < DELETE_BATCH && forall i :: 0 <= i < |sent| ==>
          |sent[i]| == DELETE_BATCH
    }

    method Flush() returns (ok: bool)
      requires Books() && good == |sent| && |pending| <= DELETE_BATCH
      requires forall i :: 0 <= i < |sent| ==> |sent[i]| == DELETE_BATCH
      modifies this
      ensures Books() && seen == old(seen)
      ensures ok ==> good == |sent| && pending == [] && Flat(sent) == seen
      ensures !ok ==> good < |sent|
      ensures sent == if old(pending) == [] then old(sent) else old(sent) + [old(pending)]
    {
      hide Flat, SizeOf;
      assert sent[..|sent|] == sent;
      if pending == [] {
        return true;
      }
      var batch := sent + [pending];
      assert batch[..|batch|] == batch && batch[..|sent|] == sent;
      FlatLast(sent, pending);
      SizeNone();
      ok := accepts(|sent|);
      sent := batch;
      if !ok {
        return false;
      }
      good := good + 1;
      entries := entries + |pending|;
      removed := removed + pendingBytes;
      pending, pendingBytes := [], 0;
    }

    method Append(o: Listed)
      requires Open()
      modifies this`pending, this`pendingBytes, this`seen
      ensures Books() && |pending| == |old(pending)| + 1 && seen == old(seen) + [o]
    {
      assert (pending + [o])[..|pending|] == pending;
      assert Flat(sent[..good]) + pending + [o] == Flat(sent[..good]) + (pending + [o]);
      pending := pending + [o];
      if o.size.Some? {
        pendingBytes := pendingBytes + o.size.value;
      }
      seen := seen + [o];
    }

    /** One page of the listing. */
    method TakePage(contents: seq<Listed>) returns (ok: bool)
      requires Open()
      modifies this
      ensures Books()
      ensures ok ==> Open() && seen == old(seen) + contents
      ensures !ok ==> good < |sent| && seen <= old(seen) + contents
    {
      hide Flat, SizeOf;
      var j := 0;
      while j < |contents|
        invariant 0 <= j <= |contents| && Open() && seen == old(seen) + contents[..j]
      {
        assert old(seen) + contents[..j] + [contents[j]] == old(seen) + contents[..j + 1];
        Append(contents[j]);
        if |pending| == DELETE_BATCH {
          ok := Flush();
          if !ok {
            return false;
          }
        }
        j := j + 1;
      }
      assert contents[..|contents|] == contents;
      return true;
    }

    /** The batches taken carry, in order and once each, a prefix of what was listed - all of it
        when no error is returned - and the counts are exactly theirs, on the error paths too. */
    method Run(answers: seq<Answer>) returns (error: bool)
      requires Complete(answers) && Open() && seen == []
      modifies this
      ensures Books() && Flat(sent[..good]) <= All(answers)
      ensures !error ==> good == |sent| && Flat(sent) == All(answers)
      ensures !error ==> entries == |All(answers)| && removed == SizeOf(All(answers))
      ensures error <==> good < |sent| || answers[|answers| - 1].ListError?
    {
      hide Flat, SizeOf, All;
      AllNone();
      var i := 0;
      while true
        invariant 0 <= i < |answers| && Open() && seen == All(answers[..i])
        decreases |answers| - i
      {
        if answers[i].ListError? {
          AllSplit(answers, i);
          return true;
        }
        AllNext(answers, i);
        var ok := TakePage(answers[i].contents);
        if !ok {
          return true;
        }
        if !More(answers[i]) {
          break;
        }
        i := i + 1;
      }
      assert answers[..i + 1] == answers;
      var ok := Flush();
      assert ok ==> sent[..good] == sent;
      return !ok;
    }
  }

  lemma AllNone()
    ensures All([]) == []
  {
  }

  /** An object counts with its size, and with nothing when the store does not say. */
  lemma SizeOne(o: Listed)
    ensures SizeOf([o]) == if o.size.Some? then o.size.value else 0
    ensures Flat([[o]]) == [o]
  {
    assert [o][..0] == [] && [[o]][..0] == [];
  }
}
