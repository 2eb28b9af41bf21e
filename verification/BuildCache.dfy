/** The Go build cache over a tier: bytes first, then the record that names them
    (frontend/gobuild/gobuild.go). */
module BuildCache {
  import opened Tiers
  import opened ActionRecord

  /** An object; the body is kept as text because the record is text. */
  datatype Held = Held(text: string, size: int, modTime: Time, immutable: bool)

  type Objects = map<string, Held>

  /** The zero time.Time, as seconds since the epoch. */
  const ZERO := Time(-62135596800, 0)

  function ActionKey(prefix: string, id: string): string requires |id| >= 2 { Key(prefix, "action", id) }
  function OutputKey(prefix: string, id: string): string requires |id| >= 2 { Key(prefix, "output", id) }

  function Prefixes(legacy: string): seq<string> {
    if legacy == "" then [PREFIX] else [PREFIX, legacy]
  }

  function PrefixesFrom(legacy: string, first: string): seq<string> {
    [first] + Except(Prefixes(legacy), first)
  }

  function Except(ps: seq<string>, first: string): seq<string> {
    if ps == [] then [] else (if ps[0] == first then [] else [ps[0]]) + Except(ps[1..], first)
  }

  /** The order changes, the layouts asked do not. */
  lemma PrefixesFromMembers(legacy: string, first: string)
    requires first in Prefixes(legacy)
    ensures forall p :: p in PrefixesFrom(legacy, first) <==> p in Prefixes(legacy)
  {
    ExceptMembers(Prefixes(legacy), first);
  }

  lemma {:induction false} ExceptMembers(ps: seq<string>, first: string)
    ensures forall p :: p in Except(ps, first) <==> p in ps && p != first
  {
    if ps != [] {
      ExceptMembers(ps[1..], first);
      assert ps == [ps[0]] + ps[1..];
    }
  }

  lemma ExceptOne(p: string, ps: seq<string>, first: string)
    ensures Except([p] + ps, first) == (if p == first then [] else [p]) + Except(ps, first)
  {
    assert ([p] + ps)[1..] == ps;
  }

  /* ---- what a lookup finds ---- */

  function RecordAt(t: Objects, prefix: string, id: string): Option<Action>
    requires ValidId(id)
  {
    if ActionKey(prefix, id) !in t then None
    else match ParseAction(t[ActionKey(prefix, id)].text)
      case None => None
      case Some(a) => if ValidId(a.outputId) then Some(a) else None
  }

  /** The first layout with a usable record. */
  function Followed(t: Objects, ps: seq<string>, id: string): (r: Option<string>)
    requires ValidId(id)
    ensures r.Some? ==> r.value in ps && RecordAt(t, r.value, id).Some?
    ensures r.None? ==> forall p :: p in ps ==> RecordAt(t, p, id).None?
  {
    if ps == [] then None
    else if RecordAt(t, ps[0], id).Some? then Some(ps[0])
    else Followed(t, ps[1..], id)
  }

  /** The unusable records met on the way there. */
  function Junk(t: Objects, ps: seq<string>, id: string): (r: set<string>)
    requires ValidId(id)
    ensures forall k :: k in r ==> k in t && exists p :: p in ps && k == ActionKey(p, id) && RecordAt(t, p, id).None?
  {
    if ps == [] || RecordAt(t, ps[0], id).Some? then {}
    else (if ActionKey(ps[0], id) in t then {ActionKey(ps[0], id)} else {}) + Junk(t, ps[1..], id)
  }

  /** The first layout that holds the output. */
  function Located(t: Objects, ps: seq<string>, outputId: string): (r: Option<string>)
    requires ValidId(outputId)
    ensures r.Some? ==> r.value in ps && OutputKey(r.value, outputId) in t
    ensures r.None? ==> forall p :: p in ps ==> OutputKey(p, outputId) !in t
  {
    if ps == [] then None
    else if OutputKey(ps[0], outputId) in t then Some(ps[0])
    else Located(t, ps[1..], outputId)
  }

  /** What a hit reports; bytes are None only when the caller declined them. */
  datatype Hit = Hit(outputId: string, bytes: Option<string>, size: int, modTime: Time)

  datatype Answer = Answer(hit: Option<Hit>, objects: Objects)

  function Get(t: Objects, legacy: string, id: string, need: (string, Time) -> bool, stuck: set<string>): Answer
    requires ValidId(id)
  {
    var ps := Prefixes(legacy);
    var t1 := t - (Junk(t, ps, id) - stuck);
    match Followed(t, ps, id)
    case None => Answer(None, t1)
    case Some(from) =>
      var rec := RecordAt(t, from, id).value;
      if !need(rec.outputId, rec.modTime) then Answer(Some(Hit(rec.outputId, None, 0, rec.modTime)), t1)
      else match Located(t, PrefixesFrom(legacy, from), rec.outputId)
        case None => Answer(None, t1 - ({ActionKey(from, id)} - stuck))
        case Some(q) =>
          var o := t[OutputKey(q, rec.outputId)];
          Answer(Some(Hit(rec.outputId, Some(o.text), o.size, rec.modTime)), t1)
  }

  /** A record names the hit's output, and an output key holds the hit's bytes. */
  ghost predicate Backed(t: Objects, ps: seq<string>, id: string, h: Hit)
    requires ValidId(id)
  {
    && (exists p :: p in ps && RecordAt(t, p, id) == Some(Action(h.outputId, h.modTime)))
    && ValidId(h.outputId) && h.bytes.Some?
    && (exists q :: q in ps && OutputKey(q, h.outputId) in t && t[OutputKey(q, h.outputId)].text == h.bytes.value
                    && t[OutputKey(q, h.outputId)].size == h.size)
  }

  /** A hit carries the bytes an output key holds under the id a record names; a miss after a
      usable record means no layout holds that output, and the record is gone unless the
      tier refuses deletes; nothing but this action's own records is ever removed. */
  lemma GetSound(t: Objects, legacy: string, id: string, stuck: set<string>)
    requires ValidId(id)
    ensures var ps := Prefixes(legacy);
            var a := Get(t, legacy, id, (o, m) => true, stuck);
            && (a.hit.Some? ==> Backed(t, ps, id, a.hit.value))
            && (a.hit.None? ==> forall p :: Followed(t, ps, id) == Some(p) ==>
                  && (forall q :: q in ps ==> OutputKey(q, RecordAt(t, p, id).value.outputId) !in t)
                  && (ActionKey(p, id) in a.objects ==> ActionKey(p, id) in stuck))
            && (forall k :: k in a.objects ==> k in t && a.objects[k] == t[k])
            && (forall k :: k in t && k !in a.objects ==> exists p :: p in ps && k == ActionKey(p, id))
  {
    var ps := Prefixes(legacy);
    match Followed(t, ps, id)
    case None =>
    case Some(from) =>
      PrefixesFromMembers(legacy, from);
      var rec := RecordAt(t, from, id).value;
      assert RecordAt(t, from, id) == Some(Action(rec.outputId, rec.modTime));
  }

  /** The layouts in the order they are asked. */
  function Layouts(legacy: string): seq<string> {
    if legacy == "" then ["go/build"] else ["go/build", legacy]
  }

  /** The keys of the action's records in the first n layouts. */
  function RecordKeys(legacy: string, id: string, n: nat): set<string>
    requires ValidId(id) && n <= |Layouts(legacy)|
  {
    set j | 0 <= j < n :: ActionKey(Layouts(legacy)[j], id)
  }

  /** No layout has a usable record: a miss, and every unusable one is deleted. */
  lemma GetFindsNone(t: Objects, legacy: string, id: string, need: (string, Time) -> bool, stuck: set<string>)
    requires ValidId(id) && forall j :: 0 <= j < |Layouts(legacy)| ==> RecordAt(t, Layouts(legacy)[j], id).None?
    ensures Get(t, legacy, id, need, stuck) == Answer(None, t - (RecordKeys(legacy, id, |Layouts(legacy)|) - stuck))
  {
    hide RecordAt, Key;
    JunkIs(t, Layouts(legacy), id, |Layouts(legacy)|);
    FollowedIs(t, Layouts(legacy), id, |Layouts(legacy)|);
    JunkKeys(t, legacy, id, |Layouts(legacy)|, stuck);
  }

  /** The first layout with a usable record is followed, those before it lose theirs. A caller that
      declines the bytes is told id and time; otherwise the record's own layout is asked for the
      output first and the rest in order, and only if none has it does the record go. */
  lemma GetFollows(t: Objects, legacy: string, id: string, need: (string, Time) -> bool, stuck: set<string>, i: nat)
    requires ValidId(id) && i < |Layouts(legacy)| && RecordAt(t, Layouts(legacy)[i], id).Some?
    requires forall j :: 0 <= j < i ==> RecordAt(t, Layouts(legacy)[j], id).None?
    ensures var from := Layouts(legacy)[i];
            var rec := RecordAt(t, from, id).value;
            var a, t1 := Get(t, legacy, id, need, stuck), t - (RecordKeys(legacy, id, i) - stuck);
            if !need(rec.outputId, rec.modTime) then a == Answer(Some(Hit(rec.outputId, None, 0, rec.modTime)), t1)
            else
              && (forall p :: p in Layouts(legacy) && OutputKey(p, rec.outputId) in t
                              && (p == from || OutputKey(from, rec.outputId) !in t) ==>
                    var o := t[OutputKey(p, rec.outputId)];
                    a == Answer(Some(Hit(rec.outputId, Some(o.text), o.size, rec.modTime)), t1))
              && ((forall p :: p in Layouts(legacy) ==> OutputKey(p, rec.outputId) !in t) ==>
                    a == Answer(None, t1 - ({ActionKey(from, id)} - stuck)))
  {
    hide RecordAt, Key;
    FollowedIs(t, Layouts(legacy), id, i);
    JunkIs(t, Layouts(legacy), id, i);
    JunkKeys(t, legacy, id, i, stuck);
    FollowedValid(t, Layouts(legacy), id);
    var from := Layouts(legacy)[i];
    var o := RecordAt(t, from, id).value.outputId;
    var qs := PrefixesFrom(legacy, from);
    assert Layouts(legacy) == Prefixes(legacy);
    PrefixesFromMembers(legacy, from);
    PrefixesFromIs(legacy, from);
    hide PrefixesFrom, Located, Followed, Junk, RecordKeys;
    forall p | p in qs && OutputKey(p, o) in t && (p == from || OutputKey(from, o) !in t)
      ensures Located(t, qs, o) == Some(p)
    {
      LocatedIs(t, qs, o, if p == from then 0 else 1);
    }
    if forall p :: p in qs ==> OutputKey(p, o) !in t {
      LocatedIs(t, qs, o, |qs|);
    }
  }

  /** At most two layouts, the record's own first. */
  lemma PrefixesFromIs(legacy: string, from: string)
    requires from in Prefixes(legacy)
    ensures PrefixesFrom(legacy, from) ==
            if legacy == "" || legacy == PREFIX then [PREFIX] else if from == PREFIX then [PREFIX, legacy]
                else [legacy, PREFIX]
  {
    ExceptOne(PREFIX, [], from);
    if legacy != "" {
      ExceptOne(PREFIX, [legacy], from);
      ExceptOne(legacy, [], from);
      assert [PREFIX] + [legacy] == [PREFIX, legacy];
    }
    assert [PREFIX] + [] == [PREFIX] && Except([], from) == [];
  }

  lemma {:induction false} LocatedIs(t: Objects, ps: seq<string>, o: string, i: nat)
    requires ValidId(o) && i <= |ps| && forall j :: 0 <= j < i ==> OutputKey(ps[j], o) !in t
    requires i < |ps| ==> OutputKey(ps[i], o) in t
    ensures Located(t, ps, o) == if i < |ps| then Some(ps[i]) else None
  {
    hide Key;
    if i > 0 {
      LocatedIs(t, ps[1..], o, i - 1);
    }
  }

  lemma {:induction false} FollowedIs(t: Objects, ps: seq<string>, id: string, i: nat)
    requires ValidId(id) && i <= |ps| && forall j :: 0 <= j < i ==> RecordAt(t, ps[j], id).None?
    requires i < |ps| ==> RecordAt(t, ps[i], id).Some?
    ensures Followed(t, ps, id) == if i < |ps| then Some(ps[i]) else None
  {
    hide RecordAt;
    if i > 0 {
      FollowedIs(t, ps[1..], id, i - 1);
    }
  }

  lemma {:induction false} JunkIs(t: Objects, ps: seq<string>, id: string, i: nat)
    requires ValidId(id) && i <= |ps| && forall j :: 0 <= j < i ==> RecordAt(t, ps[j], id).None?
    requires i < |ps| ==> RecordAt(t, ps[i], id).Some?
    ensures forall k :: k in Junk(t, ps, id) <==> k in t && RecordOf(ps, id, i, k)
  {
    hide RecordAt, Key;
    if i > 0 {
      var qs := ps[1..];
      JunkIs(t, qs, id, i - 1);
      forall k ensures RecordOf(ps, id, i, k) <==> k == ActionKey(ps[0], id) || RecordOf(qs, id, i - 1, k) {
        if j :| 0 < j < i && k == ActionKey(ps[j], id) {
          assert k == ActionKey(qs[j - 1], id);
        }
        if j :| 0 <= j < i - 1 && k == ActionKey(qs[j], id) {
          assert k == ActionKey(ps[j + 1], id);
        }
      }
    }
  }

  /** k is the action's record key in one of the first i layouts. */
  ghost predicate RecordOf(ps: seq<string>, id: string, i: nat, k: string)
    requires ValidId(id) && i <= |ps|
  {
    exists j :: 0 <= j < i && k == ActionKey(ps[j], id)
  }

  lemma JunkKeys(t: Objects, legacy: string, id: string, i: nat, stuck: set<string>)
    requires ValidId(id) && i <= |Layouts(legacy)|
    requires forall k :: k in Junk(t, Layouts(legacy), id) <==> k in t && RecordOf(Layouts(legacy), id, i, k)
    ensures t - (Junk(t, Prefixes(legacy), id) - stuck) == t - (RecordKeys(legacy, id, i) - stuck)
  {
    hide Junk, Key;
    assert Layouts(legacy) == Prefixes(legacy);
  }

  class Cache {
    var objects: Objects
    const legacy: string
    /** Keys the tier fails to read, and keys it fails to delete. */
    var unreadable: set<string>
    var stuck: set<string>

    constructor (legacy: string)
      ensures this.legacy == legacy && objects == map[] && unreadable == {} && stuck == {}
    {
      this.legacy := legacy;
      objects, unreadable, stuck := map[], {}, {};
    }

    /** The tier cannot read one of the keys a lookup of this action may ask for. */
    ghost predicate Unasked(id: string)
      requires ValidId(id)
      reads this`unreadable
    {
      || (exists p :: p in Prefixes(legacy) && ActionKey(p, id) in unreadable)
      || (exists p, o :: p in Prefixes(legacy) && ValidId(o) && OutputKey(p, o) in unreadable)
    }

    method DeleteQuietly(k: string)
      modifies this`objects
      ensures objects == old(objects) - ({k} - stuck)
    {
      if k !in stuck {
        objects := objects - {k};
      }
    }

    /** The record for an action, from the first layout with a usable one; unusable ones go. */
    method FindAction(id: string) returns (found: Option<(Action, string)>, error: Option<Error>)
      requires ValidId(id)
      modifies this`objects
      ensures error.Some? ==> found.None? && exists p :: p in Prefixes(legacy) && ActionKey(p, id) in unreadable
      ensures error.None? ==>
                var ps := Prefixes(legacy);
                && objects == old(objects) - (Junk(old(objects), ps, id) - stuck)
                && found == match Followed(old(objects), ps, id)
                            case None => None
                            case Some(p) => Some((RecordAt(old(objects), p, id).value, p))
      ensures forall k :: k in old(objects) && k !in objects ==>
                exists p :: p in Prefixes(legacy) && k == ActionKey(p, id)
      ensures forall k :: k in objects ==> k in old(objects) && objects[k] == old(objects)[k]
    {
      hide ParseAction, Key, Junk, Followed, Seeking;
      var ps := Prefixes(legacy);
      var i := 0;
      ghost var gone := {};
      SeekingStart(old(objects), ps, id);
      while i < |ps|
        invariant 0 <= i <= |ps| && objects == old(objects) - (gone - stuck)
        invariant Seeking(old(objects), ps, id, i, gone)
      {
        var k := ActionKey(ps[i], id);
        SameLayout(old(objects), id, ps, i, gone);
        if k in unreadable {
          return None, Some(Broken);
        }
        if k !in objects {
          SeekingStep(old(objects), ps, id, i, gone);
          gone := gone + (if k in old(objects) then {k} else {});
          i := i + 1;
          continue;
        }
        var a := ParseAction(objects[k].text);
        if a.None? || !ValidId(a.value.outputId) {
          DeleteQuietly(k);
          SeekingStep(old(objects), ps, id, i, gone);
          gone := gone + {k};
          i := i + 1;
          continue;
        }
        SeekingFound(old(objects), ps, id, i, gone);
        return Some((a.value, ps[i])), None;
      }
      SeekingOver(old(objects), ps, id, gone);
      return None, None;
    }

    /** The layout that holds an output, asking the record's own layout first. */
    method FindOutput(outputId: string, from: string) returns (q: Option<string>, error: Option<Error>)
      requires ValidId(outputId)
      ensures error.None? ==> q == Located(objects, PrefixesFrom(legacy, from), outputId)
      ensures error.Some? ==> q.None?
      ensures error.Some? ==> exists p :: p in PrefixesFrom(legacy, from) && OutputKey(p, outputId) in unreadable
    {
      hide Key, Located, PrefixesFrom;
      var ps := PrefixesFrom(legacy, from);
      for i := 0 to |ps|
        invariant forall j :: 0 <= j < i ==> OutputKey(ps[j], outputId) !in objects
      {
        var k := OutputKey(ps[i], outputId);
        if k in unreadable {
          assert ps[i] in ps;
          return None, Some(Broken);
        }
        if k in objects {
          LocatedIs(objects, ps, outputId, i);
          return Some(ps[i]), None;
        }
      }
      LocatedIs(objects, ps, outputId, |ps|);
      return None, None;
    }

    method GetIf(id: string, need: (string, Time) -> bool) returns (hit: Option<Hit>, error: Option<Error>)
      modifies this`objects
      ensures !ValidId(id) ==> error.Some? && hit.None? && objects == old(objects)
      ensures ValidId(id) && error.Some? ==> hit.None? && Unasked(id)
      ensures ValidId(id) && error.None? ==> Answer(hit, objects) == Get(old(objects), legacy, id, need, stuck)
      ensures ValidId(id) ==> forall k :: k in old(objects) && k !in objects ==>
                exists p :: p in Prefixes(legacy) && k == ActionKey(p, id)
    {
      if !ValidId(id) {
        return None, Some(Broken);
      }
      hide RecordAt, Key, Prefixes, Located, Followed, Junk;
      var found, broken := FindAction(id);
      if broken.Some? || found.None? {
        return None, broken;
      }
      var (rec, from) := found.value;
      FollowedValid(old(objects), Prefixes(legacy), id);
      if !need(rec.outputId, rec.modTime) {
        return Some(Hit(rec.outputId, None, 0, rec.modTime)), None;
      }
      OutputsSpared(old(objects), objects, legacy, id, PrefixesFrom(legacy, from), rec.outputId);
      PrefixesFromMembers(legacy, from);
      var q, failed := FindOutput(rec.outputId, from);
      if failed.Some? {
        return None, failed;
      }
      if q.None? {
        DeleteQuietly(ActionKey(from, id));
        return None, None;
      }
      var o := objects[OutputKey(q.value, rec.outputId)];
      return Some(Hit(rec.outputId, Some(o.text), o.size, rec.modTime)), None;
    }

    /** The id and metadata Get would report, by the same rule and with the same clean-up. */
    method Stat(id: string) returns (found: Option<Hit>, error: Option<Error>)
      modifies this`objects
      ensures !ValidId(id) ==> error.Some? && found.None? && objects == old(objects)
      ensures ValidId(id) && error.Some? ==> found.None? && Unasked(id)
      ensures ValidId(id) && error.None? ==>
                var a := Get(old(objects), legacy, id, (o, m) => true, stuck);
                && objects == a.objects
                && found == match a.hit
                            case None => None
                            case Some(h) => Some(h.(bytes := None))
    {
      var hit, broken := GetIf(id, (o, m) => true);
      return if hit.Some? then Some(hit.value.(bytes := None)) else None, broken;
    }

    /** The output's bytes, then the record that names them. */
    method Put(id: string, outputId: string, modTime: Time, now: Time, text: string, outputFails: bool,
               recordFails: bool)
      returns (error: Option<Error>)
      modifies this`objects
      ensures objects == Recorded(old(objects), id, outputId, modTime, now, text, outputFails, recordFails)
      ensures error.None? <==> ValidId(id) && ValidId(outputId) && !outputFails && !recordFails
      ensures !ValidId(id) || !ValidId(outputId) || outputFails ==> objects == old(objects)
      ensures ValidId(id) && ValidId(outputId) && !outputFails ==>
                var at := if modTime == ZERO then now else modTime;
                var out, rec := OutputKey("go/build", outputId), ActionKey("go/build", id);
                && out in objects && out != rec
                && objects[out] == (if out in old(objects) then old(objects)[out] else Held(text, |text|, at, true))
                && objects - {out, rec} == old(objects) - {out, rec}
                && (recordFails ==> objects - {out} == old(objects) - {out})
                && (!recordFails ==>
                      rec in objects && objects[rec].text == FormatAction(outputId, at) && !objects[rec].immutable)
    {
      if !ValidId(id) || !ValidId(outputId) {
        return Some(Broken);
      }
      var at := if modTime == ZERO then now else modTime;
      var out := OutputKey(PREFIX, outputId);
      KeyInjective(PREFIX, "output", outputId, PREFIX, "action", id);
      hide Key, ValidId, FormatAction;
      if outputFails {
        return Some(Broken);
      }
      if out !in objects {
        objects := objects[out := Held(text, |text|, at, true)];
      }
      if recordFails {
        return Some(Broken);
      }
      var rec := FormatAction(outputId, at);
      objects := objects[ActionKey(PREFIX, id) := Held(rec, |rec|, at, false)];
      return None;
    }
  }

  lemma FollowedValid(t: Objects, ps: seq<string>, id: string)
    requires ValidId(id)
    ensures Followed(t, ps, id).Some? ==> Followed(t, ps, id).value in ps
                                          && RecordAt(t, Followed(t, ps, id).value, id).Some?
                                          && ValidId(RecordAt(t, Followed(t, ps, id).value, id).value.outputId)
  {
  }

  /** Dropping records of one action changes no output lookup. */
  lemma OutputsSpared(t: Objects, t': Objects, legacy: string, id: string, ps: seq<string>, outputId: string)
    requires ValidId(id) && ValidId(outputId)
    requires forall k :: k in t' ==> k in t && t'[k] == t[k]
    requires forall k :: k in t && k !in t' ==> exists p :: p in Prefixes(legacy) && k == ActionKey(p, id)
    ensures Located(t', ps, outputId) == Located(t, ps, outputId)
    ensures Located(t, ps, outputId).Some? ==>
              var k := OutputKey(Located(t, ps, outputId).value, outputId); k in t' && t'[k] == t[k]
  {
    if ps != [] {
      OutputsSpared(t, t', legacy, id, ps[1..], outputId);
      var k := OutputKey(ps[0], outputId);
      if k in t && k !in t' {
        var p :| p in Prefixes(legacy) && k == ActionKey(p, id);
        KeyInjective(ps[0], "output", outputId, p, "action", id);
      }
    }
  }

  /** The tier after a Put. */
  function Recorded(t: Objects, id: string, outputId: string, modTime: Time, now: Time, text: string,
                    outputFails: bool, recordFails: bool): Objects {
    if !ValidId(id) || !ValidId(outputId) then t
    else
      var at := if modTime == ZERO then now else modTime;
      var out := OutputKey(PREFIX, outputId);
      if outputFails then t
      else
        var t1 := if out in t then t else t[out := Held(text, |text|, at, true)];
        if recordFails then t1
        else t1[ActionKey(PREFIX, id) := Held(FormatAction(outputId, at), |FormatAction(outputId, at)|, at, false)]
  }

  /** A search that has passed the first i layouts and dropped gone on the way. */
  ghost predicate Seeking(t: Objects, ps: seq<string>, id: string, i: nat, gone: set<string>)
    requires ValidId(id)
  {
    && i <= |ps|
    && Followed(t, ps, id) == Followed(t, ps[i..], id)
    && Junk(t, ps, id) == gone + Junk(t, ps[i..], id)
    && (forall k :: k in gone ==> exists p :: p in ps && k == ActionKey(p, id) && RecordAt(t, p, id).None?)
  }

  lemma SeekingStart(t: Objects, ps: seq<string>, id: string)
    requires ValidId(id)
    ensures Seeking(t, ps, id, 0, {})
  {
    assert ps[0..] == ps;
  }

  lemma SeekingStep(t: Objects, ps: seq<string>, id: string, i: nat, gone: set<string>)
    requires ValidId(id) && Seeking(t, ps, id, i, gone) && i < |ps| && RecordAt(t, ps[i], id).None?
    ensures Seeking(t, ps, id, i + 1, gone + (if ActionKey(ps[i], id) in t then {ActionKey(ps[i], id)} else {}))
  {
    hide RecordAt, Key;
    assert ps[i..][1..] == ps[i + 1..];
    assert ps[i] in ps;
  }

  lemma SeekingFound(t: Objects, ps: seq<string>, id: string, i: nat, gone: set<string>)
    requires ValidId(id) && Seeking(t, ps, id, i, gone) && i < |ps| && RecordAt(t, ps[i], id).Some?
    ensures Followed(t, ps, id) == Some(ps[i]) && Junk(t, ps, id) == gone
  {
    hide RecordAt, Key;
    assert gone + {} == gone;
  }

  lemma SeekingOver(t: Objects, ps: seq<string>, id: string, gone: set<string>)
    requires ValidId(id) && Seeking(t, ps, id, |ps|, gone)
    ensures Followed(t, ps, id) == None && Junk(t, ps, id) == gone
  {
    assert ps[|ps|..] == [] && gone + {} == gone;
  }

  /** What was dropped were records of this action, and what is left of the search's own layout
      is what was there before. */
  lemma SameLayout(t: Objects, id: string, ps: seq<string>, i: nat, gone: set<string>)
    requires ValidId(id) && i < |ps| && Seeking(t, ps, id, i, gone)
    ensures ActionKey(ps[i], id) in gone ==> RecordAt(t, ps[i], id).None?
    ensures forall k :: k in gone ==> exists p :: p in ps && k == ActionKey(p, id)
  {
    if ActionKey(ps[i], id) in gone {
      var p :| p in ps && ActionKey(ps[i], id) == ActionKey(p, id) && RecordAt(t, p, id).None?;
      KeyInjective(p, "action", id, ps[i], "action", id);
    }
  }
}
