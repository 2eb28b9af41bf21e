/** The disk tier as a value: the files on the volume and the index over them.
    Each function is one whole operation of engine/disk/disk.go; Store.Disk
    carries them out. */
module Volume {
  import opened Keys
  import opened Tiers
  import opened Lru
  import opened Eviction
  import opened IndexMap
  import opened Int64
  import opened Watermarks
  import opened Collection

  /** An object file, or one whose header cannot be read. */
  datatype File = Good(obj: Object) | Rot

  datatype State = State(files: map<string, File>, ix: Index)

  /** The collector a Put asks, when there is one. */
  datatype Limits = Limits(budget: int, cfg: Config)

  function EntryFor(key: string, size: int, at: int, immutable: bool): Entry {
    Entry(key, FrontendDir(key), size, HEADER + size, at, immutable)
  }

  /** Unlinking the names in ks; those in stuck cannot be removed. */
  function Unlinked(files: map<string, File>, ks: set<string>, stuck: set<string>): map<string, File> {
    files - (ks - stuck)
  }

  function Observed(ix: Index, key: string, o: Object, at: int): Index {
    if Holds(ix.order, key) then Touch(ix, key, at)
    else AddIfAbsent(ix, EntryFor(key, o.meta.size, at, o.meta.immutable))
  }

  /** What a Get or a Stat leaves behind: a hit is a use, a file that cannot be read goes. */
  function Looked(st: State, key: string, at: int, stuck: set<string>): State {
    if key !in st.files then st
    else match st.files[key]
      case Rot => State(Unlinked(st.files, {key}, stuck), Remove(st.ix, key))
      case Good(o) => st.(ix := Observed(st.ix, key, o, at))
  }

  function Found(st: State, key: string): Option<Object> {
    if key in st.files && st.files[key].Good? then Some(st.files[key].obj) else None
  }

  function Deleted(st: State, key: string, stuck: set<string>): State {
    State(Unlinked(st.files, {key}, stuck), Remove(st.ix, key))
  }

  /** The keys in gone leave the index, and their files the volume. */
  function Reclaimed(st: State, gone: set<string>, stuck: set<string>): State {
    State(Unlinked(st.files, gone, stuck),
          st.ix.(order := Minus(st.ix.order, gone),
                 tombs := if st.ix.cold then st.ix.tombs + gone else st.ix.tombs))
  }

  lemma ReclaimedTwice(st: State, a: set<string>, b: set<string>, stuck: set<string>)
    ensures Reclaimed(Reclaimed(st, a, stuck), b, stuck) == Reclaimed(st, a + b, stuck)
  {
    MinusTwice(st.ix.order, a, b);
    assert Unlinked(Unlinked(st.files, a, stuck), b, stuck) == Unlinked(st.files, a + b, stuck);
    assert st.ix.tombs + a + b == st.ix.tombs + (a + b);
  }

  lemma ReclaimedNothing(st: State, stuck: set<string>)
    ensures Reclaimed(st, {}, stuck) == st
  {
    MinusNone(st.ix.order, {});
    assert Unlinked(st.files, {}, stuck) == st.files;
    assert st.ix.tombs + {} == st.ix.tombs;
  }

  /** An eviction is a reclaim of its victims. */
  lemma EvictedReclaims(st: State, n: int, f: string, stuck: set<string>)
    requires Distinct(st.ix.order)
    ensures var v := KeysOf(Take(st.ix.order, n, f).victims);
            State(Unlinked(st.files, v, stuck), TakeLru(st.ix, n, f)) == Reclaimed(st, v, stuck)
  {
    TakeRest(st.ix.order, n, f);
  }

  /** The keys under a prefix. */
  function Under(s: seq<Entry>, prefix: string): set<string> {
    set e | e in s && prefix <= e.key :: e.key
  }

  lemma UnderNext(s: seq<Entry>, e: Entry, prefix: string)
    ensures Under(s + [e], prefix) == if prefix <= e.key then Under(s, prefix) + {e.key} else Under(s, prefix)
  {
    assert forall x :: x in s + [e] <==> x in s || x == e;
  }

  /** Deleting one more key after some were reclaimed: the entry is found, and its bytes go. */
  lemma ReclaimOne(st: State, gone: set<string>, e: Entry, stuck: set<string>)
    requires Distinct(st.ix.order) && e in st.ix.order && e.key !in gone
    ensures var s := Minus(st.ix.order, gone);
            && Holds(s, e.key) && Find(s, e.key) == e
            && Deleted(Reclaimed(st, gone, stuck), e.key, stuck) == Reclaimed(st, gone + {e.key}, stuck)
            && Bytes(Minus(st.ix.order, gone + {e.key})) == Bytes(s) - e.onDisk
            && |Minus(st.ix.order, gone + {e.key})| == |s| - 1
  {
    hide Minus, Bytes, Find;
    var s := Minus(st.ix.order, gone);
    MinusKeepsDistinct(st.ix.order, gone);
    MinusMembers(st.ix.order, gone);
    MinusTwice(st.ix.order, gone, {e.key});
    WithoutIsMinus(s, e.key);
    var i :| 0 <= i < |s| && s[i] == e;
    WithoutAt(s, i);
    TotalsWithoutAt(s, i, "");
    FindAt(s, i);
    ReclaimedTwice(st, gone, {e.key}, stuck);
  }

  lemma FindAt(s: seq<Entry>, i: nat)
    requires Distinct(s) && i < |s|
    ensures Holds(s, s[i].key) && Find(s, s[i].key) == s[i]
  {
    var j :| 0 <= j < |s| && s[j] == Find(s, s[i].key);
  }

  ghost function AdmitGone(s: seq<Entry>, lim: Option<Limits>, size: int): set<string> {
    if lim.Some? && AdmitSpec(s, lim.value.budget, lim.value.cfg, size).collects
    then CollectGone(s, lim.value.budget, lim.value.cfg, size) else {}
  }

  ghost predicate AdmitOk(s: seq<Entry>, lim: Option<Limits>, size: int) {
    lim.None? || AdmitSpec(s, lim.value.budget, lim.value.cfg, size).admitted
  }

  function Written(st: State, key: string, body: Body, m: Meta, at: int): State {
    State(st.files[key := Good(Stored(body, m))], Set(st.ix, EntryFor(key, |body|, at, m.immutable)))
  }

  datatype Outcome = Outcome(st: State, error: Option<Error>)

  /** What Put asks the collector to admit: header and declared size, added in int64. */
  function Claim(m: Meta): int {
    Wrap64(HEADER + m.size)
  }

  /** Put, in the order the source decides: the caller's cancellation, the key, the write-once
      rule, admission, the write itself (which may break anywhere before the rename), the index. */
  ghost function Put(st: State, key: string, body: Body, m: Meta, at: int,
                     lim: Option<Limits>, trouble: Trouble, stuck: set<string>): Outcome {
    if trouble == Cancelled || key == "" then Outcome(st, Some(Broken))
    else if m.immutable && key in st.files then Outcome(st.(ix := Touch(st.ix, key, at)), Some(Exists))
    else
      var st1 := Reclaimed(st, AdmitGone(st.ix.order, lim, Claim(m)), stuck);
      if !AdmitOk(st.ix.order, lim, Claim(m)) then Outcome(st1, Some(NoSpace))
      else if trouble == Breaks then Outcome(st1, Some(Broken))
      else Outcome(Written(st1, key, body, m, at), None)
  }

  /* ---- what the operations do, key by key ---- */

  /** A key the operation from st to t evicted: it has left index and volume. */
  ghost predicate Evicted(st: State, t: State, k: string) {
    k in st.files && k !in t.files && Holds(st.ix.order, k) && !Holds(t.ix.order, k)
  }

  /** Apart from a key that was written, files are as they were or were evicted by the collector. */
  ghost predicate OnlyRoomMade(st: State, t: State, key: string, wrote: bool, collector: bool, stuck: set<string>) {
    && (forall k :: k in t.files && !(wrote && k == key) ==> k in st.files && t.files[k] == st.files[k])
    && (forall k :: k in st.files && k !in t.files ==> collector && k !in stuck && Evicted(st, t, k))
  }

  /** The list is headed by e, and nothing else in it is new or has its key. */
  ghost predicate HeadedBy(order: seq<Entry>, e: Entry, was: seq<Entry>) {
    order != [] && order[0] == e && forall x :: x in order[1..] ==> x in was && x.key != e.key
  }

  /** A Put without an error stores these bytes under this metadata and the length they have;
      every other file, and on an error every file, is as it was or was evicted to make room. */
  lemma PutStores(st: State, key: string, body: Body, m: Meta, at: int, lim: Option<Limits>, trouble: Trouble,
                  stuck: set<string>)
    requires Sound(st.ix.order)
    ensures var o := Put(st, key, body, m, at, lim, trouble, stuck);
            && (o.error == None ==> key in o.st.files && o.st.files[key] == Good(Object(body, m.(size := |body|))))
            && OnlyRoomMade(st, o.st, key, o.error == None, lim.Some?, stuck)
  {
    hide Sound, Minus, Lru.Without, FrontendDir, CollectGone, AdmitSpec;
    var o := Put(st, key, body, m, at, lim, trouble, stuck);
    var gone := AdmitGone(st.ix.order, lim, Claim(m));
    GoneHeld(st.ix.order, lim, Claim(m));
    forall k | k in gone ensures !Holds(Minus(st.ix.order, gone), k) {
      MinusMembers(st.ix.order, gone);
      assert forall i :: 0 <= i < |Minus(st.ix.order, gone)| ==>
               Minus(st.ix.order, gone)[i] in Minus(st.ix.order, gone);
    }
    SoundDistinct(st.ix.order);
    MinusKeepsDistinct(st.ix.order, gone);
    SetHolds(Minus(st.ix.order, gone), key);
  }

  /** Only keys in the index are evicted. */
  lemma GoneHeld(s: seq<Entry>, lim: Option<Limits>, size: int)
    requires Sound(s)
    ensures forall k :: k in AdmitGone(s, lim, size) ==> lim.Some? && Holds(s, k)
  {
    if lim.Some? && lim.value.budget > 0 {
      hide Sound, CapVictims, Take, Minus, AdmitSpec, Holds, TotalGone, OverCaps;
      var budget, c := lim.value.budget, lim.value.cfg;
      OverCapsHeld(s, budget, c.budgets);
      TotalGoneHeld(s, OverCaps(s, budget, c.budgets), budget, c, size);
    }
  }

  lemma OverCapsHeld(s: seq<Entry>, budget: int, caps: map<string, int>)
    requires Sound(s) && budget >= 0
    ensures forall k :: k in OverCaps(s, budget, caps) ==> Holds(s, k)
  {
    hide Sound, CapVictims, Holds;
    forall k | k in OverCaps(s, budget, caps) ensures Holds(s, k) {
      var f, e :| f in caps && e in CapVictims(s, budget, f, caps[f]) && e.key == k;
      CapVictimsOwn(s, budget, f, caps[f]);
      MemberHeld(s, e);
    }
  }

  lemma TotalGoneHeld(s: seq<Entry>, over: set<string>, budget: int, c: Config, size: int)
    requires budget >= 0
    ensures forall k :: k in TotalGone(Minus(s, over), budget, c, size) ==> Holds(s, k)
  {
    hide Take, Minus, Holds, Bytes, Target, Pct;
    var s1 := Minus(s, over);
    var n := Bytes(s1) - Target(budget, c, size);
    MinusMembers(s, over);
    TakeMembers(s1, n, "");
    forall k | k in TotalGone(s1, budget, c, size) ensures Holds(s, k) {
      var e :| e in Take(s1, n, "").victims && e.key == k;
      MemberHeld(s, e);
    }
  }

  lemma MemberHeld(s: seq<Entry>, e: Entry)
    requires e in s
    ensures Holds(s, e.key)
  {
    var i :| 0 <= i < |s| && s[i] == e;
  }

  lemma SetHolds(s: seq<Entry>, key: string)
    requires Distinct(s)
    ensures forall k :: Holds(Without(s, key), k) ==> Holds(s, k)
  {
    hide Minus, Without;
    WithoutIsMinus(s, key);
    MinusMembers(s, {key});
    forall k | Holds(Without(s, key), k) ensures Holds(s, k) {
      var i :| 0 <= i < |Without(s, key)| && Without(s, key)[i].key == k;
      MemberHeld(s, Without(s, key)[i]);
    }
  }

  /** Everything a caller can rely on of a Put, whatever it was that happened. */
  ghost predicate PutKept(st: State, o: Outcome, key: string, body: Body, m: Meta, at: int, collector: bool,
                          trouble: Trouble, stuck: set<string>) {
    && (o.error == None ==>
          && key in o.st.files && o.st.files[key] == Good(Object(body, m.(size := |body|)))
          && (var e := Entry(key, FrontendDir(key), |body|, HEADER + |body|, at, m.immutable);
              HeadedBy(o.st.ix.order, e, st.ix.order)))
    && (trouble == Cancelled || key == "" ==> o == Outcome(st, Some(Broken)))
    && (trouble != Cancelled && key != "" ==> (o.error == Some(Exists) <==> m.immutable && key in st.files))
    && (o.error == Some(Exists) ==> o.st.files == st.files)
    && (o.error == Some(Exists) && Holds(st.ix.order, key) ==>
          && o.st.ix.order != [] && o.st.ix.order == [o.st.ix.order[0]] + Minus(st.ix.order, {key})
          && o.st.ix.order[0] == Find(st.ix.order, key).(lastAccess := at))
    && (trouble == Breaks ==> o.error != None)
    && (trouble == Works && !collector && key != "" ==> o.error == None || o.error == Some(Exists))
    && OnlyRoomMade(st, o.st, key, o.error == None, collector, stuck)
  }

  lemma PutKeepsPromises(st: State, key: string, body: Body, m: Meta, at: int, lim: Option<Limits>, trouble: Trouble,
                         stuck: set<string>)
    requires Sound(st.ix.order)
    ensures PutKept(st, Put(st, key, body, m, at, lim, trouble, stuck), key, body, m, at, lim.Some?, trouble, stuck)
  {
    PutStores(st, key, body, m, at, lim, trouble, stuck);
    SoundDistinct(st.ix.order);
    WithoutIsMinus(st.ix.order, key);
    PutHeads(st, key, body, m, at, lim, trouble, stuck);
    hide OnlyRoomMade, HeadedBy, Sound, Minus, Lru.Without, FrontendDir, AdmitGone, AdmitOk, Distinct;
  }

  lemma PutHeads(st: State, key: string, body: Body, m: Meta, at: int, lim: Option<Limits>, trouble: Trouble,
                 stuck: set<string>)
    requires Sound(st.ix.order)
    ensures var o := Put(st, key, body, m, at, lim, trouble, stuck);
            o.error == None ==>
              var e := Entry(key, FrontendDir(key), |body|, HEADER + |body|, at, m.immutable);
              HeadedBy(o.st.ix.order, e, st.ix.order)
  {
    hide Sound, Minus, Lru.Without, FrontendDir, AdmitGone, AdmitOk;
    var gone := AdmitGone(st.ix.order, lim, Claim(m));
    SoundDistinct(st.ix.order);
    MinusKeepsDistinct(st.ix.order, gone);
    MinusMembers(st.ix.order, gone);
    WithoutIsMinus(Minus(st.ix.order, gone), key);
    MinusMembers(Minus(st.ix.order, gone), {key});
  }

  /** A key that was held or was not dead heads the list with this time; the rest is the old list
      without it. */
  ghost predicate UsedNow(was: Index, ix: Index, key: string, at: int) {
    Holds(was.order, key) || key !in was.tombs ==>
      && ix.order != [] && ix.order == [ix.order[0]] + Minus(was.order, {key})
      && ix.order[0].key == key && ix.order[0].lastAccess == at
  }

  /** A hit is a use: the key heads the list with this time, as it was known or as the file says,
      and the rest is the old list without it. */
  lemma HitIsUse(st: State, key: string, at: int, stuck: set<string>)
    requires Distinct(st.ix.order) && key in st.files && st.files[key].Good?
    requires Holds(st.ix.order, key) || key !in st.ix.tombs
    ensures var t, m := Looked(st, key, at, stuck), st.files[key].obj.meta;
            && t.files == st.files && t.ix.cold == st.ix.cold && t.ix.tombs == st.ix.tombs
            && t.ix.order == [t.ix.order[0]] + Minus(st.ix.order, {key})
            && t.ix.order[0] == if Holds(st.ix.order, key) then Find(st.ix.order, key).(lastAccess := at)
                                else Entry(key, FrontendDir(key), m.size, HEADER + m.size, at, m.immutable)
  {
    WithoutIsMinus(st.ix.order, key);
    if !Holds(st.ix.order, key) {
      WithoutAbsent(st.ix.order, key);
    }
  }
}
