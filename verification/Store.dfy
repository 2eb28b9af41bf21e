/** The disk tier and its collector as the two objects they are
    (engine/disk/disk.go, engine/gc/gc.go). */
module Store {
  import opened Keys
  import opened Tiers
  import opened Lru
  import opened Eviction
  import opened IndexMap
  import opened Int64
  import opened Watermarks
  import opened Collection
  import LruIndex
  import opened Volume

  class Disk {
    var files: map<string, File>
    const idx: LruIndex.Index
    /** Names the file system refuses to unlink. */
    var stuck: set<string>

    ghost predicate Valid()
      reads this, idx, idx.repr
    {
      idx.Valid()
    }

    ghost function View(): State
      reads this, idx
    {
      State(files, idx.View())
    }

    constructor (onVolume: map<string, File>)
      ensures Valid() && fresh(idx) && fresh(idx.repr)
      ensures View() == State(onVolume, Index([], true, {})) && stuck == {}
    {
      files := onVolume;
      idx := new LruIndex.Index();
      stuck := {};
    }

    method Remove(ks: set<string>)
      modifies this`files
      ensures files == old(files) - (ks - stuck)
    {
      files := files - (ks - stuck);
    }

    method Observe(key: string, o: Object, at: int)
      requires Valid()
      modifies idx, idx.repr
      ensures Valid() && fresh(idx.repr - old(idx.repr)) && idx.View() == Observed(old(idx.View()), key, o, at)
      ensures UsedNow(old(idx.View()), idx.View(), key, at)
    {
      Uses(key, o, at);
      hide UsedNow;
      var had := idx.Touch(key, at);
      if had {
        return;
      }
      var _ := idx.AddIfAbsent(Entry(key, FrontendDir(key), o.meta.size, HEADER + o.meta.size, at, o.meta.immutable));
    }

    /** opens: whether the file system can tell; when it cannot, the error is the caller's and
        nothing changes. */
    method Get(key: string, now: int, opens: bool) returns (r: Result<Object>)
      requires Valid()
      modifies this`files, idx, idx.repr
      ensures Valid() && fresh(idx.repr - old(idx.repr))
      ensures View() == if opens then Looked(old(View()), key, now, stuck) else old(View())
      ensures r.Ok? <==> opens && key in old(files) && old(files)[key].Good?
      ensures r.Ok? ==> r.value == old(files)[key].obj && files == old(files)
      ensures r.Err? ==> r.error == if opens then NotFound else Broken
      ensures r.Err? ==> files == if opens && key !in stuck then old(files) - {key} else old(files)
      ensures r.Ok? ==> UsedNow(old(idx.View()), idx.View(), key, now)
    {
      if !opens {
        return Err(Broken);
      }
      if key !in files {
        assert files - {key} == files;
        return Err(NotFound);
      }
      hide UsedNow;
      if files[key].Rot? {
        var _ := idx.Remove(key);
        Remove({key});
        return Err(NotFound);
      }
      Observe(key, files[key].obj, now);
      return Ok(files[key].obj);
    }

    method Stat(key: string, now: int, opens: bool) returns (r: Result<Meta>)
      requires Valid()
      modifies this`files, idx, idx.repr
      ensures Valid() && fresh(idx.repr - old(idx.repr))
      ensures View() == if opens then Looked(old(View()), key, now, stuck) else old(View())
      ensures r.Ok? <==> opens && key in old(files) && old(files)[key].Good?
      ensures r.Ok? ==> r.value == old(files)[key].obj.meta && files == old(files)
      ensures r.Err? ==> r.error == if opens then NotFound else Broken
      ensures r.Err? ==> files == if opens && key !in stuck then old(files) - {key} else old(files)
      ensures r.Ok? ==> UsedNow(old(idx.View()), idx.View(), key, now)
    {
      var g := Get(key, now, opens);
      return if g.Ok? then Ok(g.value.meta) else Err(g.error);
    }

    lemma Dropped(key: string)
      requires Valid()
      ensures var order := Lru.Remove(idx.View(), key).order; !Holds(order, key) && order == Minus(idx.order, {key})
    {
      WithoutIsMinus(idx.order, key);
      MinusMembers(idx.order, {key});
      var order := Minus(idx.order, {key});
      assert forall i :: 0 <= i < |order| ==> order[i] in order;
    }

    lemma Uses(key: string, o: Object, at: int)
      requires Valid()
      ensures UsedNow(idx.View(), Observed(idx.View(), key, o, at), key, at)
    {
      var st := State(map[key := Good(o)], idx.View());
      if Holds(idx.order, key) || key !in idx.tombs {
        HitIsUse(st, key, at, {});
      }
    }

    method Delete(key: string) returns (error: Option<Error>)
      requires Valid()
      modifies this`files, idx, idx.repr
      ensures Valid() && idx.repr == old(idx.repr) && View() == Deleted(old(View()), key, stuck)
      ensures files == if key in stuck then old(files) else old(files) - {key}
      ensures error.None? <==> key !in files
      ensures !Holds(idx.order, key) && idx.order == Minus(old(idx.order), {key})
      ensures idx.cold == old(idx.cold) && idx.tombs == old(idx.tombs) + if idx.cold then {key} else {}
    {
      Dropped(key);
      var _ := idx.Remove(key);
      Remove({key});
      return if key in files then Some(Broken) else None;
    }

    method Evict(n: int, f: string) returns (freed: int)
      requires Valid() && Distinct(idx.order)
      modifies this`files, idx, idx.repr
      ensures Valid() && idx.repr == old(idx.repr)
      ensures View() == Reclaimed(old(View()), KeysOf(Take(old(idx.order), n, f).victims), stuck)
      ensures freed == Bytes(Take(old(idx.order), n, f).victims)
    {
      hide Take, Minus, Bytes;
      EvictedReclaims(View(), n, f, stuck);
      var victims := idx.TakeLru(n, f);
      freed := Unlink(victims);
    }

    /** The loop of evict: every victim's name goes, and its bytes count whatever the unlink says. */
    method Unlink(victims: seq<Entry>) returns (freed: int)
      modifies this`files
      ensures files == Unlinked(old(files), KeysOf(victims), stuck) && freed == Bytes(victims)
    {
      freed := 0;
      assert old(files) - {} == old(files);
      for i := 0 to |victims|
        invariant files == Unlinked(old(files), KeysOf(victims[..i]), stuck) && freed == Bytes(victims[..i])
      {
        KeysOfAppend(victims[..i], victims[i]);
        BytesConcat(victims[..i], [victims[i]]);
        assert victims[..i + 1] == victims[..i] + [victims[i]];
        Remove({victims[i].key});
        freed := freed + victims[i].onDisk;
      }
      assert victims[..|victims|] == victims;
    }

    /** Everything under the prefix leaves the index, whatever the unlinks say; what is counted
        and what is reported as failed together are exactly what left. */
    method DeletePrefix(prefix: string) returns (entries: nat, bytes: int, failed: seq<Entry>)
      requires Valid() && Distinct(idx.order)
      modifies this`files, idx, idx.repr
      ensures Valid() && idx.repr == old(idx.repr)
      ensures View() == Reclaimed(old(View()), Under(old(idx.order), prefix), stuck)
      ensures entries + |failed| == |old(idx.order)| - |idx.order|
      ensures bytes + Bytes(failed) == Bytes(old(idx.order)) - Bytes(idx.order)
      ensures forall e :: e in failed <==> e in old(idx.order) && prefix <= e.key && e.key in files
      ensures forall e :: e in idx.order <==> e in old(idx.order) && !(prefix <= e.key)
      ensures forall k :: k in files <==>
                k in old(files) && (k in stuck || !(prefix <= k) || !Holds(old(idx.order), k))
      ensures forall k :: k in files ==> files[k] == old(files)[k]
    {
      hide LruIndex.Index.Valid, Minus, Bytes, Under, Find;
      ghost var was := View();
      var all := idx.Collect();
      entries, bytes, failed := 0, 0, [];
      UnderNone(prefix);
      ReclaimedNothing(was, stuck);
      NoBytes();
      for i := 0 to |all|
        invariant idx.Valid() && idx.repr == old(idx.repr)
        invariant View() == Reclaimed(was, Under(all[..i], prefix), stuck)
        invariant entries + |failed| == |was.ix.order| - |idx.order|
        invariant bytes + Bytes(failed) == Bytes(was.ix.order) - Bytes(idx.order)
        invariant forall e :: e in failed <==>
                    e in all[..i] && prefix <= e.key && e.key in stuck && e.key in was.files
      {
        var e := all[i];
        assert all[..i + 1] == all[..i] + [e];
        UnderNext(all[..i], e, prefix);
        if !(prefix <= e.key) {
          continue;
        }
        NotUnder(all, i, prefix);
        ReclaimOne(was, Under(all[..i], prefix), e, stuck);
        BytesConcat(failed, [e]);
        BytesOne(e);
        var removed := idx.Remove(e.key);
        Remove({e.key});
        if e.key in files {
          failed := failed + [e];
          continue;
        }
        entries := entries + 1;
        bytes := bytes + removed.value.onDisk;
      }
      assert all[..|all|] == all;
      UnderSame(all, was.ix.order, prefix);
      UnderAll(all, prefix);
      UnderIs(was.ix.order, prefix);
      MinusMembers(was.ix.order, Under(was.ix.order, prefix));
    }

    method Put(sm: Gc?, key: string, body: Body, m: Meta, now: int, trouble: Trouble) returns (error: Option<Error>)
      requires Valid() && Sound(idx.order)
      requires sm != null ==> sm.disk == this
      modifies this`files, idx, idx.repr, if sm != null then {sm} else {}
      ensures Valid() && fresh(idx.repr - old(idx.repr))
      ensures var lim := if sm == null then None else Some(Limits(old(sm.budget), sm.cfg));
              Outcome(View(), error) == Volume.Put(old(View()), key, body, m, now, lim, trouble, stuck)
      ensures PutKept(old(View()), Outcome(View(), error), key, body, m, now, sm != null, trouble, stuck)
    {
      ghost var lim := if sm == null then None else Some(Limits(sm.budget, sm.cfg));
      PutKeepsPromises(View(), key, body, m, now, lim, trouble, stuck);
      hide LruIndex.Index.Valid, Volume.Put, PutKept, Sound;
      error := Commit(sm, key, body, m, now, trouble);
    }

    /** The steps of Put. */
    method Commit(sm: Gc?, key: string, body: Body, m: Meta, now: int, trouble: Trouble)
                  returns (error: Option<Error>)
      requires Valid() && Sound(idx.order)
      requires sm != null ==> sm.disk == this
      modifies this`files, idx, idx.repr, if sm != null then {sm} else {}
      ensures Valid() && fresh(idx.repr - old(idx.repr))
      ensures var lim := if sm == null then None else Some(Limits(old(sm.budget), sm.cfg));
              Outcome(View(), error) == Volume.Put(old(View()), key, body, m, now, lim, trouble, stuck)
    {
      hide LruIndex.Index.Valid, Minus, Collected, AdmitSpec, CollectGone, Sound, Lru.Without, FrontendDir;
      if trouble == Cancelled {
        return Some(Broken);
      }
      if key == "" {
        return Some(Broken);
      }
      if m.immutable && key in files {
        var _ := idx.Touch(key, now);
        return Some(Exists);
      }
      ReclaimedNothing(View(), stuck);
      if sm != null {
        var ok := sm.Admit(Wrap64(HEADER + m.size));
        if !ok {
          return Some(NoSpace);
        }
      }
      if trouble == Breaks {
        return Some(Broken);
      }
      files := files[key := Good(Stored(body, m))];
      idx.Set(Entry(key, FrontendDir(key), |body|, HEADER + |body|, now, m.immutable));
      return None;
    }
  }

  class Gc {
    const disk: Disk
    const cfg: Config
    var budget: int
    var evicted: int
    var runs: nat

    constructor (disk: Disk, cfg: Config, total: int, failed: bool)
      ensures this.disk == disk && this.cfg == cfg && budget == Refreshed(cfg, 0, total, failed)
      ensures evicted == 0 && runs == 0
    {
      this.disk, this.cfg := disk, cfg;
      budget, evicted, runs := 0, 0, 0;
      new;
      RefreshBudget(total, failed);
    }

    method RefreshBudget(total: int, failed: bool)
      modifies this`budget
      ensures budget == Refreshed(cfg, old(budget), total, failed)
    {
      if cfg.budgetBytes > 0 {
        budget := cfg.budgetBytes;
        return;
      }
      if failed || total <= 0 {
        if budget <= 0 {
          budget := FALLBACK_BUDGET;
        }
        return;
      }
      budget := Pct(total, 100 - Floor(cfg));
    }

    /** Every iteration order the map gives ends in the same volume. */
    method EnforceSubBudgets(budget: int)
      requires disk.Valid() && Sound(disk.idx.order) && budget >= 0
      modifies this`evicted, disk`files, disk.idx, disk.idx.repr
      ensures disk.Valid() && disk.idx.repr == old(disk.idx.repr)
      ensures disk.View() ==
                Reclaimed(old(disk.View()), OverCaps(old(disk.idx.order), budget, cfg.budgets), disk.stuck)
      ensures evicted - old(evicted) == Bytes(old(disk.idx.order)) - Bytes(disk.idx.order)
    {
      hide LruIndex.Index.Valid, Minus, Bytes, Of, Take, Sound, CapVictims, KeysOf;
      ghost var s := disk.idx.order;
      ReclaimedNothing(disk.View(), disk.stuck);
      var todo := cfg.budgets.Keys;
      ghost var done := {};
      assert OverCapsOf(s, budget, cfg.budgets, done) == {};
      while todo != {}
        invariant disk.Valid() && disk.idx.repr == old(disk.idx.repr)
        invariant done <= cfg.budgets.Keys && todo == cfg.budgets.Keys - done
        invariant disk.View() == Reclaimed(old(disk.View()), OverCapsOf(s, budget, cfg.budgets, done), disk.stuck)
        invariant evicted - old(evicted) == Bytes(s) - Bytes(disk.idx.order)
      {
        var f :| f in todo;
        EnforceCap(f, budget, s, done, old(disk.View()));
        todo, done := todo - {f}, done + {f};
      }
      assert done == cfg.budgets.Keys;
    }

    /** One iteration of enforceSubBudgets. */
    method EnforceCap(f: string, budget: int, ghost s: seq<Entry>, ghost done: set<string>, ghost was: State)
      requires disk.Valid() && Sound(s) && was.ix.order == s && budget >= 0
      requires done <= cfg.budgets.Keys && f in cfg.budgets && f !in done
      requires disk.View() == Reclaimed(was, OverCapsOf(s, budget, cfg.budgets, done), disk.stuck)
      modifies this`evicted, disk`files, disk.idx, disk.idx.repr
      ensures disk.Valid() && disk.idx.repr == old(disk.idx.repr)
      ensures disk.View() == Reclaimed(was, OverCapsOf(s, budget, cfg.budgets, done + {f}), disk.stuck)
      ensures evicted - old(evicted) == Bytes(old(disk.idx.order)) - Bytes(disk.idx.order)
    {
      hide LruIndex.Index.Valid, Minus, Bytes, Of, Take, Sound, KeysOf, OverCapsOf, Pct;
      ghost var gone := OverCapsOf(s, budget, cfg.budgets, done);
      CapStep(s, budget, cfg.budgets, done, f);
      MinusSound(s, gone);
      SoundDistinct(Minus(s, gone));
      ReclaimedTwice(was, gone, KeysOf(CapVictims(s, budget, f, cfg.budgets[f])), disk.stuck);
      var percent := cfg.budgets[f];
      if percent <= 0 || percent > 100 {
        NoKeys(gone);
        return;
      }
      EmptyNameSpares(s, budget, percent);
      var limit := Pct(budget, percent);
      var _, used := disk.idx.UsedBy(f);
      if used > limit {
        PctBounds(budget, percent);
        NoBytes();
        TakeMembers(disk.idx.order, used - limit, f);
        TakeRest(disk.idx.order, used - limit, f);
        var freed := disk.Evict(used - limit, f);
        evicted := evicted + freed;
      } else {
        NoKeys(gone);
      }
    }

    /** One pass. headroom is what a caller is about to write on top of the low mark. */
    method Collect(headroom: int)
      requires disk.Valid() && Sound(disk.idx.order)
      modifies this`evicted, this`runs, disk`files, disk.idx, disk.idx.repr
      ensures disk.Valid() && disk.idx.repr == old(disk.idx.repr) && runs == old(runs) + 1
      ensures disk.View() ==
                Reclaimed(old(disk.View()), CollectGone(old(disk.idx.order), budget, cfg, headroom), disk.stuck)
      ensures disk.idx.order == Collected(old(disk.idx.order), budget, cfg, headroom)
      ensures evicted - old(evicted) == Bytes(old(disk.idx.order)) - Bytes(disk.idx.order)
    {
      hide LruIndex.Index.Valid, Minus, Bytes, Of, Take, Sound, KeysOf, OverCaps, Pct, Low, High;
      runs := runs + 1;
      ghost var s := disk.idx.order;
      CollectedMinus(s, budget, cfg, headroom);
      ReclaimedNothing(disk.View(), disk.stuck);
      if budget <= 0 {
        return;
      }
      ghost var over := OverCaps(s, budget, cfg.budgets);
      EnforceSubBudgets(budget);
      MinusSound(s, over);
      SoundDistinct(disk.idx.order);
      ReclaimedTwice(old(disk.View()), over, TotalGone(disk.idx.order, budget, cfg, headroom), disk.stuck);
      ReclaimedNothing(disk.View(), disk.stuck);
      var _, used := disk.idx.Stats();
      if Wrap64(used + headroom) <= Pct(budget, High(cfg)) {
        return;
      }
      var target := Pct(budget, Low(cfg)) - headroom;
      if target < 0 {
        target := 0;
      }
      if used > target {
        TakeMembers(disk.idx.order, used - target, "");
        TakeRest(disk.idx.order, used - target, "");
        var freed := disk.Evict(used - target, "");
        evicted := evicted + freed;
      }
    }

    method Admit(size: int) returns (ok: bool)
      requires disk.Valid() && Sound(disk.idx.order)
      modifies this`evicted, this`runs, disk`files, disk.idx, disk.idx.repr
      ensures disk.Valid() && disk.idx.repr == old(disk.idx.repr)
      ensures ok == AdmitSpec(old(disk.idx.order), budget, cfg, size).admitted
      ensures size > 0 ==> (ok <==> size <= budget)
      ensures var lim := Some(Limits(budget, cfg));
              disk.View() == Reclaimed(old(disk.View()), AdmitGone(old(disk.idx.order), lim, size), disk.stuck)
      ensures evicted - old(evicted) == Bytes(old(disk.idx.order)) - Bytes(disk.idx.order)
    {
      hide LruIndex.Index.Valid, Minus, Bytes, Collected, CollectGone, Sound;
      ReclaimedNothing(disk.View(), disk.stuck);
      if size <= 0 {
        return true;
      }
      AdmitExact(disk.idx.order, budget, cfg, size);
      if size > budget {
        return false;
      }
      var _, used := disk.idx.Stats();
      if Wrap64(used + size) <= budget {
        return true;
      }
      Collect(size);
      var _, after := disk.idx.Stats();
      return Wrap64(after + size) <= budget;
    }
  }

  lemma UnderNone(prefix: string)
    ensures Under([], prefix) == {}
  {
  }

  lemma UnderSame(a: seq<Entry>, b: seq<Entry>, prefix: string)
    requires forall e :: e in a <==> e in b
    ensures Under(a, prefix) == Under(b, prefix)
  {
  }

  lemma UnderAll(s: seq<Entry>, prefix: string)
    ensures forall e :: e in s && prefix <= e.key ==> e.key in Under(s, prefix)
  {
  }

  lemma UnderIs(s: seq<Entry>, prefix: string)
    ensures forall k :: k in Under(s, prefix) <==> prefix <= k && Holds(s, k)
  {
    forall k | prefix <= k && Holds(s, k) ensures k in Under(s, prefix) {
      var i :| 0 <= i < |s| && s[i].key == k;
      assert s[i] in s;
    }
    forall k | k in Under(s, prefix) ensures Holds(s, k) {
      var e :| e in s && prefix <= e.key && e.key == k;
      MemberHeld(s, e);
    }
  }

  lemma NotUnder(s: seq<Entry>, i: nat, prefix: string)
    requires Distinct(s) && i < |s|
    ensures s[i].key !in Under(s[..i], prefix)
  {
  }

  lemma NoBytes()
    ensures Bytes([]) == 0
  {
  }

  lemma NoKeys(ks: set<string>)
    ensures ks + KeysOf([]) == ks
  {
  }
}
