/** Paging through the index by key (engine/disk/disk.go, List). */
module Listing {
  import opened Keys
  import opened Sorting
  import opened Lru

  const DEFAULT_PAGE := 1000
  const MAX_PAGE := 10000

  predicate KeyLess(a: Entry, b: Entry) {
    Less(a.key, b.key)
  }

  predicate Kept(e: Entry, prefix: string, token: string) {
    (prefix == "" || prefix <= e.key) && (token == "" || (e.key != token && !Less(e.key, token)))
  }

  function Filter(s: seq<Entry>, prefix: string, token: string): seq<Entry> {
    if s == [] then [] else (if Kept(s[0], prefix, token) then [s[0]] else []) + Filter(s[1..], prefix, token)
  }

  function PageSize(asked: int): (n: int)
    ensures 1 <= n <= MAX_PAGE
  {
    if asked <= 0 then DEFAULT_PAGE else if asked > MAX_PAGE then MAX_PAGE else asked
  }

  datatype Page = Page(entries: seq<Entry>, next: string)

  /** One call over one snapshot of the index, in whatever order the map gave it. */
  function PageOf(snapshot: seq<Entry>, prefix: string, token: string, asked: int): Page {
    var all := Sort(KeyLess, Filter(snapshot, prefix, token));
    if |all| > PageSize(asked) then Page(all[..PageSize(asked)], all[PageSize(asked) - 1].key) else Page(all, "")
  }

  method List(snapshot: seq<Entry>, prefix: string, token: string, asked: int)
              returns (page: seq<Entry>, next: string)
    ensures Page(page, next) == PageOf(snapshot, prefix, token, asked)
  {
    var size := asked;
    if asked <= 0 {
      size := DEFAULT_PAGE;
    } else if asked > MAX_PAGE {
      size := MAX_PAGE;
    }
    var kept := [];
    for i := 0 to |snapshot|
      invariant kept == Filter(snapshot[..i], prefix, token)
    {
      var e := snapshot[i];
      assert snapshot[..i + 1] == snapshot[..i] + [e];
      FilterConcat(snapshot[..i], [e], prefix, token);
      if prefix != "" && !(prefix <= e.key) {
        continue;
      }
      if token != "" && (e.key == token || Less(e.key, token)) {
        continue;
      }
      kept := kept + [e];
    }
    assert snapshot[..|snapshot|] == snapshot;
    kept := Sort(KeyLess, kept);
    if |kept| > size {
      page := kept[..size];
      return page, page[|page| - 1].key;
    }
    return kept, "";
  }

  lemma {:induction false} FilterConcat(a: seq<Entry>, b: seq<Entry>, prefix: string, token: string)
    ensures Filter(a + b, prefix, token) == Filter(a, prefix, token) + Filter(b, prefix, token)
  {
    if a == [] {
      assert a + b == b;
    } else {
      var x, p, q := if Kept(a[0], prefix, token) then [a[0]]
          else [], Filter(a[1..], prefix, token), Filter(b, prefix, token);
      FilterConcat(a[1..], b, prefix, token);
      assert (a + b)[0] == a[0] && (a + b)[1..] == a[1..] + b;
      assert Filter(a + b, prefix, token) == x + (p + q);
      assert x + (p + q) == x + p + q;
    }
  }

  /** A snapshot of an index: keys occur once and are not empty. */
  ghost predicate Snapshot(s: seq<Entry>) {
    Distinct(s) && forall e :: e in s ==> e.key != ""
  }

  lemma {:induction false} FilterMembers(s: seq<Entry>, prefix: string, token: string)
    requires Snapshot(s)
    ensures forall e :: e in Filter(s, prefix, token) <==> e in s && prefix <= e.key && Less(token, e.key)
    ensures Distinct(Filter(s, prefix, token))
  {
    if s != [] {
      var t := s[1..];
      assert s == [s[0]] + t;
      assert forall i :: 0 <= i < |t| ==> t[i] == s[i + 1];
      FilterMembers(t, prefix, token);
      LessTotal(token, s[0].key);
      LessIrreflexive(token);
      if Less(token, s[0].key) {
        LessAsymmetric(token, s[0].key);
      }
      assert Kept(s[0], prefix, token) <==> prefix <= s[0].key && Less(token, s[0].key);
      var r := Filter(t, prefix, token);
      forall i | 0 <= i < |r| ensures r[i].key != s[0].key {
        assert r[i] in t;
      }
    }
  }

  lemma KeyLessOrders()
    ensures StrictOrder(KeyLess)
  {
    forall a: Entry ensures !KeyLess(a, a) {
      LessIrreflexive(a.key);
    }
    forall a, b, c | KeyLess(a, b) && KeyLess(b, c) ensures KeyLess(a, c) {
      LessTransitive(a.key, b.key, c.key);
    }
  }

  /** The sorted matches past the token: what a call pages out of. */
  lemma Matches(s: seq<Entry>, prefix: string, token: string) returns (all: seq<Entry>)
    requires Snapshot(s)
    ensures all == Sort(KeyLess, Filter(s, prefix, token)) && Sorted(KeyLess, all)
    ensures forall e :: e in all <==> e in s && prefix <= e.key && Less(token, e.key)
    ensures forall e :: e in all ==> e.key != ""
  {
    var f := Filter(s, prefix, token);
    FilterMembers(s, prefix, token);
    KeyLessOrders();
    forall i, j | 0 <= i < j < |f| ensures KeyLess(f[i], f[j]) || KeyLess(f[j], f[i]) {
      LessTotal(f[i].key, f[j].key);
    }
    SortSorts(KeyLess, f);
    all := Sort(KeyLess, f);
  }

  /** A page has as many entries as were asked for, within 1 to 10000, or 1000 if none were, or all
      the matches there are if they are fewer; a token says exactly that there are more. */
  lemma PageCounts(s: seq<Entry>, prefix: string, token: string, asked: int)
    requires Snapshot(s)
    ensures var p, n := PageOf(s, prefix, token, asked), |Filter(s, prefix, token)|;
            var most := if asked <= 0 then 1000 else if asked > 10000 then 10000 else asked;
            && |p.entries| == (if n > most then most else n)
            && (p.next != "" <==> n > most)
            && (p.next != "" ==> p.next == p.entries[most - 1].key)
  {
    SortLength(Filter(s, prefix, token));
    if |Filter(s, prefix, token)| > PageSize(asked) {
      MoreMeansToken(s, prefix, token, asked);
    }
    hide Sort, Filter, Snapshot;
  }

  lemma AfterPage(all: seq<Entry>, n: nat, i: nat)
    requires Sorted(KeyLess, all) && 0 < n <= i < |all|
    ensures KeyLess(all[n - 1], all[i])
  {
  }

  /** What a page leaves of the sorted matches is what sorts after its last key. */
  lemma PastPage(all: seq<Entry>, n: nat, e: Entry)
    requires Sorted(KeyLess, all) && 0 < n < |all|
    ensures e in all[n..] <==> e in all && Less(all[n - 1].key, e.key)
  {
    hide Less;
    if e in all {
      var i :| 0 <= i < |all| && all[i] == e;
      if i < n - 1 {
        assert KeyLess(all[i], all[n - 1]);
        LessAsymmetric(e.key, all[n - 1].key);
      } else if i == n - 1 {
        LessIrreflexive(e.key);
      } else {
        AfterPage(all, n, i);
        assert all[n..][i - n] == e;
      }
      if e in all[n..] {
        var j :| 0 <= j < |all| - n && all[n..][j] == e;
        AfterPage(all, n, n + j);
      }
    }
  }

  lemma MoreMeansToken(s: seq<Entry>, prefix: string, token: string, asked: int)
    requires Snapshot(s) && |Sort(KeyLess, Filter(s, prefix, token))| > PageSize(asked)
    ensures PageOf(s, prefix, token, asked).next != ""
  {
    hide Sort, Filter, Snapshot, Less, PageSize;
    var all := Matches(s, prefix, token);
    assert all[PageSize(asked) - 1] in all;
  }

  /** One page: sorted, past the token, and nothing between the token and its end is left out. */
  lemma PageSound(s: seq<Entry>, prefix: string, token: string, asked: int)
    requires Snapshot(s)
    ensures var p := PageOf(s, prefix, token, asked);
            && Sorted(KeyLess, p.entries)
            && (forall e :: e in p.entries ==> e in s && prefix <= e.key && Less(token, e.key))
            && (forall e :: e in p.entries && p.next != "" ==> e.key == p.next || Less(e.key, p.next))
            && (forall e :: e in s && prefix <= e.key && Less(token, e.key) && !Less(p.next, e.key) ==>
                e in p.entries)
            && (p.next == "" ==> forall e :: e in s && prefix <= e.key && Less(token, e.key) ==> e in p.entries)
            && (p.next != "" ==> Less(token, p.next) && |p.entries| == PageSize(asked))
  {
    hide Sort, Filter, Snapshot, Less, PageSize;
    var all := Matches(s, prefix, token);
    var p, n := PageOf(s, prefix, token, asked), PageSize(asked);
    if |all| > n {
      assert all[n - 1] in all && all[n - 1].key != "";
      forall e | e in s && prefix <= e.key && Less(token, e.key) && !Less(p.next, e.key) ensures e in p.entries {
        PastPage(all, n, e);
        assert all == all[..n] + all[n..];
      }
      forall e | e in p.entries ensures e in all && (e.key == p.next || Less(e.key, p.next)) {
        var i :| 0 <= i < n && all[i] == e;
        if i < n - 1 { assert KeyLess(all[i], all[n - 1]); }
      }
    }
  }

  /** The entries a client sees calling List until the token is empty, the index being
      snaps[i] at call i. */
  function Paged(snaps: seq<seq<Entry>>, prefix: string, token: string, asked: int): seq<Entry> {
    if snaps == [] then []
    else
      var p := PageOf(snaps[0], prefix, token, asked);
      if p.next == "" then p.entries else p.entries + Paged(snaps[1..], prefix, p.next, asked)
  }

  /** Whether those calls reached the last page. */
  predicate Finished(snaps: seq<seq<Entry>>, prefix: string, token: string, asked: int) {
    snaps != [] &&
    var p := PageOf(snaps[0], prefix, token, asked);
    p.next == "" || Finished(snaps[1..], prefix, p.next, asked)
  }

  /** Over all pages keys only increase, so none is seen twice, however the index changes between calls. */
  lemma {:induction false} PagedIncreases(snaps: seq<seq<Entry>>, prefix: string, token: string, asked: int)
    requires forall i :: 0 <= i < |snaps| ==> Snapshot(snaps[i])
    ensures Sorted(KeyLess, Paged(snaps, prefix, token, asked))
    ensures forall e :: e in Paged(snaps, prefix, token, asked) ==> Less(token, e.key) && prefix <= e.key
  {
    if snaps != [] {
      var p := PageOf(snaps[0], prefix, token, asked);
      PageSound(snaps[0], prefix, token, asked);
      if p.next != "" {
        PagedIncreases(snaps[1..], prefix, p.next, asked);
        var q := Paged(snaps[1..], prefix, p.next, asked);
        forall a, b | a in p.entries && b in q ensures Less(a.key, b.key) {
          if a.key != p.next { LessTransitive(a.key, p.next, b.key); }
        }
        forall e | e in q ensures Less(token, e.key) {
          LessTransitive(token, p.next, e.key);
        }
        JoinSorted(p.entries, q);
      }
    }
  }

  lemma JoinSorted(a: seq<Entry>, b: seq<Entry>)
    requires Sorted(KeyLess, a) && Sorted(KeyLess, b)
    requires forall x, y :: x in a && y in b ==> Less(x.key, y.key)
    ensures Sorted(KeyLess, a + b)
  {
  }

  /** A key that matches and is there at every call is seen by a client that reaches the last page. */
  lemma {:induction false} PagedComplete(snaps: seq<seq<Entry>>, prefix: string, token: string, asked: int, k: string)
    requires forall i :: 0 <= i < |snaps| ==> Snapshot(snaps[i]) && Holds(snaps[i], k)
    requires prefix <= k && Less(token, k) && Finished(snaps, prefix, token, asked)
    ensures Holds(Paged(snaps, prefix, token, asked), k)
  {
    var p := PageOf(snaps[0], prefix, token, asked);
    PageSound(snaps[0], prefix, token, asked);
    var e := Find(snaps[0], k);
    if e in p.entries {
      var i :| 0 <= i < |p.entries| && p.entries[i] == e;
      assert Paged(snaps, prefix, token, asked)[i].key == k;
    } else {
      assert p.next != "" && Less(p.next, k);
      PagedComplete(snaps[1..], prefix, p.next, asked, k);
      var q := Paged(snaps[1..], prefix, p.next, asked);
      var i :| 0 <= i < |q| && q[i].key == k;
      assert (p.entries + q)[|p.entries| + i].key == k;
    }
  }

  /** Paging an index that does not change; Dafny's termination check is the proof that it ends. */
  function AllPages(s: seq<Entry>, prefix: string, token: string, asked: int): seq<Entry>
    requires Snapshot(s)
    decreases |Filter(s, prefix, token)|
  {
    var p := PageOf(s, prefix, token, asked);
    if p.next == "" then p.entries
    else
      assert |Filter(s, prefix, p.next)| < |Filter(s, prefix, token)| by {
        Remaining(s, prefix, token, asked);
      }
      p.entries + AllPages(s, prefix, p.next, asked)
  }

  /** What the next call pages out of is what this one left. */
  lemma Remaining(s: seq<Entry>, prefix: string, token: string, asked: int)
    requires Snapshot(s) && PageOf(s, prefix, token, asked).next != ""
    ensures var next := PageOf(s, prefix, token, asked).next;
            && Sort(KeyLess, Filter(s, prefix, next)) == Sort(KeyLess, Filter(s, prefix, token))[PageSize(asked)..]
            && |Filter(s, prefix, next)| < |Filter(s, prefix, token)|
  {
    hide Sort, Filter, Snapshot, Less, PageSize, StrictOrder;
    var p, n := PageOf(s, prefix, token, asked), PageSize(asked);
    var all := Matches(s, prefix, token);
    var more := Matches(s, prefix, p.next);
    PageSound(s, prefix, token, asked);
    var rest := all[n..];
    forall e ensures e in more <==> e in rest {
      PastPage(all, n, e);
      if e in more {
        LessTransitive(token, p.next, e.key);
      }
    }
    KeyLessOrders();
    SortedUnique(KeyLess, more, rest);
    SortLength(Filter(s, prefix, token));
    SortLength(Filter(s, prefix, p.next));
  }

  lemma {:induction false} SortLength(s: seq<Entry>)
    ensures |Sort(KeyLess, s)| == |s|
  {
    if s != [] {
      SortLength(s[1..]);
      InsertLength(KeyLess, Sort(KeyLess, s[1..]), s[0]);
    }
  }

  /** On an index that does not change the pages spell out the sorted matches. */
  lemma {:induction false} AllPagesExact(s: seq<Entry>, prefix: string, token: string, asked: int)
    requires Snapshot(s)
    ensures AllPages(s, prefix, token, asked) == Sort(KeyLess, Filter(s, prefix, token))
    decreases |Filter(s, prefix, token)|
  {
    hide Sort, Filter, Snapshot, Less, PageSize;
    var p := PageOf(s, prefix, token, asked);
    var all := Matches(s, prefix, token);
    if p.next == "" {
      if |all| > PageSize(asked) {
        MoreMeansToken(s, prefix, token, asked);
      }
    } else {
      Remaining(s, prefix, token, asked);
      AllPagesExact(s, prefix, p.next, asked);
    }
  }
}
