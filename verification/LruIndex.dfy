/** The in-memory index of the volume: a map, an intrusive doubly linked list
    in LRU order, and running totals (engine/disk/index.go). */
module LruIndex {
  import opened Keys
  import opened Sorting
  import opened Lru
  import opened Tiers

  datatype Use = Use(entries: int, bytes: int)

  /** One object and one node of the list. */
  class Node {
    var val: Entry
    var prev: Node?
    var next: Node?

    constructor (e: Entry)
      ensures val == e
    {
      val, prev, next := e, null, null;
    }
  }

  /** ns, head first, is what next walks from head and prev walks from tail. */
  ghost predicate Linked(ns: seq<Node>, head: Node?, tail: Node?)
    reads ns
  {
    && (forall i, j :: 0 <= i < j < |ns| ==> ns[i] != ns[j])
    && (ns == [] ==> head == null && tail == null)
    && (ns != [] ==>
          && head == ns[0] && head.prev == null
          && tail == ns[|ns| - 1] && tail.next == null)
    && (forall i, j :: 0 <= i < |ns| && j == i + 1 < |ns| ==> ns[i].next == ns[j] && ns[j].prev == ns[i])
  }

  /** The pointers of a heap determine the sequence: following next from head there is one walk. */
  lemma LinkedUnique(a: seq<Node>, b: seq<Node>, head: Node?, tail: Node?)
    requires Linked(a, head, tail) && Linked(b, head, tail)
    ensures a == b
  {
    LinkedPrefix(a, b, head, tail, if |a| < |b| then |a| else |b|);
  }

  lemma {:induction false} LinkedPrefix(a: seq<Node>, b: seq<Node>, head: Node?, tail: Node?, k: nat)
    requires Linked(a, head, tail) && Linked(b, head, tail) && k <= |a| && k <= |b|
    ensures a[..k] == b[..k]
    ensures k == |a| || k == |b| ==> |a| == |b|
  {
    if k > 0 {
      LinkedPrefix(a, b, head, tail, k - 1);
      if k > 1 {
        assert a[k - 2] == a[..k - 1][k - 2] == b[..k - 1][k - 2] == b[k - 2];
        assert a[k - 2].next == a[k - 1] && b[k - 2].next == b[k - 1];
      }
      assert a[k - 1] == b[k - 1];
      if k < |a| { assert a[k - 1].next == a[k]; }
      if k < |b| { assert b[k - 1].next == b[k]; }
    }
  }

  class Index {
    var m: map<string, Node>
    var head: Node?
    var tail: Node?
    var used: int
    var n: int
    var fe: map<string, Use>
    var cold: bool
    var tombs: set<string>

    ghost var nodes: seq<Node>
    ghost var repr: set<Node>
    ghost var order: seq<Entry>

    /** The map and the list hold the same nodes. */
    ghost predicate Mapped()
      reads this, nodes
    {
      && |nodes| == |order|
      && Maps(m, nodes, order)
      && forall i :: 0 <= i < |nodes| ==> nodes[i].val == order[i]
    }

    ghost predicate Owned()
      reads this
    {
      forall i :: 0 <= i < |nodes| ==> nodes[i] in repr
    }

    /** Every running total equals the one recomputed from the list. */
    ghost predicate Counted()
      reads this
    {
      && used == Bytes(order)
      && n == |order|
      && Tally(fe, order)
    }

    ghost predicate Valid()
      reads this, repr
    {
      Owned() && Linked(nodes, head, tail) && Mapped() && Counted()
    }

    ghost function View(): Lru.Index
      reads this
    {
      Lru.Index(order, cold, tombs)
    }

    constructor ()
      ensures Valid() && View() == Lru.Index([], true, {}) && fresh(repr)
    {
      m, head, tail, used, n, fe, cold, tombs := map[], null, null, 0, 0, map[], true, {};
      nodes, order, repr := [], [], {};
    }

    /** The list part of linkFront. */
    method LinkFront(e: Node)
      requires Linked(nodes, head, tail) && e !in nodes
      modifies this`head, this`tail, this`nodes, nodes`prev, e`prev, e`next
      ensures nodes == [e] + old(nodes) && Linked(nodes, head, tail)
    {
      e.prev := null;
      e.next := head;
      if head != null {
        head.prev := e;
      }
      head := e;
      if tail == null {
        tail := e;
      }
      nodes := [e] + nodes;
    }

    method Unlink(e: Node, ghost i: nat)
      requires Linked(nodes, head, tail) && i < |nodes| && nodes[i] == e
      modifies this`head, this`tail, this`nodes, nodes`prev, nodes`next
      ensures nodes == old(nodes)[..i] + old(nodes)[i + 1..] && Linked(nodes, head, tail)
      ensures e !in nodes
    {
      ghost var ns := nodes;
      assert e.prev == if i == 0 then null else ns[i - 1];
      assert e.next == if i + 1 < |ns| then ns[i + 1] else null;
      if e.prev != null {
        e.prev.next := e.next;
      } else {
        head := e.next;
      }
      if e.next != null {
        e.next.prev := e.prev;
      } else {
        tail := e.prev;
      }
      e.prev, e.next := null, null;
      nodes := nodes[..i] + nodes[i + 1..];
    }

    method Account(f: string, entries: int, bytes: int)
      modifies this`fe
      ensures fe == Accounted(old(fe), f, entries, bytes)
    {
      var u := if f in fe then fe[f] else Use(0, 0);
      u := Use(u.entries + entries, u.bytes + bytes);
      fe := fe[f := u];
      if u.entries <= 0 && u.bytes <= 0 {
        fe := fe - {f};
      }
    }

    /** The list and the totals lose the entry at i; the map is the caller's. */
    method Detach(e: Node, ghost i: nat)
      requires Linked(nodes, head, tail) && Counted()
      requires i < |nodes| == |order| && nodes[i] == e && order[i] == e.val
      modifies this`head, this`tail, this`nodes, this`order, this`used, this`n, this`fe, nodes`prev, nodes`next
      ensures nodes == old(nodes)[..i] + old(nodes)[i + 1..] && e !in nodes
      ensures order == old(order)[..i] + old(order)[i + 1..]
      ensures Linked(nodes, head, tail) && Counted()
    {
      hide Linked, Tally, Bytes, Of;
      Unlink(e, i);
      used := used - e.val.onDisk;
      n := n - 1;
      Account(e.val.frontend, -1, -e.val.onDisk);
      TotalsWithoutAt(order, i, "");
      TallyWithoutAt(old(fe), order, i);
      order := order[..i] + order[i + 1..];
    }

    /** The list and the totals gain e at the front; the map is the caller's. */
    method Attach(e: Node)
      requires Linked(nodes, head, tail) && Counted() && e !in nodes
      modifies this`head, this`tail, this`nodes, this`order, this`used, this`n, this`fe, nodes`prev, e`prev, e`next
      ensures nodes == [e] + old(nodes) && order == [e.val] + old(order)
      ensures Linked(nodes, head, tail) && Counted()
    {
      hide Linked, Tally, Bytes, Of;
      LinkFront(e);
      used := used + e.val.onDisk;
      n := n + 1;
      Account(e.val.frontend, 1, e.val.onDisk);
      TotalsWithFront(e.val, order, "");
      TallyWithFront(old(fe), e.val, order);
      order := [e.val] + order;
    }

    /** The entry for k leaves the map, the list and the totals. */
    method Drop(k: string) returns (ghost i: nat)
      requires Valid() && k in m
      modifies this`m, this`head, this`tail, this`nodes, this`order, this`used, this`n, this`fe, repr`prev, repr`next
      ensures Valid() && k !in m && old(m[k]) !in nodes
      ensures i < |old(nodes)| == |old(order)| && old(order)[i].key == k
      ensures nodes == old(nodes)[..i] + old(nodes)[i + 1..]
      ensures order == old(order)[..i] + old(order)[i + 1..] == Without(old(order), k)
    {
      hide Maps, Linked, Tally, Distinct, Holds, Without, Find, Bytes, Of;
      i := Position(m, nodes, order, k);
      WithoutAt(order, i);
      MapsWithoutAt(m, nodes, order, i);
      var e := m[k];
      Detach(e, i);
      m := m - {k};
    }

    /** A node joins the map, the front of the list and the totals. */
    method Join(x: Node)
      requires Valid() && x !in nodes && x.val.key !in m
      modifies this`m, this`head, this`tail, this`nodes, this`order, this`used, this`n, this`fe, this`repr
      modifies repr`prev, x`prev, x`next
      ensures Valid() && repr == old(repr) + {x}
      ensures order == [x.val] + old(order)
    {
      hide Maps, Linked, Tally, Distinct, Holds, Without, Find, Bytes, Of;
      MapsWithFront(m, nodes, order, x, x.val);
      Attach(x);
      repr := repr + {x};
      m := m[x.val.key := x];
    }

    method Set(e: Entry)
      requires Valid()
      modifies this, repr
      ensures Valid() && fresh(repr - old(repr)) && View() == Lru.Set(old(View()), e)
    {
      hide Maps, Linked, Tally, Distinct, Holds, Without, Bytes, Of;
      if e.key in m {
        ghost var _ := Drop(e.key);
      } else {
        Absent(e.key);
      }
      var x := new Node(e);
      Join(x);
      tombs := tombs - {e.key};
    }

    method AddIfAbsent(e: Entry) returns (took: bool)
      requires Valid()
      modifies this, repr
      ensures Valid() && fresh(repr - old(repr)) && View() == Lru.AddIfAbsent(old(View()), e)
      ensures took <==> !Holds(old(order), e.key) && e.key !in old(tombs)
    {
      hide Maps, Linked, Tally, Distinct, Without, Bytes, Of;
      if e.key in m {
        Present(e.key);
        return false;
      }
      Absent(e.key);
      if e.key in tombs {
        return false;
      }
      var x := new Node(e);
      Join(x);
      return true;
    }

    method Touch(key: string, at: int) returns (had: bool)
      requires Valid()
      modifies this, repr
      ensures Valid() && repr == old(repr) && View() == Lru.Touch(old(View()), key, at)
      ensures had <==> Holds(old(order), key)
    {
      hide Maps, Linked, Tally, Distinct, Without, Bytes, Of;
      if key !in m {
        Absent(key);
        return false;
      }
      Present(key);
      Retime(key, at);
      return true;
    }

    /** The body of touch on a key the index holds. */
    method Retime(key: string, at: int)
      requires Valid() && key in m
      modifies this`m, this`head, this`tail, this`nodes, this`order, this`used, this`n, this`fe, this`repr, repr
      ensures Valid() && repr == old(repr) && Holds(old(order), key)
      ensures order == [Find(old(order), key).(lastAccess := at)] + Without(old(order), key)
    {
      hide Maps, Linked, Tally, Distinct, Holds, Without, Bytes, Of;
      Present(key);
      var e := m[key];
      ghost var _ := Drop(key);
      e.val := e.val.(lastAccess := at);
      Join(e);
    }

    method Remove(key: string) returns (was: Option<Entry>)
      requires Valid()
      modifies this, repr
      ensures Valid() && repr == old(repr) && View() == Lru.Remove(old(View()), key)
      ensures was == if Holds(old(order), key) then Some(Find(old(order), key)) else None
    {
      hide Maps, Linked, Tally, Distinct, Without, Bytes, Of;
      if cold {
        tombs := tombs + {key};
      }
      if key !in m {
        Absent(key);
        return None;
      }
      Present(key);
      was := Some(m[key].val);
      ghost var _ := Drop(key);
    }

    /** removeLocked on the entry at position j. */
    method RemoveAt(key: string, ghost j: nat)
      requires Valid() && j < |order| && order[j].key == key
      modifies this, repr
      ensures Valid() && repr == old(repr) && cold == old(cold)
      ensures tombs == if cold then old(tombs) + {key} else old(tombs)
      ensures |old(nodes)| == |old(order)|
      ensures nodes == old(nodes)[..j] + old(nodes)[j + 1..] && order == old(order)[..j] + old(order)[j + 1..]
    {
      hide Linked, Tally, Without, Bytes, Of;
      if cold {
        tombs := tombs + {key};
      }
      ghost var i := Drop(key);
      assert i == j;
    }

    method TakeLru(n: int, f: string) returns (victims: seq<Entry>)
      requires Valid()
      modifies this, repr
      ensures Valid() && repr == old(repr) && View() == Lru.TakeLru(old(View()), n, f)
      ensures victims == Take(old(order), n, f).victims
    {
      hide Valid, Take, Taking, KeysOf;
      victims := [];
      TakeDone([], n, f);
      if n <= 0 {
        TakeDone(order, n, f);
        return;
      }
      var freed := 0;
      var e := tail;
      ghost var s, j, kept := order, |order|, [];
      TakingStart(s, n, f);
      Neighbours(j);
      while e != null && freed < n
        invariant Valid() && repr == old(repr) && cold == old(cold)
        invariant 0 <= j <= |s| && |nodes| == |order| && order == s[..j] + kept
        invariant e == if j == 0 then null else nodes[j - 1]
        invariant Taking(s, n, f, j, n - freed, victims, kept)
        invariant tombs == if cold then old(tombs) + KeysOf(victims) else old(tombs)
        decreases j
      {
        TakingStep(s, n, f, j, n - freed, victims, kept);
        Neighbours(j - 1);
        var prev := e.prev;
        if f == "" || e.val.frontend == f {
          freed := freed + e.val.onDisk;
          KeysOfAppend(victims, e.val);
          victims := victims + [e.val];
          RemoveAt(e.val.key, j - 1);
        } else {
          kept := [e.val] + kept;
        }
        e := prev;
        j := j - 1;
      }
      TakingEnds(s, n, f, j, n - freed, victims, kept);
      assert old(tombs) + {} == old(tombs);
    }

    /** What sits at position j of the list and before it; one past the end is the tail's successor. */
    lemma Neighbours(j: nat)
      requires Valid() && j <= |order|
      ensures |nodes| == |order|
      ensures j < |order| ==> nodes[j].val == order[j] && nodes[j] in repr && nodes[j].prev == (if j == 0 then null
                else nodes[j - 1])
      ensures j == |order| ==> tail == (if j == 0 then null else nodes[j - 1])
    {
    }

    method Stats() returns (entries: int, bytes: int)
      requires Valid()
      ensures entries == |order| && bytes == Bytes(order)
    {
      return n, used;
    }

    method UsedBy(f: string) returns (entries: int, bytes: int)
      requires Valid()
      ensures entries == |Of(order, f)| && bytes == Bytes(Of(order, f))
    {
      assert TallyAt(fe, order, f);
      if f in fe {
        return fe[f].entries, fe[f].bytes;
      }
      return 0, 0;
    }

    /** Every live entry, in the order the map happens to give them. */
    method Collect() returns (all: seq<Entry>)
      requires Valid()
      ensures Distinct(all) && forall e :: e in all <==> e in order
    {
      hide Maps, Linked, Tally, Bytes, Of;
      var keys := m.Keys;
      Known();
      all := [];
      while keys != {}
        invariant keys <= m.Keys && Distinct(all)
        invariant forall e :: e in all <==> e in order && e.key !in keys
      {
        var k :| k in keys;
        ghost var i := Position(m, nodes, order, k);
        all := all + [m[k].val];
        keys := keys - {k};
      }
    }

    lemma Known()
      requires Valid()
      ensures forall e :: e in order ==> e.key in m
    {
      forall e | e in order ensures e.key in m {
        var i :| 0 <= i < |order| && order[i] == e;
      }
    }

    /** The list is rebuilt over the nodes the sorted entries name. */
    method Relink(sorted: seq<Entry>, ghost ns: seq<Node>)
      requires |ns| == |sorted|
      requires forall i :: 0 <= i < |ns| ==> sorted[i].key in m && m[sorted[i].key] == ns[i] && ns[i] in repr
      requires forall i, j :: 0 <= i < j < |ns| ==> ns[i] != ns[j]
      modifies this`head, this`tail, this`nodes, repr`prev, repr`next
      ensures nodes == ns && Linked(nodes, head, tail)
    {
      head, tail, nodes := null, null, [];
      var i := |sorted|;
      while i > 0
        invariant 0 <= i <= |sorted| && nodes == ns[i..] && Linked(nodes, head, tail)
      {
        i := i - 1;
        var x := m[sorted[i].key];
        assert x !in ns[i + 1..];
        LinkFront(x);
        assert [ns[i]] + ns[i + 1..] == ns[i..];
      }
    }

    method FinishWalk()
      requires Valid()
      modifies this, repr
      ensures Valid() && repr == old(repr) && View() == Lru.FinishWalk(old(View()))
    {
      hide Maps, Distinct, Linked, Tally, Bytes, Of, SortByAccess, Holds, Find;
      var all := Collect();
      var sorted := SortByAccess(all);
      ghost var ns := Resort(all);
      Relink(sorted, ns);
      order := sorted;
      cold, tombs := false, {};
      assert Owned() && Counted() by { hide Mapped; }
      assert Mapped() by { hide Owned, Counted; }
    }

    /** Sorting any enumeration of the map names the nodes of the sorted list. */
    lemma Resort(all: seq<Entry>) returns (ns: seq<Node>)
      requires Valid() && Distinct(all) && forall e :: e in all <==> e in order
      ensures SortByAccess(all) == SortByAccess(order)
      ensures Maps(m, ns, SortByAccess(all)) && Tally(fe, SortByAccess(all))
      ensures used == Bytes(SortByAccess(all)) && n == |ns|
      ensures |ns| == |SortByAccess(all)|
      ensures forall i :: 0 <= i < |ns| ==>
                            var e := SortByAccess(all)[i];
                            e.key in m && m[e.key] == ns[i] && ns[i] in repr && ns[i].val == e
      ensures forall i, j :: 0 <= i < j < |ns| ==> ns[i] != ns[j]
    {
      hide Linked, Of, Bytes, Newer, Sort, Sorted, StrictOrder;
      var r := SortByAccess(all);
      SortsByAccess(all);
      SortsByAccess(order);
      NewerOrders();
      SortedUnique(Newer, r, SortByAccess(order));
      forall i | 0 <= i < |r| ensures r[i].key in m && m[r[i].key] in repr && m[r[i].key].val == r[i] {
        assert r[i] in order;
        var j :| 0 <= j < |order| && order[j] == r[i];
        assert nodes[j] in repr;
      }
      var here := m;
      ns := seq(|r|, i requires 0 <= i < |r| => here[r[i].key]);
      forall k | k in m ensures Holds(r, k) {
        var j := Position(m, nodes, order, k);
        assert order[j] in r;
      }
      SortTotals(order, "");
      forall f ensures TallyAt(fe, r, f) {
        assert TallyAt(fe, order, f);
        SortTotals(order, f);
      }
    }

    /** What sits at position i of the list and after it. */
    lemma Successor(i: nat)
      requires Valid() && i <= |order|
      ensures |nodes| == |order| && head == (if order == [] then null else nodes[0])
      ensures i < |order| ==> nodes[i].val == order[i]
      ensures i < |order| ==> nodes[i].next == (if i + 1 < |order| then nodes[i + 1] else null)
    {
    }

    /** The records save encodes, walked from head to tail. */
    method Save() returns (recs: seq<Record>)
      requires Valid()
      ensures recs == Records(order)
    {
      hide Valid;
      recs := [];
      var e := head;
      ghost var i := 0;
      Successor(0);
      while e != null
        invariant 0 <= i <= |order| && e == (if i < |nodes| then nodes[i] else null)
        invariant |recs| == i && forall j :: 0 <= j < i ==> recs[j] == RecordOf(order[j])
        decreases |order| - i
      {
        Successor(i);
        recs := recs + [RecordOf(e.val)];
        e := e.next;
        i := i + 1;
      }
    }

    /** What load keeps whatever the file says: list, links and totals are right, and the map is
        as long as no key came twice. */
    ghost predicate Seeded()
      reads this, repr
    {
      && Owned() && Linked(nodes, head, tail) && Counted()
      && |nodes| == |order| && (forall i :: 0 <= i < |nodes| ==> nodes[i].val == order[i])
      && (Distinct(order) ==> Maps(m, nodes, order))
    }

    /** Replaces the contents from saved records. List, links and totals are those of the usable
        records; the index is valid exactly when they name each key once. */
    method Load(recs: seq<Record>)
      modifies this
      ensures fresh(repr) && Linked(nodes, head, tail) && Counted()
      ensures View() == old(View()).(order := Loaded(recs))
      ensures Valid() <==> Distinct(Loaded(recs))
    {
      hide Maps, Linked, Tally, Distinct, Without, Bytes, Of, FrontendDir, Counted, Seeded;
      Clear();
      ClearSeeds();
      var i := |recs|;
      while i > 0
        invariant 0 <= i <= |recs| && Seeded() && fresh(repr)
        invariant View() == old(View()).(order := Loaded(recs[i..]))
      {
        i := i - 1;
        var r := recs[i];
        LoadedNext(recs, i);
        if r.key == "" || r.onDisk <= 0 {
          continue;
        }
        var x := new Node(Entry(r.key, FrontendDir(r.key), r.size, r.onDisk, r.lastAccess, r.immutable));
        Seed(x);
      }
      assert recs[0..] == recs;
      SeededValid();
    }

    /** One record's turn: the map forgets an earlier node of the key, the list does not. */
    method Seed(x: Node)
      requires Seeded() && x !in repr
      modifies this`m, this`head, this`tail, this`nodes, this`order, this`used, this`n, this`fe, this`repr
      modifies repr`prev, x`prev, x`next
      ensures Seeded() && repr == old(repr) + {x} && order == [x.val] + old(order)
    {
      hide Maps, Linked, Tally, Distinct, Holds, Bytes, Of;
      if Distinct([x.val] + order) {
        FrontDistinct(x.val, order);
        UnheldUnmapped(m, nodes, order, x.val.key);
        MapsWithFront(m, nodes, order, x, x.val);
      }
      Attach(x);
      repr := repr + {x};
      m := m[x.val.key := x];
    }

    lemma ClearSeeds()
      requires Valid()
      ensures Seeded()
    {
    }

    lemma SeededValid()
      requires Seeded()
      ensures Linked(nodes, head, tail) && Counted() && (Valid() <==> Distinct(order))
    {
    }

    method Clear()
      modifies this
      ensures Valid() && repr == {} && View() == old(View()).(order := [])
    {
      hide FrontendDir;
      m, fe, head, tail, used, n := map[], map[], null, null, 0, 0;
      nodes, order, repr := [], [], {};
    }

    lemma Present(k: string)
      requires Valid() && k in m
      ensures Holds(order, k) && m[k] in repr && m[k].val == Find(order, k)
    {
      var i := Position(m, nodes, order, k);
    }

    lemma Absent(k: string)
      requires Valid() && k !in m
      ensures !Holds(order, k) && Without(order, k) == order
    {
      assert forall i :: 0 <= i < |order| ==> order[i].key in m;
      WithoutAbsent(order, k);
    }
  }

  ghost predicate Maps(m: map<string, Node>, ns: seq<Node>, s: seq<Entry>) {
    && |ns| == |s|
    && (forall i :: 0 <= i < |s| ==> s[i].key in m && m[s[i].key] == ns[i])
    && (forall k :: k in m ==> Holds(s, k))
    && Distinct(s)
  }

  lemma FrontDistinct(e: Entry, s: seq<Entry>)
    requires Distinct([e] + s)
    ensures Distinct(s) && !Holds(s, e.key)
  {
    var r := [e] + s;
    forall i | 0 <= i < |s| ensures s[i].key != e.key {
      assert r[0] == e && r[i + 1] == s[i];
    }
    forall i, j | 0 <= i < j < |s| ensures s[i].key != s[j].key {
      assert r[i + 1] == s[i] && r[j + 1] == s[j];
    }
  }

  lemma UnheldUnmapped(m: map<string, Node>, ns: seq<Node>, s: seq<Entry>, k: string)
    requires Maps(m, ns, s) && !Holds(s, k)
    ensures k !in m
  {
  }

  lemma Position(m: map<string, Node>, ns: seq<Node>, s: seq<Entry>, k: string) returns (i: nat)
    requires Maps(m, ns, s) && k in m
    ensures i < |s| == |ns| && s[i].key == k && m[k] == ns[i]
    ensures Distinct(s) && Holds(s, k) && Find(s, k) == s[i]
  {
    i :| i < |s| && s[i].key == k;
    var j :| 0 <= j < |s| && s[j] == Find(s, k);
  }

  lemma DistinctWithoutAt(s: seq<Entry>, i: nat)
    requires Distinct(s) && i < |s|
    ensures Distinct(s[..i] + s[i + 1..])
  {
    var r := s[..i] + s[i + 1..];
    forall a, b | 0 <= a < b < |r| ensures r[a].key != r[b].key {
      var x, y := if a < i then a else a + 1, if b < i then b else b + 1;
      assert r[a] == s[x] && r[b] == s[y];
    }
  }

  lemma HoldsWithoutAt(s: seq<Entry>, i: nat, k: string)
    requires i < |s| && Holds(s, k) && k != s[i].key
    ensures Holds(s[..i] + s[i + 1..], k)
  {
    var r := s[..i] + s[i + 1..];
    var j :| 0 <= j < |s| && s[j].key == k;
    assert r[if j < i then j else j - 1].key == k;
  }

  lemma MapsAt(m: map<string, Node>, ns: seq<Node>, s: seq<Entry>, i: nat, j: nat)
    requires Maps(m, ns, s) && i < |s| && j < |s| - 1
    ensures var r, q := s[..i] + s[i + 1..], ns[..i] + ns[i + 1..];
            r[j].key != s[i].key && r[j].key in m && m[r[j].key] == q[j]
  {
    var h := if j < i then j else j + 1;
    assert s[h].key in m && m[s[h].key] == ns[h];
  }

  lemma MapsWithoutAt(m: map<string, Node>, ns: seq<Node>, s: seq<Entry>, i: nat)
    requires Maps(m, ns, s) && i < |s|
    ensures Maps(m - {s[i].key}, ns[..i] + ns[i + 1..], s[..i] + s[i + 1..])
  {
    var r, q := s[..i] + s[i + 1..], ns[..i] + ns[i + 1..];
    DistinctWithoutAt(s, i);
    hide Distinct, Holds;
    forall j | 0 <= j < |r| ensures r[j].key != s[i].key && r[j].key in m && m[r[j].key] == q[j] {
      MapsAt(m, ns, s, i, j);
    }
    forall k | k in m && k != s[i].key ensures Holds(r, k) {
      HoldsWithoutAt(s, i, k);
    }
  }

  lemma MapsWithFront(m: map<string, Node>, ns: seq<Node>, s: seq<Entry>, x: Node, e: Entry)
    requires Maps(m, ns, s) && e.key !in m
    ensures Maps(m[e.key := x], [x] + ns, [e] + s)
  {
    var r := [e] + s;
    assert r[0].key == e.key;
    forall k | k in m ensures Holds(r, k) {
      var j := Position(m, ns, s, k);
      assert r[j + 1].key == k;
    }
  }

  function Accounted(fe: map<string, Use>, f: string, entries: int, bytes: int): map<string, Use> {
    var u := if f in fe then fe[f] else Use(0, 0);
    var w := Use(u.entries + entries, u.bytes + bytes);
    if w.entries <= 0 && w.bytes <= 0 then fe - {f} else fe[f := w]
  }

  ghost predicate TallyAt(fe: map<string, Use>, s: seq<Entry>, f: string) {
    && (f in fe <==> Of(s, f) != [])
    && (f in fe ==> fe[f] == Use(|Of(s, f)|, Bytes(Of(s, f))))
  }

  /** fe holds exactly the front-ends of s, with their totals. */
  ghost predicate Tally(fe: map<string, Use>, s: seq<Entry>) {
    forall f :: TallyAt(fe, s, f)
  }

  lemma TallyWithoutAt(fe: map<string, Use>, s: seq<Entry>, i: nat)
    requires i < |s| && Tally(fe, s)
    ensures Tally(Accounted(fe, s[i].frontend, -1, -s[i].onDisk), s[..i] + s[i + 1..])
  {
    var fe', r := Accounted(fe, s[i].frontend, -1, -s[i].onDisk), s[..i] + s[i + 1..];
    forall f ensures TallyAt(fe', r, f) {
      assert TallyAt(fe, s, f);
      OfMembers(s, f);
      TotalsWithoutAt(s, i, f);
    }
  }

  lemma TallyWithFront(fe: map<string, Use>, x: Entry, s: seq<Entry>)
    requires Tally(fe, s)
    ensures Tally(Accounted(fe, x.frontend, 1, x.onDisk), [x] + s)
  {
    forall f ensures TallyAt(Accounted(fe, x.frontend, 1, x.onDisk), [x] + s, f) {
      assert TallyAt(fe, s, f);
      TotalsWithFront(x, s, f);
    }
  }
}
