/**
  The write cache of trie/database.go: dirty nodes with reference counters and
  a flush list threaded through them.

  This module holds the representation and what must hold of it; module
  `Database` holds the operations.
 */
module NodeCache {
  import opened Bytes

  /** The hash of no node: the key of the meta-root, and the end of the flush list. */
  const ZERO: Hash :=
    [0, 0, 0, 0, 0, 0, 0, 0, 0, 0, 0, 0, 0, 0, 0, 0, 0, 0, 0, 0, 0, 0, 0, 0, 0, 0, 0, 0, 0, 0, 0, 0]

  datatype Entry = Entry(
    kids: seq<Hash>,           // hashes inside the node
    size: nat,
    parents: nat,              // counted references to this node
    children: multiset<Hash>,  // references from this node that are not inside it
    flushPrev: Hash,
    flushNext: Hash)

  type Dirties = map<Hash, Entry>

  // ---------- references ----------

  function RefsOf(e: Entry): (m: multiset<Hash>) {
    multiset(e.kids) + e.children
  }

  /** All references from these nodes. */
  ghost function Refs(m: Dirties): (r: multiset<Hash>)
    decreases m.Keys
  {
    if m == map[] then multiset{}
    else
      var h :| h in m;
      RefsOf(m[h]) + Refs(m - {h})
  }

  lemma {:induction false} RefsRemove(m: Dirties, h: Hash)
    requires h in m
    ensures Refs(m) == RefsOf(m[h]) + Refs(m - {h})
    decreases m.Keys
  {
    hide RefsOf;
    var j :| j in m && Refs(m) == RefsOf(m[j]) + Refs(m - {j});
    if j != h {
      RefsRemove(m - {j}, h);
      RefsRemove(m - {h}, j);
      assert m - {j} - {h} == m - {h} - {j};
    }
  }

  lemma RefsSet(m: Dirties, h: Hash, e: Entry)
    ensures Refs(m[h := e]) + (if h in m then RefsOf(m[h]) else multiset{}) == Refs(m) + RefsOf(e)
  {
    hide RefsOf;
    var r := m[h := e];
    RefsRemove(r, h);
    assert r - {h} == m - {h};
    if h in m {
      RefsRemove(m, h);
    } else {
      assert m - {h} == m;
    }
  }

  lemma {:induction false} RefsMember(m: Dirties, p: Hash)
    requires p in m
    ensures RefsOf(m[p]) <= Refs(m)
  {
    RefsRemove(m, p);
  }

  /** The entries agree on what they refer to. */
  predicate SameRefs(m: Dirties, n: Dirties) {
    m.Keys == n.Keys && forall h :: h in m ==> RefsOf(n[h]) == RefsOf(m[h])
  }

  lemma {:induction false} RefsSame(m: Dirties, n: Dirties)
    requires SameRefs(m, n)
    ensures Refs(m) == Refs(n)
    decreases m.Keys
  {
    hide RefsOf;
    if m != map[] {
      var h :| h in m;
      RefsSame(m - {h}, n - {h});
      RefsRemove(m, h);
      RefsRemove(n, h);
    } else {
      assert n == map[];
    }
  }

  // ---------- counters and availability ----------

  /** A node that is not on disk counts at least its references: from live nodes, and those about to be dropped. */
  ghost predicate Counted(live: Dirties, disk: set<Hash>, pending: multiset<Hash>) {
    forall h :: h in live && h != ZERO && h !in disk ==> live[h].parents >= Refs(live)[h] + pending[h]
  }

  /** Data availability: whatever a cached node refers to is in the cache or on disk. */
  ghost predicate Available(live: Dirties, disk: set<Hash>) {
    forall p, h :: p in live && h in RefsOf(live[p]) ==> h in live || h in disk
  }

  /** References go down in a Merkle order, and only the meta-root refers to a node more than once from outside. */
  ghost predicate Ordered(live: Dirties, rank: Hash -> nat) {
    ZERO in live && live[ZERO].kids == [] &&
    (forall p, h :: p in live && h in RefsOf(live[p]) ==> Down(rank, p, h)) &&
    forall p :: p in live && p != ZERO ==> Single(live[p].children)
  }

  predicate Down(rank: Hash -> nat, p: Hash, h: Hash) {
    h != ZERO && (p != ZERO ==> rank(h) < rank(p))
  }

  ghost predicate Single(m: multiset<Hash>) {
    forall h :: m[h] <= 1
  }

  ghost predicate Sane(live: Dirties, disk: set<Hash>, pending: multiset<Hash>, rank: Hash -> nat) {
    Counted(live, disk, pending) && Available(live, disk) && Ordered(live, rank)
  }

  // ---------- the flush list ----------

  predicate Distinct(s: seq<Hash>) {
    forall i, j :: 0 <= i < j < |s| ==> s[i] != s[j]
  }

  function NextOf(order: seq<Hash>, i: nat): (h: Hash)
    requires i < |order|
  {
    if i + 1 < |order| then order[i + 1] else ZERO
  }

  /** The links at position `i`; the head's back link is not looked at. */
  ghost predicate Linked(live: Dirties, order: seq<Hash>, i: nat)
    requires i < |order|
  {
    order[i] in live && live[order[i]].flushNext == NextOf(order, i) &&
    (i > 0 ==> live[order[i]].flushPrev == order[i - 1])
  }

  /**
    Following `flushNext` from `oldest` visits every cached node but the
    meta-root exactly once, oldest first, and the back links run the other way.
   */
  ghost predicate FlushList(live: Dirties, oldest: Hash, newest: Hash, order: seq<Hash>) {
    Distinct(order) && (forall h :: h in order <==> h in live && h != ZERO) &&
    oldest == (if order == [] then ZERO else order[0]) &&
    (order != [] ==> newest == order[|order| - 1]) &&
    forall i :: 0 <= i < |order| ==> Linked(live, order, i)
  }

  function SetNext(m: Dirties, h: Hash, next: Hash): (r: Dirties)
    requires h in m
  {
    m[h := m[h].(flushNext := next)]
  }

  function SetPrev(m: Dirties, h: Hash, prev: Hash): (r: Dirties)
    requires h in m
  {
    m[h := m[h].(flushPrev := prev)]
  }

  datatype Ends = Ends(oldest: Hash, newest: Hash)

  /** Taking a node out of the list: the links around it, and the ends. */
  function Unlinked(m: Dirties, ends: Ends, h: Hash): (r: (Dirties, Ends))
    requires h in m && m[h].flushNext in m && (h != ends.oldest ==> m[h].flushPrev in m)
  {
    var e := m[h];
    if h == ends.oldest then (SetPrev(m, e.flushNext, ZERO), ends.(oldest := e.flushNext))
    else if h == ends.newest then (SetNext(m, e.flushPrev, ZERO), ends.(newest := e.flushPrev))
    else (SetPrev(SetNext(m, e.flushPrev, e.flushNext), e.flushNext, e.flushPrev), ends)
  }

  function Without(order: seq<Hash>, i: nat): (r: seq<Hash>)
    requires i < |order|
  {
    order[..i] + order[i + 1..]
  }

  /** The neighbours a node names are there. */
  lemma Neighbours(live: Dirties, ends: Ends, order: seq<Hash>, i: nat)
    requires FlushList(live, ends.oldest, ends.newest, order) && i < |order| && ZERO in live
    ensures var h := order[i];
            h in live && h != ZERO && live[h].flushNext in live && (h == ends.oldest <==> i == 0) &&
            (i > 0 ==> live[h].flushPrev in live && (h == ends.newest <==> i == |order| - 1))
  {
    assert Linked(live, order, i);
    assert i > 0 ==> order[i - 1] in order;
    assert i + 1 < |order| ==> order[i + 1] in order;
  }

  lemma UnlinkOk(live: Dirties, ends: Ends, order: seq<Hash>, i: nat)
    requires FlushList(live, ends.oldest, ends.newest, order) && i < |order| && ZERO in live
    ensures order[i] in live && live[order[i]].flushNext in live
    ensures order[i] != ends.oldest ==> live[order[i]].flushPrev in live
    ensures var (m, e) := Unlinked(live, ends, order[i]);
            FlushList(m - {order[i]}, e.oldest, e.newest, Without(order, i))
  {
    Neighbours(live, ends, order, i);
    var h, rest := order[i], Without(order, i);
    var (m, e) := Unlinked(live, ends, h);
    assert m.Keys == live.Keys;
    RestMembers(order, i);
    UnlinkedEnds(live, ends, order, i);
    forall j | 0 <= j < |rest| ensures Linked(m - {h}, rest, j) {
      UnlinkedRest(live, ends, order, i, j);
    }
    hide Unlinked, Without, Linked;
    assert forall x :: x in rest <==> x in m - {h} && x != ZERO;
  }

  lemma UnlinkedEnds(live: Dirties, ends: Ends, order: seq<Hash>, i: nat)
    requires FlushList(live, ends.oldest, ends.newest, order) && i < |order| && ZERO in live
    requires order[i] in live && live[order[i]].flushNext in live
    requires order[i] != ends.oldest ==> live[order[i]].flushPrev in live
    ensures var e, rest := Unlinked(live, ends, order[i]).1, Without(order, i);
            e.oldest == (if rest == [] then ZERO else rest[0]) && (rest != [] ==> e.newest == rest[|rest| - 1])
  {
    Neighbours(live, ends, order, i);
    assert Linked(live, order, i);
  }

  lemma UnlinkedRest(live: Dirties, ends: Ends, order: seq<Hash>, i: nat, j: nat)
    requires FlushList(live, ends.oldest, ends.newest, order) && i < |order| && j < |order| - 1 && ZERO in live
    requires order[i] in live && live[order[i]].flushNext in live
    requires order[i] != ends.oldest ==> live[order[i]].flushPrev in live
    ensures Linked(Unlinked(live, ends, order[i]).0 - {order[i]}, Without(order, i), j)
  {
    var k := if j < i then j else j + 1;
    WithoutAt(order, i, j, k);
    UnlinkedAt(live, ends, order, i, k);
    assert order[k] != order[i];
    hide Unlinked, FlushList, Without, NextOf, Distinct;
  }

  lemma WithoutAt(order: seq<Hash>, i: nat, j: nat, k: nat)
    requires i < |order| && j < |order| - 1 && k == (if j < i then j else j + 1)
    ensures var rest := Without(order, i);
            |rest| == |order| - 1 && rest[j] == order[k] &&
            NextOf(rest, j) == (if k + 1 == i then NextOf(order, i) else NextOf(order, k)) &&
            (j > 0 ==> rest[j - 1] == if k == i + 1 then order[i - 1] else order[k - 1])
  {
  }

  lemma RestMembers(order: seq<Hash>, i: nat)
    requires Distinct(order) && i < |order|
    ensures Distinct(Without(order, i))
    ensures forall h :: h in Without(order, i) <==> h in order && h != order[i]
  {
    var rest := Without(order, i);
    forall h | h in order && h != order[i] ensures h in rest {
      var k :| 0 <= k < |order| && order[k] == h;
      assert rest[if k < i then k else k - 1] == h;
    }
  }

  /** The links of another node after the one at `i` was taken out. */
  lemma UnlinkedAt(live: Dirties, ends: Ends, order: seq<Hash>, i: nat, k: nat)
    requires FlushList(live, ends.oldest, ends.newest, order) && i < |order| && k < |order| && k != i && ZERO in live
    requires order[i] in live && live[order[i]].flushNext in live
    requires order[i] != ends.oldest ==> live[order[i]].flushPrev in live
    ensures var m := Unlinked(live, ends, order[i]).0;
            order[k] in m &&
            m[order[k]].flushNext == (if k + 1 == i then NextOf(order, i) else NextOf(order, k)) &&
            (0 < k != i + 1 ==> m[order[k]].flushPrev == order[k - 1]) &&
            (k == i + 1 && i > 0 ==> m[order[k]].flushPrev == order[i - 1])
  {
    Neighbours(live, ends, order, i);
    assert Linked(live, order, i) && Linked(live, order, k);
    assert order[k] in order;
    assert i > 0 ==> (order[k] == order[i - 1] <==> k == i - 1);
    assert i + 1 < |order| ==> (order[k] == order[i + 1] <==> k == i + 1);
  }

  /** Appending a node: its back link is `newest`, and the old tail now leads to it. */
  function Appended(m: Dirties, ends: Ends, h: Hash, e: Entry): (r: (Dirties, Ends))
    requires ends.oldest != ZERO ==> ends.newest in m
  {
    if ends.oldest == ZERO then (m[h := e], Ends(h, h))
    else (SetNext(m[h := e], ends.newest, h), ends.(newest := h))
  }

  lemma AppendOk(live: Dirties, ends: Ends, order: seq<Hash>, h: Hash, e: Entry)
    requires FlushList(live, ends.oldest, ends.newest, order) && h !in live && h != ZERO
    requires e.flushPrev == ends.newest && e.flushNext == ZERO
    ensures ends.oldest != ZERO ==> ends.newest in live
    ensures var (m, f) := Appended(live, ends, h, e); FlushList(m, f.oldest, f.newest, order + [h])
  {
    var n := |order|;
    if n > 0 {
      assert order[0] in order && order[n - 1] in order;
    }
    var (m, f) := Appended(live, ends, h, e);
    var all := order + [h];
    assert h !in order;
    forall j | 0 <= j < |all| ensures Linked(m, all, j) {
      if j < n {
        assert Linked(live, order, j) && order[j] in order;
        assert order[j] == ends.newest <==> j == n - 1;
      }
    }
  }

  /** Dropping the head only moves the head. */
  lemma DropHead(live: Dirties, ends: Ends, order: seq<Hash>)
    requires FlushList(live, ends.oldest, ends.newest, order) && order != []
    ensures order[0] in live
    ensures FlushList(live - {order[0]}, live[order[0]].flushNext, ends.newest, order[1..])
  {
    assert Linked(live, order, 0);
    assert Without(order, 0) == order[1..];
    RestMembers(order, 0);
    forall j | 0 <= j < |order| - 1 ensures Linked(live - {order[0]}, order[1..], j) {
      DropHeadAt(live, order, j) by {
        assert Linked(live, order, j + 1);
      }
    }
    hide Linked;
    assert forall x :: x in order[1..] <==> x in live - {order[0]} && x != ZERO;
  }

  lemma DropHeadAt(live: Dirties, order: seq<Hash>, j: nat)
    requires Distinct(order) && j + 1 < |order| && Linked(live, order, j + 1)
    ensures Linked(live - {order[0]}, order[1..], j)
  {
  }

  /** The list does not depend on anything but the links. */
  predicate SameLinks(m: Dirties, n: Dirties) {
    m.Keys == n.Keys &&
    forall h :: h in m ==> n[h].flushPrev == m[h].flushPrev && n[h].flushNext == m[h].flushNext
  }

  lemma FlushListSame(m: Dirties, n: Dirties, oldest: Hash, newest: Hash, order: seq<Hash>)
    requires FlushList(m, oldest, newest, order) && SameLinks(m, n)
    ensures FlushList(n, oldest, newest, order)
  {
    forall i | 0 <= i < |order| ensures Linked(n, order, i) {
      assert Linked(m, order, i);
    }
  }

  // ---------- children before parents ----------

  /** Every child inside a cached node is on disk or earlier in the flush list. */
  ghost predicate Chrono(live: Dirties, order: seq<Hash>, disk: set<Hash>) {
    forall i :: 0 <= i < |order| ==> Earlier(live, order, disk, i)
  }

  ghost predicate Earlier(live: Dirties, order: seq<Hash>, disk: set<Hash>, i: nat)
    requires i < |order|
  {
    order[i] in live && forall k :: k in live[order[i]].kids ==> k in disk || k in order[..i]
  }

  lemma ChronoSame(m: Dirties, n: Dirties, order: seq<Hash>, disk: set<Hash>)
    requires Chrono(m, order, disk) && m.Keys == n.Keys && forall h :: h in m ==> n[h].kids == m[h].kids
    ensures Chrono(n, order, disk)
  {
    forall i | 0 <= i < |order| ensures Earlier(n, order, disk, i) {
      assert Earlier(m, order, disk, i);
    }
  }

  lemma ChronoAppend(live: Dirties, n: Dirties, order: seq<Hash>, disk: set<Hash>, h: Hash)
    requires Chrono(live, order, disk) && h !in live && h in n && forall x :: x in live ==> x in n && n[x].kids == live[x].kids
    requires forall k :: k in n[h].kids ==> k in disk || k in order
    ensures Chrono(n, order + [h], disk)
  {
    var all := order + [h];
    forall i | 0 <= i < |all| ensures Earlier(n, all, disk, i) {
      if i < |order| {
        assert Earlier(live, order, disk, i);
        assert all[..i] == order[..i];
      } else {
        assert all[..i] == order;
      }
    }
  }

  lemma ChronoWithout(live: Dirties, n: Dirties, order: seq<Hash>, disk: set<Hash>, i: nat)
    requires Chrono(live, order, disk) && i < |order| && Distinct(order) && Available(n, disk)
    requires n.Keys == live.Keys - {order[i]} && forall x :: x in n ==> n[x].kids == live[x].kids
    ensures Chrono(n, Without(order, i), disk)
  {
    var rest := Without(order, i);
    forall j | 0 <= j < |rest| ensures Earlier(n, rest, disk, j) {
      var k := if j < i then j else j + 1;
      assert Earlier(live, order, disk, k) && rest[j] == order[k] && order[k] != order[i];
      forall x | x in n[rest[j]].kids ensures x in disk || x in rest[..j] {
        assert x in RefsOf(n[rest[j]]);
        if x !in disk {
          EarlierWithout(order, i, j, k, x);
        }
      }
    }
  }

  lemma EarlierWithout(order: seq<Hash>, i: nat, j: nat, k: nat, x: Hash)
    requires i < |order| && j < |order| - 1 && k == (if j < i then j else j + 1)
    requires x in order[..k] && x != order[i]
    ensures x in Without(order, i)[..j]
  {
    var y :| 0 <= y < k && order[y] == x;
    var z := if y < i then y else y - 1;
    assert Without(order, i)[..j][z] == x;
  }

  // ---------- changes of links only ----------

  ghost predicate SameContent(m: Dirties, n: Dirties) {
    m.Keys == n.Keys && forall h :: h in m ==> SameNode(m[h], n[h])
  }

  predicate SameNode(d: Entry, e: Entry) {
    d.kids == e.kids && d.size == e.size && d.children == e.children && d.parents == e.parents
  }

  lemma SetPrevContent(m: Dirties, h: Hash, prev: Hash)
    requires h in m
    ensures SameContent(m, SetPrev(m, h, prev))
  {
  }

  lemma SetNextContent(m: Dirties, h: Hash, next: Hash)
    requires h in m
    ensures SameContent(m, SetNext(m, h, next))
  {
  }

  lemma ContentTrans(m: Dirties, n: Dirties, r: Dirties)
    requires SameContent(m, n) && SameContent(n, r)
    ensures SameContent(m, r)
  {
  }

  lemma UnlinkedContent(live: Dirties, ends: Ends, h: Hash)
    requires h in live && live[h].flushNext in live && (h != ends.oldest ==> live[h].flushPrev in live)
    ensures SameContent(live, Unlinked(live, ends, h).0)
  {
    hide SameContent, SetPrev, SetNext;
    var e := live[h];
    SetPrevContent(live, e.flushNext, ZERO);
    if h != ends.oldest {
      SetNextContent(live, e.flushPrev, ZERO);
      SetNextContent(live, e.flushPrev, e.flushNext);
      var m := SetNext(live, e.flushPrev, e.flushNext);
      ContentKeys(live, m);
      SetPrevContent(m, e.flushNext, e.flushPrev);
      ContentTrans(live, m, SetPrev(m, e.flushNext, e.flushPrev));
    }
  }

  lemma ContentKeys(m: Dirties, n: Dirties)
    requires SameContent(m, n)
    ensures m.Keys == n.Keys
  {
  }

  lemma ContentWithout(m: Dirties, n: Dirties, h: Hash)
    requires SameContent(m, n)
    ensures SameContent(m - {h}, n - {h})
  {
    hide SameNode;
  }

  lemma ContentChrono(m: Dirties, n: Dirties, order: seq<Hash>, disk: set<Hash>)
    requires SameContent(m, n) && Chrono(m, order, disk)
    ensures Chrono(n, order, disk)
  {
    hide Chrono;
    ChronoSame(m, n, order, disk);
  }
}
