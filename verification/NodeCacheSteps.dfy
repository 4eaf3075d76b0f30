/**
  What each elementary change of the write cache does to its invariants.
 */
module NodeCacheSteps {
  import opened Bytes
  import opened Multisets
  import opened NodeCache

  lemma {:induction false} RefsSource(m: Dirties, x: Hash) returns (p: Hash)
    requires x in Refs(m)
    ensures p in m && x in RefsOf(m[p])
    decreases m.Keys
  {
    hide RefsOf;
    var h :| h in m && Refs(m) == RefsOf(m[h]) + Refs(m - {h});
    if x in RefsOf(m[h]) {
      p := h;
    } else {
      p := RefsSource(m - {h}, x);
    }
  }

  /** A hash that is neither cached nor on disk is referred to by nothing. */
  lemma Unreferenced(live: Dirties, disk: set<Hash>, x: Hash)
    requires Available(live, disk) && x !in live && x !in disk
    ensures Refs(live)[x] == 0
  {
    hide RefsOf, Refs;
    if x in Refs(live) {
      var p := RefsSource(live, x);
    }
  }

  // ---------- counting up ----------

  /** `parents++` for every occurrence of a cached child. */
  function CountUp(m: Dirties, kids: seq<Hash>): (r: Dirties)
    ensures r.Keys == m.Keys
  {
    if kids == [] then m
    else
      var n := CountUp(m, kids[..|kids| - 1]);
      var h := kids[|kids| - 1];
      if h in n then n[h := n[h].(parents := n[h].parents + 1)] else n
  }

  lemma {:induction false} CountUpAt(m: Dirties, kids: seq<Hash>, h: Hash)
    requires h in m
    ensures CountUp(m, kids)[h] == m[h].(parents := m[h].parents + multiset(kids)[h])
  {
    if kids != [] {
      CountUpAt(m, kids[..|kids| - 1], h);
      assert kids == kids[..|kids| - 1] + [kids[|kids| - 1]];
    }
  }

  /** The counters of `n` are those of `m` plus what `extra` says; references are the same. */
  ghost predicate Raised(m: Dirties, n: Dirties, extra: multiset<Hash>) {
    SameRefs(m, n) &&
    forall h :: h in m ==> n[h].parents == m[h].parents + extra[h] && n[h].kids == m[h].kids && n[h].children == m[h].children
  }

  /** What may go into the cache: a node whose children are cached or on disk, below it in the Merkle order. */
  ghost predicate Insertable(live: Dirties, disk: set<Hash>, rank: Hash -> nat, h: Hash, kids: seq<Hash>) {
    h != ZERO && forall k :: k in kids ==> Down(rank, h, k) && (k in live || k in disk)
  }

  lemma InsertSane(live: Dirties, disk: set<Hash>, rank: Hash -> nat, h: Hash, e: Entry, n: Dirties)
    requires Sane(live, disk, multiset{}, rank) && h !in live && Insertable(live, disk, rank, h, e.kids)
    requires e.parents == 0 && e.children == multiset{} && Raised(live, n, multiset(e.kids))
    ensures Sane(n[h := e], disk, multiset{}, rank)
  {
    hide Refs;
    var all := n[h := e];
    RefsSame(live, n);
    RefsSet(n, h, e);
    assert RefsOf(e) == multiset(e.kids);
    assert Refs(all) == Refs(live) + multiset(e.kids);
    if h !in disk {
      Unreferenced(live, disk, h);
    }
    assert h !in e.kids;
    InsertCounted(live, disk, h, e, n);
    forall p, x | p in all && x in RefsOf(all[p]) ensures x in all || x in disk {
      if p == h {
        assert x in e.kids;
      } else {
        assert RefsOf(n[p]) == RefsOf(live[p]);
      }
    }
    InsertOrdered(live, disk, rank, h, e, n);
  }

  lemma InsertCounted(live: Dirties, disk: set<Hash>, h: Hash, e: Entry, n: Dirties)
    requires Counted(live, disk, multiset{}) && h !in live && e.parents == 0 && Raised(live, n, multiset(e.kids))
    requires Refs(n[h := e]) == Refs(live) + multiset(e.kids) && (h !in disk ==> Refs(live)[h] == 0) && h !in e.kids
    ensures Counted(n[h := e], disk, multiset{})
  {
    hide Refs, RefsOf;
    var all := n[h := e];
    forall x | x in all && x != ZERO && x !in disk ensures all[x].parents >= Refs(all)[x] {
      assert Refs(all)[x] == Refs(live)[x] + multiset(e.kids)[x];
      if x != h {
        assert x in live;
      }
    }
  }

  lemma InsertOrdered(live: Dirties, disk: set<Hash>, rank: Hash -> nat, h: Hash, e: Entry, n: Dirties)
    requires Ordered(live, rank) && h !in live && Insertable(live, disk, rank, h, e.kids)
    requires e.children == multiset{} && Raised(live, n, multiset(e.kids))
    ensures Ordered(n[h := e], rank)
  {
    var all := n[h := e];
    forall p, x | p in all && x in RefsOf(all[p]) ensures Down(rank, p, x) {
      if p == h {
        assert x in e.kids;
      } else {
        assert RefsOf(n[p]) == RefsOf(live[p]);
      }
    }
  }

  // ---------- one more reference ----------

  function WithReference(live: Dirties, child: Hash, parent: Hash): (n: Dirties)
    requires child in live && parent in live && child != parent
  {
    live[parent := live[parent].(children := live[parent].children + multiset{child})]
        [child := live[child].(parents := live[child].parents + 1)]
  }

  lemma ReferenceRefs(live: Dirties, child: Hash, parent: Hash)
    requires child in live && parent in live && child != parent
    ensures Refs(WithReference(live, child, parent)) == Refs(live) + multiset{child}
  {
    hide Refs;
    var e := live[parent].(children := live[parent].children + multiset{child});
    var m := live[parent := e];
    var n := WithReference(live, child, parent);
    RefsSet(live, parent, e);
    var q := RefsOf(live[parent]);
    assert RefsOf(e) == q + multiset{child};
    Plus(Refs(live), q, Refs(m), multiset{child});
    assert SameRefs(m, n);
    RefsSame(m, n);
  }

  lemma ReferenceSane(live: Dirties, disk: set<Hash>, rank: Hash -> nat, child: Hash, parent: Hash)
    requires Sane(live, disk, multiset{}, rank) && child in live && parent in live && child != ZERO && child != parent
    requires parent != ZERO ==> rank(child) < rank(parent) && child !in live[parent].children
    ensures Sane(WithReference(live, child, parent), disk, multiset{}, rank)
  {
    hide Refs, RefsOf, Available, Ordered;
    var n := WithReference(live, child, parent);
    ReferenceRefs(live, child, parent);
    ReferenceEdges(live, disk, rank, child, parent);
    forall x | x in n && x != ZERO && x !in disk ensures n[x].parents >= Refs(n)[x] + multiset{}[x] {
      assert Refs(n)[x] == Refs(live)[x] + multiset{child}[x];
    }
  }

  lemma ReferenceEdges(live: Dirties, disk: set<Hash>, rank: Hash -> nat, child: Hash, parent: Hash)
    requires Available(live, disk) && Ordered(live, rank)
    requires child in live && parent in live && child != ZERO && child != parent
    requires parent != ZERO ==> rank(child) < rank(parent) && child !in live[parent].children
    ensures Available(WithReference(live, child, parent), disk) && Ordered(WithReference(live, child, parent), rank)
  {
    hide Available, Ordered;
    ReferenceAvailable(live, disk, child, parent);
    ReferenceOrdered(live, rank, child, parent);
  }

  lemma ReferenceAvailable(live: Dirties, disk: set<Hash>, child: Hash, parent: Hash)
    requires Available(live, disk) && child in live && parent in live && child != parent
    ensures Available(WithReference(live, child, parent), disk)
  {
    hide RefsOf;
    var n := WithReference(live, child, parent);
    forall p, x | p in n && x in RefsOf(n[p]) ensures x in n || x in disk {
      ReferenceEdge(live, child, parent, p, x);
    }
  }

  lemma ReferenceOrdered(live: Dirties, rank: Hash -> nat, child: Hash, parent: Hash)
    requires Ordered(live, rank) && child in live && parent in live && child != ZERO && child != parent
    requires parent != ZERO ==> rank(child) < rank(parent) && child !in live[parent].children
    ensures Ordered(WithReference(live, child, parent), rank)
  {
    hide RefsOf, Single;
    var n := WithReference(live, child, parent);
    forall p, x | p in n && x in RefsOf(n[p]) ensures Down(rank, p, x) {
      ReferenceEdge(live, child, parent, p, x);
    }
    forall p | p in n && p != ZERO ensures Single(n[p].children) {
      ReferenceSingle(live, child, parent, p);
    }
  }

  lemma ReferenceSingle(live: Dirties, child: Hash, parent: Hash, p: Hash)
    requires child in live && parent in live && child != parent && p in live && Single(live[p].children)
    requires p == parent ==> child !in live[p].children
    ensures Single(WithReference(live, child, parent)[p].children)
  {
  }

  lemma ReferenceEdge(live: Dirties, child: Hash, parent: Hash, p: Hash, x: Hash)
    requires child in live && parent in live && child != parent && p in live
    requires x in RefsOf(WithReference(live, child, parent)[p])
    ensures x in RefsOf(live[p]) || (p == parent && x == child)
  {
  }

  // ---------- fewer references ----------

  /** Nodes that refer to no more than before still refer downwards. */
  lemma OrderedFewer(live: Dirties, n: Dirties, rank: Hash -> nat)
    requires Ordered(live, rank) && n.Keys <= live.Keys && ZERO in n
    requires forall p :: p in n ==> n[p].kids == live[p].kids && n[p].children <= live[p].children
    ensures Ordered(n, rank)
  {
    forall p, x | p in n && x in RefsOf(n[p]) ensures Down(rank, p, x) {
      assert x in RefsOf(live[p]);
    }
    forall p | p in n && p != ZERO ensures Single(n[p].children) {
      assert Single(live[p].children);
    }
  }

  lemma AvailableFewer(live: Dirties, n: Dirties, disk: set<Hash>)
    requires Available(live, disk) && n.Keys == live.Keys
    requires forall p :: p in n ==> n[p].kids == live[p].kids && n[p].children <= live[p].children
    ensures Available(n, disk)
  {
    forall p, x | p in n && x in RefsOf(n[p]) ensures x in n || x in disk {
      assert x in RefsOf(live[p]);
    }
  }

  function WithoutRoot(live: Dirties, root: Hash): (n: Dirties)
    requires ZERO in live
  {
    live[ZERO := live[ZERO].(children := live[ZERO].children - multiset{root})]
  }

  lemma DropRootRefs(live: Dirties, root: Hash)
    requires ZERO in live && root in live[ZERO].children
    ensures Refs(live) == Refs(WithoutRoot(live, root)) + multiset{root}
  {
    hide Refs;
    var n := WithoutRoot(live, root);
    RefsSet(live, ZERO, n[ZERO]);
    var q := RefsOf(n[ZERO]);
    assert RefsOf(live[ZERO]) == q + multiset{root};
    Plus(Refs(n), q, Refs(live), multiset{root});
  }

  /** The meta-root lets go of a root: that reference is now to be dropped. */
  lemma DropRootSane(live: Dirties, disk: set<Hash>, rank: Hash -> nat, root: Hash)
    requires Sane(live, disk, multiset{}, rank) && root in live[ZERO].children
    ensures Sane(WithoutRoot(live, root), disk, multiset{root}, rank)
  {
    hide Refs, RefsOf, Available;
    var n := WithoutRoot(live, root);
    DropRootRefs(live, root);
    assert n[ZERO].children <= live[ZERO].children;
    OrderedFewer(live, n, rank);
    AvailableFewer(live, n, disk);
    hide Ordered;
    forall x | x in n && x != ZERO && x !in disk ensures n[x].parents >= Refs(n)[x] + multiset{root}[x] {
      assert Refs(live)[x] == Refs(n)[x] + multiset{root}[x];
    }
  }

  function CountDown(live: Dirties, c: Hash): (n: Dirties)
    requires c in live
  {
    live[c := live[c].(parents := if live[c].parents > 0 then live[c].parents - 1 else 0)]
  }

  /** Counting down one dropped reference. */
  lemma CountDownSane(live: Dirties, disk: set<Hash>, pending: multiset<Hash>, rank: Hash -> nat, c: Hash)
    requires Sane(live, disk, pending + multiset{c}, rank) && c in live && c != ZERO
    ensures Sane(CountDown(live, c), disk, pending, rank)
  {
    var n := CountDown(live, c);
    OrderedFewer(live, n, rank);
    AvailableFewer(live, n, disk);
    assert SameRefs(live, n);
    RefsSame(live, n);
    hide Refs, RefsOf, Available, Ordered;
    forall x | x in n && x != ZERO && x !in disk ensures n[x].parents >= Refs(n)[x] + pending[x] {
      assert (pending + multiset{c})[x] == pending[x] + multiset{c}[x];
    }
  }

  lemma LessPending(live: Dirties, disk: set<Hash>, pending: multiset<Hash>, rank: Hash -> nat, c: Hash)
    requires Sane(live, disk, pending + multiset{c}, rank)
    ensures Sane(live, disk, pending, rank)
  {
    hide Refs, RefsOf;
    forall x | x in live && x != ZERO && x !in disk ensures live[x].parents >= Refs(live)[x] + pending[x] {
      assert (pending + multiset{c})[x] >= pending[x];
    }
  }

  /** A node whose counter is zero leaves: nothing live needs it, and its own references are to be dropped. */
  lemma LeaveSane(live: Dirties, disk: set<Hash>, pending: multiset<Hash>, rank: Hash -> nat, c: Hash)
    requires Sane(live, disk, pending, rank) && c in live && c != ZERO && live[c].parents == 0
    ensures Sane(live - {c}, disk, pending + RefsOf(live[c]), rank)
  {
    hide Refs, RefsOf, Single;
    var n := live - {c};
    OrderedFewer(live, n, rank);
    hide Ordered;
    RefsRemove(live, c);
    forall p, x | p in n && x in RefsOf(n[p]) ensures x in n || x in disk {
      RefsMember(live, p);
      assert x in RefsOf(live[p]) && x in Refs(live);
    }
    forall x | x in n && x != ZERO && x !in disk ensures n[x].parents >= Refs(n)[x] + (pending + RefsOf(live[c]))[x] {
      assert Refs(live)[x] == RefsOf(live[c])[x] + Refs(n)[x];
    }
  }

  // ---------- what dropping a reference does, exactly ----------

  /** Apart from the references about to be dropped, counters exceed references by as much as they did in `was`. */
  ghost predicate Exact(live: Dirties, disk: set<Hash>, pending: multiset<Hash>, was: Dirties) {
    forall h :: h in live && h != ZERO && h !in disk ==>
      h in was && live[h].parents - Refs(live)[h] - pending[h] == was[h].parents - Refs(was)[h]
  }

  lemma ExactDropRoot(live: Dirties, disk: set<Hash>, root: Hash)
    requires ZERO in live && root in live[ZERO].children
    ensures Exact(WithoutRoot(live, root), disk, multiset{} + multiset{root}, live)
  {
    hide Refs, RefsOf;
    DropRootRefs(live, root);
    var n := WithoutRoot(live, root);
    forall h | h in n ensures Refs(live)[h] == Refs(n)[h] + (multiset{} + multiset{root})[h] {
    }
  }

  lemma ExactNone(live: Dirties, disk: set<Hash>, root: Hash)
    requires root !in live
    ensures Exact(live, disk, multiset{} + multiset{root}, live)
  {
    hide Refs, RefsOf;
  }

  lemma ExactCountDown(live: Dirties, disk: set<Hash>, pending: multiset<Hash>, was: Dirties, c: Hash)
    requires Exact(live, disk, pending + multiset{c}, was) && Counted(live, disk, pending + multiset{c})
    requires c in live && c != ZERO
    ensures Exact(CountDown(live, c), disk, pending, was)
  {
    var n := CountDown(live, c);
    hide Refs, RefsOf, Exact, Counted;
    SameRefsCountDown(live, c);
    forall h | h in n && h != ZERO && h !in disk
      ensures h in was && n[h].parents - Refs(n)[h] - pending[h] == was[h].parents - Refs(was)[h]
    {
      ExactAt(live, disk, pending, was, c, h);
    }
    ExactIntro(n, disk, pending, was);
  }

  lemma SameRefsCountDown(live: Dirties, c: Hash)
    requires c in live
    ensures Refs(CountDown(live, c)) == Refs(live)
  {
    RefsSame(live, CountDown(live, c));
  }

  lemma ExactAt(live: Dirties, disk: set<Hash>, pending: multiset<Hash>, was: Dirties, c: Hash, h: Hash)
    requires Exact(live, disk, pending + multiset{c}, was) && Counted(live, disk, pending + multiset{c})
    requires h in live && h != ZERO && h !in disk
    ensures h in was &&
            live[h].parents - (if h == c then 1 else 0) - Refs(live)[h] - pending[h] == was[h].parents - Refs(was)[h]
    ensures h == c ==> live[h].parents > 0
  {
    hide Refs, RefsOf;
    assert (pending + multiset{c})[h] == pending[h] + multiset{c}[h];
  }

  lemma ExactIntro(n: Dirties, disk: set<Hash>, pending: multiset<Hash>, was: Dirties)
    requires forall h :: h in n && h != ZERO && h !in disk ==>
               h in was && n[h].parents - Refs(n)[h] - pending[h] == was[h].parents - Refs(was)[h]
    ensures Exact(n, disk, pending, was)
  {
    hide Refs, RefsOf;
  }

  lemma ExactGone(live: Dirties, disk: set<Hash>, pending: multiset<Hash>, was: Dirties, c: Hash)
    requires Exact(live, disk, pending + multiset{c}, was) && c !in live
    ensures Exact(live, disk, pending, was)
  {
    hide Refs, RefsOf;
    forall h | h in live ensures (pending + multiset{c})[h] == pending[h] {
    }
  }

  lemma ExactLeave(live: Dirties, disk: set<Hash>, pending: multiset<Hash>, was: Dirties, c: Hash)
    requires Exact(live, disk, pending, was) && c in live
    ensures Exact(live - {c}, disk, pending + RefsOf(live[c]), was)
  {
    hide Refs, RefsOf;
    RefsRemove(live, c);
    var n := live - {c};
    forall h | h in n ensures Refs(live)[h] == RefsOf(live[c])[h] + Refs(n)[h] {
    }
  }

  lemma ExactSame(m: Dirties, n: Dirties, disk: set<Hash>, pending: multiset<Hash>, was: Dirties)
    requires Exact(m, disk, pending, was) && SameContent(m, n)
    ensures Exact(n, disk, pending, was)
  {
    assert SameRefs(m, n);
    RefsSame(m, n);
    hide Refs, RefsOf;
  }

  /**
    From `m` to `n` some nodes left: those in `tops`, and nodes that others
    among them referred to. Whoever stayed is the same but for its counter, and
    stayed with a counter above zero unless it was zero before.
   */
  ghost predicate Shed(m: Dirties, n: Dirties, tops: set<Hash>) {
    n.Keys <= m.Keys && (forall h :: h in n ==> Stayed(m[h], n[h])) &&
    forall h :: h in m && h !in n ==> h in tops || HeldByGone(m, n, h)
  }

  predicate Stayed(d: Entry, e: Entry) {
    e.kids == d.kids && e.size == d.size && e.children == d.children && e.parents <= d.parents &&
    (e.parents == 0 ==> d.parents == 0)
  }

  ghost predicate HeldByGone(m: Dirties, n: Dirties, h: Hash) {
    exists p :: p in m && p !in n && h in RefsOf(m[p])
  }

  lemma ShedTrans(m: Dirties, n: Dirties, k: Dirties, tops: set<Hash>, more: set<Hash>)
    requires Shed(m, n, tops) && Shed(n, k, more)
    ensures Shed(m, k, tops + more)
  {
    forall h | h in m && h !in k && h !in tops + more ensures HeldByGone(m, k, h) {
      if h in n {
        var p :| p in n && p !in k && h in RefsOf(n[p]);
        assert p in m && h in RefsOf(m[p]);
      } else {
        var p :| p in m && p !in n && h in RefsOf(m[p]);
        assert p !in k;
      }
    }
  }

  /** One counter less, and what follows from it. */
  lemma ShedCount(live: Dirties, n: Dirties, c: Hash)
    requires c in live && Shed(CountDown(live, c), n, {c}) && (c in n ==> CountDown(live, c)[c].parents > 0)
    ensures Shed(live, n, {c})
  {
    var m := CountDown(live, c);
    forall h | h in live && h !in n && h != c ensures HeldByGone(live, n, h) {
      var p :| p in m && p !in n && h in RefsOf(m[p]);
      assert RefsOf(m[p]) == RefsOf(live[p]);
    }
  }

  /** A node leaves, and then what it alone referred to. */
  lemma ShedLeave(live: Dirties, m: Dirties, n: Dirties, c: Hash, tops: set<Hash>)
    requires c in live && SameContent(live - {c}, m) && Shed(m, n, tops) && tops == set h | h in RefsOf(live[c])
    ensures Shed(live, n, {c})
  {
    forall h | h in live && h !in n && h != c ensures HeldByGone(live, n, h) {
      assert h in m;
      if h in tops {
        assert c in live && c !in n && h in RefsOf(live[c]);
      } else {
        var p :| p in m && p !in n && h in RefsOf(m[p]);
        assert p in live - {c} && SameNode((live - {c})[p], m[p]);
        assert p in live && h in RefsOf(live[p]);
      }
    }
    forall h | h in n ensures Stayed(live[h], n[h]) {
      assert h in m && SameNode((live - {c})[h], m[h]);
    }
  }

  // ---------- to disk ----------

  lemma DiskSane(live: Dirties, disk: set<Hash>, more: set<Hash>, pending: multiset<Hash>, rank: Hash -> nat)
    requires Sane(live, disk, pending, rank)
    ensures Sane(live, disk + more, pending, rank)
  {
    hide Refs, RefsOf;
  }

  /** A node that is on disk may leave the cache whatever its counter says. */
  lemma UncacheSane(live: Dirties, disk: set<Hash>, pending: multiset<Hash>, rank: Hash -> nat, c: Hash)
    requires Sane(live, disk, pending, rank) && c in live && c != ZERO && c in disk
    ensures Sane(live - {c}, disk, pending, rank)
  {
    hide Refs, RefsOf, Single;
    var n := live - {c};
    OrderedFewer(live, n, rank);
    hide Ordered;
    RefsRemove(live, c);
    forall p, x | p in n && x in RefsOf(n[p]) ensures x in n || x in disk {
      assert x in RefsOf(live[p]);
    }
    forall x | x in n && x != ZERO && x !in disk ensures n[x].parents >= Refs(n)[x] + pending[x] {
      assert Refs(live)[x] == RefsOf(live[c])[x] + Refs(n)[x];
    }
  }

  /** The invariants look at references and counters only. */
  lemma SaneSame(m: Dirties, n: Dirties, disk: set<Hash>, pending: multiset<Hash>, rank: Hash -> nat)
    requires Sane(m, disk, pending, rank) && Raised(m, n, multiset{})
    ensures Sane(n, disk, pending, rank)
  {
    OrderedFewer(m, n, rank);
    AvailableFewer(m, n, disk);
    RefsSame(m, n);
    hide Refs, RefsOf, Available, Ordered;
  }

  lemma ContentSane(m: Dirties, n: Dirties, disk: set<Hash>, pending: multiset<Hash>, rank: Hash -> nat)
    requires SameContent(m, n) && Sane(m, disk, pending, rank)
    ensures Sane(n, disk, pending, rank)
  {
    hide Sane;
    SaneSame(m, n, disk, pending, rank);
  }
}
