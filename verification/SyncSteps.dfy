/**
  What each elementary change of the scheduler's tables does to its invariants.
 */
module SyncSteps {
  import opened Bytes
  import opened SyncState

  datatype Tables = Tables(
    nodes: Requests,
    codes: Requests,
    wants: map<Hash, Want>,
    stored: set<Hash>,
    storedCodes: set<Hash>)

  ghost predicate Coherent(t: Tables, pending: multiset<Hash>) {
    Counted(t.nodes, t.codes, pending) && Waiting(t.nodes, t.codes, t.wants, t.stored, t.storedCodes) &&
    Closed(t.wants, t.stored, t.storedCodes) && t.nodes.Keys !! t.stored
  }

  // ---------- scheduling ----------

  function Scheduled(m: Requests, k: Hash, parents: seq<Hash>): (r: Requests) {
    if k in m then m[k := m[k].(parents := m[k].parents + parents)] else m[k := Request(None, parents, 0)]
  }

  lemma ScheduledParents(m: Requests, k: Hash, parents: seq<Hash>)
    ensures Parents(Scheduled(m, k, parents)) == Parents(m) + multiset(parents)
  {
    hide Parents;
    if k in m {
      ParentsMore(m, k, m[k].(parents := m[k].parents + parents), parents);
    } else {
      ParentsNew(m, k, Request(None, parents, 0));
    }
  }

  /** Requesting a node that is not stored, for requests whose wait was already counted. */
  lemma ScheduleNode(t: Tables, pending: multiset<Hash>, k: Hash, parents: seq<Hash>)
    requires Coherent(t, pending + multiset(parents)) && k !in t.stored
    ensures Coherent(t.(nodes := Scheduled(t.nodes, k, parents)), pending)
  {
    hide Counted, Waiting;
    ScheduleNodeCounts(t, pending, k, parents);
    ScheduleNodeWaits(t, k, parents);
    assert Scheduled(t.nodes, k, parents).Keys == t.nodes.Keys + {k};
  }

  lemma ScheduleNodeCounts(t: Tables, pending: multiset<Hash>, k: Hash, parents: seq<Hash>)
    requires Counted(t.nodes, t.codes, pending + multiset(parents))
    ensures Counted(Scheduled(t.nodes, k, parents), t.codes, pending)
  {
    ScheduledParents(t.nodes, k, parents);
    var n := Scheduled(t.nodes, k, parents);
    hide Parents;
    Regroup(Parents(t.nodes), multiset(parents), Parents(t.codes), pending);
    assert Occurrences(n, t.codes, pending) == Occurrences(t.nodes, t.codes, pending + multiset(parents));
    hide Occurrences;
  }

  lemma Regroup(a: multiset<Hash>, ps: multiset<Hash>, b: multiset<Hash>, c: multiset<Hash>)
    ensures a + ps + b + c == a + b + (c + ps)
  {
  }

  lemma Regroup2(ps: multiset<Hash>, a: multiset<Hash>, b: multiset<Hash>, c: multiset<Hash>)
    ensures ps + a + b + c == a + b + (c + ps)
  {
  }

  lemma CountedWithout(nodes: Requests, occurrences: multiset<Hash>, h: Hash)
    requires CountedBy(nodes, occurrences) && h in nodes && nodes[h].deps == 0
    ensures CountedBy(nodes - {h}, occurrences)
  {
    assert occurrences[h] == 0;
  }

  lemma ClosedUpdate(t: Tables, h: Hash, w: Want)
    requires Closed(t.wants, t.stored, t.storedCodes) && h !in t.stored
    ensures Closed(t.wants[h := w], t.stored, t.storedCodes)
  {
  }

  lemma ScheduleNodeWaits(t: Tables, k: Hash, parents: seq<Hash>)
    requires Waiting(t.nodes, t.codes, t.wants, t.stored, t.storedCodes)
    ensures Waiting(Scheduled(t.nodes, k, parents), t.codes, t.wants, t.stored, t.storedCodes)
  {
    var n := Scheduled(t.nodes, k, parents);
    forall h | h in n && n[h].data.Some?
      ensures h in t.wants && WaitsFor(n, t.codes, t.wants[h], t.stored, t.storedCodes, h)
    {
      assert WaitsFor(t.nodes, t.codes, t.wants[h], t.stored, t.storedCodes, h);
    }
  }

  lemma ScheduleCode(t: Tables, pending: multiset<Hash>, k: Hash, parents: seq<Hash>)
    requires Coherent(t, pending + multiset(parents))
    ensures Coherent(t.(codes := Scheduled(t.codes, k, parents)), pending)
  {
    hide Counted, Waiting;
    ScheduleCodeCounts(t, pending, k, parents);
    ScheduleCodeWaits(t, k, parents);
  }

  lemma ScheduleCodeCounts(t: Tables, pending: multiset<Hash>, k: Hash, parents: seq<Hash>)
    requires Counted(t.nodes, t.codes, pending + multiset(parents))
    ensures Counted(t.nodes, Scheduled(t.codes, k, parents), pending)
  {
    ScheduledParents(t.codes, k, parents);
    var c, ps := Scheduled(t.codes, k, parents), multiset(parents);
    hide Parents, Scheduled;
    assert Occurrences(t.nodes, c, pending) == Occurrences(t.nodes, t.codes, pending + ps) by {
      assert Parents(t.nodes) + (Parents(t.codes) + ps) + pending == Parents(t.nodes) + Parents(t.codes) + (pending + ps);
    }
  }

  lemma ScheduleCodeWaits(t: Tables, k: Hash, parents: seq<Hash>)
    requires Waiting(t.nodes, t.codes, t.wants, t.stored, t.storedCodes)
    ensures Waiting(t.nodes, Scheduled(t.codes, k, parents), t.wants, t.stored, t.storedCodes)
  {
    var c := Scheduled(t.codes, k, parents);
    forall h | h in t.nodes && t.nodes[h].data.Some?
      ensures h in t.wants && WaitsFor(t.nodes, c, t.wants[h], t.stored, t.storedCodes, h)
    {
      assert WaitsFor(t.nodes, t.codes, t.wants[h], t.stored, t.storedCodes, h);
    }
  }

  // ---------- what a node needs ----------

  lemma WantNode(t: Tables, pending: multiset<Hash>, h: Hash, k: Hash)
    requires Coherent(t, pending) && h in t.nodes && t.nodes[h].data.Some?
    requires k in t.stored || (k in t.nodes && h in t.nodes[k].parents)
    ensures h in t.wants
    ensures Coherent(t.(wants := t.wants[h := t.wants[h].(nodes := t.wants[h].nodes + {k})]), pending)
  {
    hide Parents;
    var w := t.wants[h := t.wants[h].(nodes := t.wants[h].nodes + {k})];
    forall x | x in t.nodes && t.nodes[x].data.Some?
      ensures x in w && WaitsFor(t.nodes, t.codes, w[x], t.stored, t.storedCodes, x)
    {
      assert WaitsFor(t.nodes, t.codes, t.wants[x], t.stored, t.storedCodes, x);
    }
  }

  lemma WantCode(t: Tables, pending: multiset<Hash>, h: Hash, k: Hash)
    requires Coherent(t, pending) && h in t.nodes && t.nodes[h].data.Some?
    requires k in t.storedCodes || (k in t.codes && h in t.codes[k].parents)
    ensures h in t.wants
    ensures Coherent(t.(wants := t.wants[h := t.wants[h].(codes := t.wants[h].codes + {k})]), pending)
  {
    hide Parents;
    var w := t.wants[h := t.wants[h].(codes := t.wants[h].codes + {k})];
    forall x | x in t.nodes && t.nodes[x].data.Some?
      ensures x in w && WaitsFor(t.nodes, t.codes, w[x], t.stored, t.storedCodes, x)
    {
      assert WaitsFor(t.nodes, t.codes, t.wants[x], t.stored, t.storedCodes, x);
    }
  }

  // ---------- data and counters ----------

  /** Changing the data or the counter of a request, not who waits for it. */
  lemma ParentsKept(t: Tables, h: Hash, r: Request)
    requires h in t.nodes && r.parents == t.nodes[h].parents
    ensures Parents(t.nodes[h := r]) == Parents(t.nodes)
  {
    ParentsSame(t.nodes, h, r);
  }

  lemma Fill(t: Tables, pending: multiset<Hash>, h: Hash, data: Bytes)
    requires Coherent(t, pending) && h in t.nodes && t.nodes[h].data.None?
    ensures Coherent(t.(nodes := t.nodes[h := t.nodes[h].(data := Some(data))], wants := t.wants[h := Want({}, {})]), pending)
  {
    hide Counted, Parents, Waiting, Closed;
    var r := t.nodes[h].(data := Some(data));
    ParentsKept(t, h, r);
    FillCounts(t, pending, h, r);
    FillWaits(t, h, data);
    ClosedUpdate(t, h, Want({}, {}));
    assert t.nodes[h := r].Keys == t.nodes.Keys;
  }

  lemma FillCounts(t: Tables, pending: multiset<Hash>, h: Hash, r: Request)
    requires Counted(t.nodes, t.codes, pending) && h in t.nodes && r.deps == t.nodes[h].deps && r.data.Some?
    requires Parents(t.nodes[h := r]) == Parents(t.nodes)
    ensures Counted(t.nodes[h := r], t.codes, pending)
  {
    hide Parents;
  }

  lemma FillWaits(t: Tables, h: Hash, data: Bytes)
    requires Waiting(t.nodes, t.codes, t.wants, t.stored, t.storedCodes) && h in t.nodes && t.nodes[h].data.None?
    ensures Waiting(t.nodes[h := t.nodes[h].(data := Some(data))], t.codes, t.wants[h := Want({}, {})], t.stored, t.storedCodes)
  {
    var n, w := t.nodes[h := t.nodes[h].(data := Some(data))], t.wants[h := Want({}, {})];
    forall x | x in n && n[x].data.Some?
      ensures x in w && WaitsFor(n, t.codes, w[x], t.stored, t.storedCodes, x)
    {
      if x != h {
        assert WaitsFor(t.nodes, t.codes, t.wants[x], t.stored, t.storedCodes, x);
      }
    }
  }

  function Copies(h: Hash, n: nat): (m: multiset<Hash>) {
    multiset{}[h := n]
  }

  lemma CountUp(t: Tables, pending: multiset<Hash>, h: Hash, n: nat)
    requires Coherent(t, pending) && h in t.nodes && t.nodes[h].data.Some?
    ensures Coherent(t.(nodes := t.nodes[h := t.nodes[h].(deps := t.nodes[h].deps + n)]), pending + Copies(h, n))
  {
    hide Parents, Waiting, Closed;
    var r := t.nodes[h].(deps := t.nodes[h].deps + n);
    ParentsKept(t, h, r);
    CounterWaits(t, h, r.deps);
    assert Occurrences(t.nodes[h := r], t.codes, pending + Copies(h, n)) == Occurrences(t.nodes, t.codes, pending) + Copies(h, n);
    hide Occurrences;
    assert t.nodes[h := r].Keys == t.nodes.Keys;
  }

  lemma CounterWaits(t: Tables, h: Hash, deps: int)
    requires Waiting(t.nodes, t.codes, t.wants, t.stored, t.storedCodes) && h in t.nodes
    ensures Waiting(t.nodes[h := t.nodes[h].(deps := deps)], t.codes, t.wants, t.stored, t.storedCodes)
  {
    var m := t.nodes[h := t.nodes[h].(deps := deps)];
    forall x | x in m && m[x].data.Some?
      ensures x in t.wants && WaitsFor(m, t.codes, t.wants[x], t.stored, t.storedCodes, x)
    {
      assert WaitsFor(t.nodes, t.codes, t.wants[x], t.stored, t.storedCodes, x);
    }
  }

  lemma CountDown(t: Tables, pending: multiset<Hash>, h: Hash)
    requires Coherent(t, pending + multiset{h})
    ensures h in t.nodes && t.nodes[h].data.Some? && t.nodes[h].deps > 0
    ensures Coherent(t.(nodes := t.nodes[h := t.nodes[h].(deps := t.nodes[h].deps - 1)]), pending)
  {
    hide Parents, Waiting, Closed;
    var all := Occurrences(t.nodes, t.codes, pending + multiset{h});
    assert h in all;
    var r := t.nodes[h].(deps := t.nodes[h].deps - 1);
    ParentsKept(t, h, r);
    CounterWaits(t, h, r.deps);
    assert all == Occurrences(t.nodes[h := r], t.codes, pending) + multiset{h};
    hide Occurrences;
    assert t.nodes[h := r].Keys == t.nodes.Keys;
  }

  // ---------- completing ----------

  function NodeDone(t: Tables, h: Hash): (r: Tables) {
    t.(nodes := t.nodes - {h}, stored := t.stored + {h})
  }

  /** A request that waits for nothing has everything stored; it may be stored itself. */
  lemma FinishNode(t: Tables, pending: multiset<Hash>, h: Hash)
    requires Coherent(t, pending) && h in t.nodes && t.nodes[h].data.Some? && t.nodes[h].deps == 0
    ensures Coherent(NodeDone(t, h), pending + multiset(t.nodes[h].parents))
  {
    hide Parents;
    FinishCounts(t, pending, h);
    assert Occurrences(t.nodes, t.codes, pending)[h] == 0;
    assert Parents(t.nodes)[h] == 0 && Parents(t.codes)[h] == 0;
    hide Counted, CountedBy;
    FinishWaiting(t, h);
    FinishClosed(t, h);
    hide Waiting, Closed;
  }

  lemma FinishCounts(t: Tables, pending: multiset<Hash>, h: Hash)
    requires Counted(t.nodes, t.codes, pending) && h in t.nodes && t.nodes[h].deps == 0
    ensures Counted(t.nodes - {h}, t.codes, pending + multiset(t.nodes[h].parents))
  {
    var n, ps := t.nodes - {h}, multiset(t.nodes[h].parents);
    ParentsRemove(t.nodes, h);
    hide Parents;
    Regroup2(ps, Parents(n), Parents(t.codes), pending);
    assert Occurrences(n, t.codes, pending + ps) == Occurrences(t.nodes, t.codes, pending);
    hide Occurrences, CountedBy;
    CountedWithout(t.nodes, Occurrences(t.nodes, t.codes, pending), h);
  }

  lemma FinishWaiting(t: Tables, h: Hash)
    requires Waiting(t.nodes, t.codes, t.wants, t.stored, t.storedCodes) && h in t.nodes
    ensures Waiting(t.nodes - {h}, t.codes, t.wants, t.stored + {h}, t.storedCodes)
  {
    var n := t.nodes - {h};
    forall x | x in n && n[x].data.Some?
      ensures x in t.wants && WaitsFor(n, t.codes, t.wants[x], t.stored + {h}, t.storedCodes, x)
    {
      assert WaitsFor(t.nodes, t.codes, t.wants[x], t.stored, t.storedCodes, x);
    }
  }

  lemma FinishClosed(t: Tables, h: Hash)
    requires Waiting(t.nodes, t.codes, t.wants, t.stored, t.storedCodes) && Closed(t.wants, t.stored, t.storedCodes)
    requires h in t.nodes && t.nodes[h].data.Some? && Parents(t.nodes)[h] == 0 && Parents(t.codes)[h] == 0
    ensures Closed(t.wants, t.stored + {h}, t.storedCodes)
  {
    hide Parents;
    assert WaitsFor(t.nodes, t.codes, t.wants[h], t.stored, t.storedCodes, h);
    forall k | k in t.nodes ensures h !in t.nodes[k].parents {
      ParentsMember(t.nodes, k);
      assert multiset(t.nodes[k].parents)[h] <= Parents(t.nodes)[h];
    }
    forall k | k in t.codes ensures h !in t.codes[k].parents {
      ParentsMember(t.codes, k);
      assert multiset(t.codes[k].parents)[h] <= Parents(t.codes)[h];
    }
  }

  function CodeDone(t: Tables, c: Hash): (r: Tables) {
    t.(codes := t.codes - {c}, storedCodes := t.storedCodes + {c})
  }

  lemma FinishCode(t: Tables, pending: multiset<Hash>, c: Hash)
    requires Coherent(t, pending) && c in t.codes
    ensures Coherent(CodeDone(t, c), pending + multiset(t.codes[c].parents))
  {
    FinishCodeCounts(t, pending, c);
    FinishCodeWaits(t, c);
    hide Counted, Waiting;
  }

  lemma FinishCodeCounts(t: Tables, pending: multiset<Hash>, c: Hash)
    requires Counted(t.nodes, t.codes, pending) && c in t.codes
    ensures Counted(t.nodes, t.codes - {c}, pending + multiset(t.codes[c].parents))
  {
    var d, ps := t.codes - {c}, multiset(t.codes[c].parents);
    ParentsRemove(t.codes, c);
    hide Parents;
    assert Occurrences(t.nodes, d, pending + ps) == Occurrences(t.nodes, t.codes, pending) by {
      assert Parents(t.nodes) + (ps + Parents(d)) + pending == Parents(t.nodes) + Parents(d) + (pending + ps);
    }
  }

  lemma FinishCodeWaits(t: Tables, c: Hash)
    requires Waiting(t.nodes, t.codes, t.wants, t.stored, t.storedCodes) && c in t.codes
    ensures Waiting(t.nodes, t.codes - {c}, t.wants, t.stored, t.storedCodes + {c})
  {
    forall x | x in t.nodes && t.nodes[x].data.Some?
      ensures x in t.wants && WaitsFor(t.nodes, t.codes - {c}, t.wants[x], t.stored, t.storedCodes + {c}, x)
    {
      assert WaitsFor(t.nodes, t.codes, t.wants[x], t.stored, t.storedCodes, x);
    }
  }
}
