/**
  The operations of trie/sync.go. Leaf callbacks are the calls listed with each
  value; they never fail. The order of downloads (priority queue, throttling)
  is left to the caller: any requested item may arrive next.
 */
module Sync {
  import opened Bytes
  import opened SyncState
  import opened SyncSteps

  datatype Outcome = Fine | NotRequested | AlreadyProcessed | BadData

  /** What a node needs, by its own data and its leaves, is among its wants. */
  ghost predicate Covers(f: Format, wants: map<Hash, Want>, h: Hash, data: Bytes) {
    h in wants && (f.decode(data).Some? ==> Noted(f, wants[h], [], f.decode(data).value))
  }

  ghost predicate Noted(f: Format, w: Want, requests: seq<Hash>, items: seq<Item>) {
    forall i :: 0 <= i < |items| ==> ItemNoted(f, w, requests, items[i])
  }

  ghost predicate Covered(f: Format, wants: map<Hash, Want>, database: map<Hash, Bytes>,
                          memNodes: map<Hash, Bytes>, reqs: Requests, except: set<Hash>) {
    (forall h :: h in database ==> Covers(f, wants, h, database[h])) &&
    (forall h :: h in memNodes ==> Covers(f, wants, h, memNodes[h])) &&
    forall h :: h in reqs && reqs[h].data.Some? && h !in except ==> Covers(f, wants, h, reqs[h].data.value)
  }

  /** A request whose data arrived is there only because it waits for another one. */
  ghost predicate Busy(reqs: Requests, idle: set<Hash>) {
    forall h :: h in reqs && reqs[h].data.Some? && h !in idle ==> reqs[h].deps > 0
  }

  class Sync {
    const format: Format
    var database: map<Hash, Bytes>
    var dbCodes: map<Hash, Bytes>
    var memNodes: map<Hash, Bytes>
    var memCodes: map<Hash, Bytes>
    var nodeReqs: Requests
    var codeReqs: Requests
    ghost var wants: map<Hash, Want>

    ghost function T(): (t: Tables)
      reads this
    {
      Tables(nodeReqs, codeReqs, wants, database.Keys + memNodes.Keys, dbCodes.Keys + memCodes.Keys)
    }

    /**
      The invariants while `except` is being taken apart, some waits are being
      counted down, and a request in `idle` may have nothing left to wait for.
     */
    ghost predicate State(except: set<Hash>, pending: multiset<Hash>, idle: set<Hash>)
      reads this
    {
      Coherent(T(), pending) && Covered(format, wants, database, memNodes, nodeReqs, except) && Busy(nodeReqs, idle)
    }

    ghost predicate Valid()
      reads this
    {
      State({}, multiset{}, {})
    }

    /** `NewSync`: a download into a database that is closed to begin with. */
    constructor (root: Hash, nodes: map<Hash, Bytes>, codes: map<Hash, Bytes>, f: Format, ghost wants_: map<Hash, Want>)
      requires Closed(wants_, nodes.Keys, codes.Keys)
      requires forall h :: h in nodes ==> Covers(f, wants_, h, nodes[h])
      ensures Valid() && database == nodes && dbCodes == codes && memNodes == map[] && memCodes == map[] && format == f
      ensures root == f.emptyRoot || HasNode(root) || root in nodeReqs
    {
      format, database, dbCodes, memNodes, memCodes := f, nodes, codes, map[], map[];
      nodeReqs, codeReqs, wants := map[], map[], wants_;
      new;
      hide Coherent, Covered, Covers, Closed;
      NothingPending(wants, nodes, codes, memNodes, memCodes);
      StartCovered(format, wants, database);
      var ok := AddSubTrie(root, None, {});
    }

    predicate HasNode(h: Hash)
      reads this
    {
      h in memNodes || h in database
    }

    predicate HasCode(h: Hash)
      reads this
    {
      h in memCodes || h in dbCodes
    }

    /** The data of a stored node. */
    ghost function DataOf(h: Hash): (d: Bytes)
      requires HasNode(h)
      reads this
    {
      if h in memNodes then memNodes[h] else database[h]
    }

    /** Only complete sub-tries are stored: every child of a stored node is, and the sub-tries and codes of its leaves. */
    lemma StoredIsClosed(h: Hash, item: Item)
      requires Valid() && HasNode(h) && format.decode(DataOf(h)).Some? && item in format.decode(DataOf(h)).value
      ensures item.Ref? ==> HasNode(item.hash)
      ensures item.Value? ==> forall c :: c in item.calls ==> match c
                                           case SubTrie(root) => root == format.emptyRoot || HasNode(root)
                                           case Code(hash) => hash == format.emptyCode || HasCode(hash)
    {
      hide Counted, Waiting, Busy;
      assert h in T().stored && Covers(format, wants, h, DataOf(h));
      assert ItemNoted(format, wants[h], [], item);
      if item.Value? {
        forall c | c in item.calls ensures CallNoted(format, wants[h], c) {
        }
      }
    }

    /** So a path of child hashes that starts at a stored node never leaves the store. */
    lemma {:induction false} StoredIsDeep(path: seq<Hash>)
      requires Valid() && path != [] && HasNode(path[0])
      requires forall i :: 0 <= i < |path| - 1 && HasNode(path[i]) ==>
                 format.decode(DataOf(path[i])).Some? && Ref(path[i + 1]) in format.decode(DataOf(path[i])).value
      ensures HasNode(path[|path| - 1])
      decreases |path|
    {
      hide State;
      if |path| > 1 {
        var n := |path| - 1;
        StoredIsDeep(path[..n]);
        StoredIsClosed(path[n - 1], Ref(path[n]));
      }
    }

    /**
      A download never gets stuck: as long as something is pending, some
      request still lacks its data, provided waiting goes up in a Merkle order.
     */
    lemma NeverStuck(rank: Hash -> nat)
      requires Valid() && (nodeReqs != map[] || codeReqs != map[])
      requires forall k, p :: k in nodeReqs && p in nodeReqs[k].parents ==> rank(k) < rank(p)
      ensures codeReqs != map[] || exists h :: h in nodeReqs && nodeReqs[h].data.None?
    {
      hide Waiting, Closed, Covered, Parents;
      if codeReqs == map[] {
        var h := LowestRequest(nodeReqs, rank);
        if nodeReqs[h].data.Some? {
          assert h in Occurrences(nodeReqs, codeReqs, multiset{});
          NoParents(codeReqs);
          var k := ParentSource(nodeReqs, h);
          assert false;
        }
      }
    }

    /** A pending request waits for exactly as many requests as name it a parent. */
    lemma DepsAreOccurrences(h: Hash)
      requires Valid() && h in nodeReqs
      ensures nodeReqs[h].deps == (Parents(nodeReqs) + Parents(codeReqs))[h]
    {
      hide Waiting, Closed, Covered, Parents, Busy;
      assert Parents(nodeReqs) + Parents(codeReqs) + multiset{} == Parents(nodeReqs) + Parents(codeReqs);
    }

    // ---------- scheduling ----------

    /** Registers a node request, or adds to who waits for it. */
    method ScheduleNodeReq(k: Hash, parents: seq<Hash>, ghost except: set<Hash>, ghost pending: multiset<Hash>)
      requires State(except, pending + multiset(parents), except) && !HasNode(k)
      modifies this`nodeReqs
      ensures State(except, pending, except) && nodeReqs == Scheduled(old(nodeReqs), k, parents)
    {
      hide Coherent, Covers;
      ghost var t := T();
      ScheduleNode(t, pending, k, parents);
      if k in nodeReqs {
        nodeReqs := nodeReqs[k := nodeReqs[k].(parents := nodeReqs[k].parents + parents)];
      } else {
        nodeReqs := nodeReqs[k := Request(None, parents, 0)];
      }
      assert T() == t.(nodes := Scheduled(t.nodes, k, parents));
    }

    method ScheduleCodeReq(k: Hash, parents: seq<Hash>, ghost except: set<Hash>, ghost pending: multiset<Hash>)
      requires State(except, pending + multiset(parents), except)
      modifies this`codeReqs
      ensures State(except, pending, except) && codeReqs == Scheduled(old(codeReqs), k, parents)
    {
      hide Coherent, Covers;
      ghost var t := T();
      ScheduleCode(t, pending, k, parents);
      if k in codeReqs {
        codeReqs := codeReqs[k := codeReqs[k].(parents := codeReqs[k].parents + parents)];
      } else {
        codeReqs := codeReqs[k := Request(None, parents, 0)];
      }
      assert T() == t.(codes := Scheduled(t.codes, k, parents));
    }

    /** One request more to wait for. */
    method Await(h: Hash, n: nat, ghost except: set<Hash>, ghost pending: multiset<Hash>)
      requires State(except, pending, except) && h in nodeReqs && nodeReqs[h].data.Some?
      modifies this`nodeReqs
      ensures State(except, pending + Copies(h, n), except)
      ensures nodeReqs == old(nodeReqs)[h := old(nodeReqs)[h].(deps := old(nodeReqs)[h].deps + n)]
    {
      hide Coherent, Covers;
      ghost var t := T();
      CountUp(t, pending, h, n);
      nodeReqs := nodeReqs[h := nodeReqs[h].(deps := nodeReqs[h].deps + n)];
      assert T() == t.(nodes := nodeReqs);
    }

    // ---------- sub-tries and codes ----------

    /** `AddSubTrie`; without a parent it is the start of a download. The panic on an unknown parent is `false`. */
    method AddSubTrie(root: Hash, parent: Option<Hash>, ghost except: set<Hash>) returns (ok: bool)
      requires State(except, multiset{}, except)
      requires parent.Some? && parent.value in nodeReqs ==> nodeReqs[parent.value].data.Some?
      modifies this`nodeReqs, this`wants
      ensures State(except, multiset{}, except) && SameData(old(nodeReqs), nodeReqs) && Grown(old(wants), wants)
      ensures ok <==> root == format.emptyRoot || HasNode(root) || parent.None? || parent.value in old(nodeReqs)
      ensures ok && root != format.emptyRoot ==> HasNode(root) || root in nodeReqs
      ensures ok && root != format.emptyRoot && parent.Some? && parent.value in old(nodeReqs) ==>
                parent.value in wants && root in wants[parent.value].nodes
    {
      hide Coherent, Covers, Covered;
      if root == format.emptyRoot {
        return true;
      }
      if HasNode(root) {
        if parent.Some? && parent.value in nodeReqs {
          NeedNode(parent.value, root, except, multiset{});
        }
        return true;
      }
      if parent.None? {
        var none: seq<Hash> := [];
        NoneAwaited();
        ScheduleNodeReq(root, none, except, multiset{});
        return true;
      }
      if parent.value !in nodeReqs {
        return false;
      }
      LinkNode(root, parent.value, except);
      ok := true;
    }

    /** Links a sub-trie's request to its ancestor. */
    method LinkNode(root: Hash, parent: Hash, ghost except: set<Hash>)
      requires State(except, multiset{}, except) && parent in nodeReqs && nodeReqs[parent].data.Some? && !HasNode(root)
      modifies this`nodeReqs, this`wants
      ensures State(except, multiset{}, except) && SameData(old(nodeReqs), nodeReqs) && Grown(old(wants), wants)
      ensures root in nodeReqs && parent in wants && root in wants[parent].nodes
    {
      hide State;
      Await(parent, 1, except, multiset{});
      OneAwaited(parent);
      ScheduleNodeReq(root, [parent], except, multiset{});
      NeedNode(parent, root, except, multiset{});
    }

    method AddCodeEntry(hash: Hash, parent: Option<Hash>, ghost except: set<Hash>) returns (ok: bool)
      requires State(except, multiset{}, except)
      requires parent.Some? && parent.value in nodeReqs ==> nodeReqs[parent.value].data.Some?
      modifies this`nodeReqs, this`codeReqs, this`wants
      ensures State(except, multiset{}, except) && SameData(old(nodeReqs), nodeReqs) && Grown(old(wants), wants)
      ensures old(codeReqs.Keys) <= codeReqs.Keys
      ensures ok <==> hash == format.emptyCode || HasCode(hash) || parent.None? || parent.value in old(nodeReqs)
      ensures ok && hash != format.emptyCode ==> HasCode(hash) || hash in codeReqs
      ensures ok && hash != format.emptyCode && parent.Some? && parent.value in old(nodeReqs) ==>
                parent.value in wants && hash in wants[parent.value].codes
    {
      hide Coherent, Covers, Covered;
      if hash == format.emptyCode {
        return true;
      }
      if HasCode(hash) {
        if parent.Some? && parent.value in nodeReqs {
          NeedCode(parent.value, hash, except, multiset{});
        }
        return true;
      }
      if parent.None? {
        var none: seq<Hash> := [];
        NoneAwaited();
        ScheduleCodeReq(hash, none, except, multiset{});
        return true;
      }
      if parent.value !in nodeReqs {
        return false;
      }
      Await(parent.value, 1, except, multiset{});
      OneAwaited(parent.value);
      ScheduleCodeReq(hash, [parent.value], except, multiset{});
      NeedCode(parent.value, hash, except, multiset{});
      ok := true;
    }

    /** Records that the node `h` needs the node `k`. */
    ghost method NeedNode(h: Hash, k: Hash, except: set<Hash>, pending: multiset<Hash>)
      requires State(except, pending, except) && h in nodeReqs && nodeReqs[h].data.Some?
      requires HasNode(k) || (k in nodeReqs && h in nodeReqs[k].parents)
      modifies this`wants
      ensures State(except, pending, except) && h in wants && k in wants[h].nodes && WantsGrow(old(wants), wants, h)
    {
      hide Coherent;
      WantNode(T(), pending, h, k);
      ghost var w := wants[h := wants[h].(nodes := wants[h].nodes + {k})];
      CoveredMore(format, wants, w, database, memNodes, nodeReqs, except, h);
      wants := w;
    }

    ghost method NeedCode(h: Hash, k: Hash, except: set<Hash>, pending: multiset<Hash>)
      requires State(except, pending, except) && h in nodeReqs && nodeReqs[h].data.Some?
      requires HasCode(k) || (k in codeReqs && h in codeReqs[k].parents)
      modifies this`wants
      ensures State(except, pending, except) && h in wants && k in wants[h].codes && WantsGrow(old(wants), wants, h)
    {
      hide Coherent;
      WantCode(T(), pending, h, k);
      ghost var w := wants[h := wants[h].(codes := wants[h].codes + {k})];
      CoveredMore(format, wants, w, database, memNodes, nodeReqs, except, h);
      wants := w;
    }

    // ---------- completing requests ----------

    /** `commit` of a node request, and of every request that thereby has nothing left to wait for. */
    method CommitNode(h: Hash, ghost pending: multiset<Hash>)
      requires State({}, pending, {h}) && h in nodeReqs && nodeReqs[h].data.Some? && nodeReqs[h].deps == 0
      modifies this`nodeReqs, this`memNodes
      ensures State({}, pending, {}) && h !in nodeReqs && Settled(old(nodeReqs), nodeReqs, old(memNodes), memNodes)
      decreases nodeReqs.Keys, 0
    {
      hide Coherent, Covers, Covered;
      ghost var t := T();
      var req := nodeReqs[h];
      PendingNotStored(t, pending, h);
      FinishNode(t, pending, h);
      CoveredMoved(format, wants, database, memNodes, nodeReqs, h);
      SettledOne(nodeReqs, memNodes, h);
      memNodes := memNodes[h := req.data.value];
      nodeReqs := nodeReqs - {h};
      NodeStored(database, old(memNodes), h, req.data.value);
      assert T() == NodeDone(t, h);
      hide Settled;
      ghost var n, m := nodeReqs, memNodes;
      Settle(req.parents, pending);
      SettledTrans(old(nodeReqs), n, nodeReqs, old(memNodes), m, memNodes);
      SettledKeys(n, nodeReqs, m, memNodes);
    }

    method CommitCode(c: Hash, data: Bytes)
      requires Valid() && c in codeReqs
      modifies this`nodeReqs, this`codeReqs, this`memNodes, this`memCodes
      ensures Valid() && codeReqs == old(codeReqs) - {c} && memCodes == old(memCodes)[c := data]
      ensures Settled(old(nodeReqs), nodeReqs, old(memNodes), memNodes)
    {
      hide Coherent, Covers, Covered;
      ghost var t := T();
      var req := codeReqs[c];
      FinishCode(t, multiset{}, c);
      memCodes := memCodes[c := data];
      codeReqs := codeReqs - {c};
      CodeStored(dbCodes, old(memCodes), c, data);
      assert T() == CodeDone(t, c);
      Settle(req.parents, multiset{});
    }

    /** Counts down everyone who waited, one for each occurrence. */
    method Settle(parents: seq<Hash>, ghost pending: multiset<Hash>)
      requires State({}, pending + multiset(parents), {})
      modifies this`nodeReqs, this`memNodes
      ensures State({}, pending, {}) && Settled(old(nodeReqs), nodeReqs, old(memNodes), memNodes)
      decreases nodeReqs.Keys, 1
    {
      hide Coherent, Covers, Covered, Settled, SameData, Busy;
      var i := 0;
      assert parents[0..] == parents;
      SettledNone(nodeReqs, memNodes);
      while i < |parents|
        invariant 0 <= i <= |parents| && State({}, pending + multiset(parents[i..]), {})
        invariant Settled(old(nodeReqs), nodeReqs, old(memNodes), memNodes)
      {
        var p := parents[i];
        ghost var rest := pending + multiset(parents[i + 1..]);
        NextParent(pending, parents, i);
        SettledKeys(old(nodeReqs), nodeReqs, old(memNodes), memNodes);
        ghost var n, m := nodeReqs, memNodes;
        CountOff(p, rest);
        SettledSame(n, nodeReqs, m);
        SettledTrans(old(nodeReqs), n, nodeReqs, old(memNodes), m, memNodes);
        if nodeReqs[p].deps == 0 {
          n := nodeReqs;
          CommitNode(p, rest);
          SettledTrans(old(nodeReqs), n, nodeReqs, old(memNodes), m, memNodes);
        } else {
          BusyNow(nodeReqs, p);
        }
        i := i + 1;
      }
      AllParents(pending, parents, i);
    }

    method CountOff(p: Hash, ghost rest: multiset<Hash>)
      requires State({}, rest + multiset{p}, {})
      modifies this`nodeReqs
      ensures State({}, rest, {p}) && p in nodeReqs && nodeReqs[p].data.Some? && nodeReqs.Keys == old(nodeReqs.Keys)
      ensures SameData(old(nodeReqs), nodeReqs) && nodeReqs[p].deps >= 0
    {
      hide Coherent, Covers, Covered;
      ghost var t := T();
      CountDown(t, rest, p);
      ghost var n := nodeReqs[p := nodeReqs[p].(deps := nodeReqs[p].deps - 1)];
      CoveredSame(format, wants, database, memNodes, nodeReqs, n);
      nodeReqs := nodeReqs[p := nodeReqs[p].(deps := nodeReqs[p].deps - 1)];
      assert T() == t.(nodes := n);
    }

    // ---------- a node arrives ----------

    /** The calls a leaf's callback makes, all with the node at hand as parent. */
    method RunCalls(h: Hash, calls: seq<Call>)
      requires State({h}, multiset{}, {h}) && h in nodeReqs && nodeReqs[h].data.Some? && h in wants
      modifies this`nodeReqs, this`codeReqs, this`wants
      ensures State({h}, multiset{}, {h}) && SameData(old(nodeReqs), nodeReqs) && Grown(old(wants), wants) && h in wants
      ensures old(codeReqs.Keys) <= codeReqs.Keys && ItemNoted(format, wants[h], [], Value(calls))
    {
      hide Coherent, Covers, Covered, Busy, CallNoted;
      var i := 0;
      while i < |calls|
        invariant 0 <= i <= |calls| && State({h}, multiset{}, {h}) && SameData(old(nodeReqs), nodeReqs)
        invariant Grown(old(wants), wants) && h in wants && old(codeReqs.Keys) <= codeReqs.Keys
        invariant ItemNoted(format, wants[h], [], Value(calls[..i]))
      {
        ghost var w := wants;
        RunCall(h, calls[i]);
        CallsMore(format, w[h], wants[h], calls, i);
        i := i + 1;
      }
      assert calls[..i] == calls;
    }

    method RunCall(h: Hash, call: Call)
      requires State({h}, multiset{}, {h}) && h in nodeReqs && nodeReqs[h].data.Some? && h in wants
      modifies this`nodeReqs, this`codeReqs, this`wants
      ensures State({h}, multiset{}, {h}) && SameData(old(nodeReqs), nodeReqs) && Grown(old(wants), wants)
      ensures old(codeReqs.Keys) <= codeReqs.Keys && h in wants && CallNoted(format, wants[h], call)
    {
      hide Coherent, Covers, Covered, SameData, Busy;
      var ok;
      match call {
        case SubTrie(root) => ok := AddSubTrie(root, Some(h), {h});
        case Code(hash) => ok := AddCodeEntry(hash, Some(h), {h});
      }
    }

    /** `children`: runs the callbacks and lists the references not stored yet. */
    method Children(h: Hash, items: seq<Item>) returns (requests: seq<Hash>)
      requires State({h}, multiset{}, {h}) && h in nodeReqs && nodeReqs[h].data.Some? && h in wants
      modifies this`nodeReqs, this`codeReqs, this`wants
      ensures State({h}, multiset{}, {h}) && SameData(old(nodeReqs), nodeReqs) && h in wants
      ensures old(codeReqs.Keys) <= codeReqs.Keys && forall k :: k in requests ==> !HasNode(k)
      ensures Noted(format, wants[h], requests, items)
    {
      hide Coherent, Covers, Covered, Busy, ItemNoted;
      requests := [];
      var i := 0;
      while i < |items|
        invariant 0 <= i <= |items| && State({h}, multiset{}, {h}) && SameData(old(nodeReqs), nodeReqs) && h in wants
        invariant old(codeReqs.Keys) <= codeReqs.Keys
        invariant forall k :: k in requests ==> !HasNode(k)
        invariant Noted(format, wants[h], requests, items[..i])
      {
        ghost var w, rs := wants, requests;
        match items[i] {
          case Value(calls) => RunCalls(h, calls);
          case Embedded =>
          case Ref(k) =>
            if HasNode(k) {
              NeedNode(h, k, {h}, multiset{});
            } else {
              requests := requests + [k];
            }
        }
        ItemsMore(format, w[h], wants[h], rs, requests, items, i);
        i := i + 1;
      }
      assert items[..i] == items;
    }

    /** Requests every listed child for the node at hand. */
    method ScheduleAll(h: Hash, requests: seq<Hash>)
      requires State({h}, multiset{}, {h}) && h in nodeReqs && nodeReqs[h].data.Some? && h in wants
      requires forall k :: k in requests ==> !HasNode(k)
      modifies this`nodeReqs, this`wants
      ensures State({h}, multiset{}, {h}) && SameData(old(nodeReqs), nodeReqs) && h in wants && Grown(old(wants), wants)
      ensures forall k :: k in requests ==> k in wants[h].nodes
      ensures h in nodeReqs && nodeReqs[h].deps == old(nodeReqs[h].deps) + |requests|
    {
      hide Coherent, Covers, Covered, State;
      Await(h, |requests|, {h}, multiset{});
      NoCopies(h, |requests|);
      hide Copies;
      var i := 0;
      while i < |requests|
        invariant 0 <= i <= |requests| && State({h}, Copies(h, |requests| - i), {h})
        invariant SameData(old(nodeReqs), nodeReqs) && h in wants && Grown(old(wants), wants)
        invariant forall j :: 0 <= j < i ==> requests[j] in wants[h].nodes
        invariant h in nodeReqs && nodeReqs[h].deps == old(nodeReqs[h].deps) + |requests|
      {
        assert requests[i] in requests;
        RequestChild(h, requests[i], |requests| - i);
        i := i + 1;
      }
    }

    method RequestChild(h: Hash, k: Hash, ghost left: nat)
      requires left > 0 && State({h}, Copies(h, left), {h}) && h in nodeReqs && nodeReqs[h].data.Some? && !HasNode(k)
      modifies this`nodeReqs, this`wants
      ensures State({h}, Copies(h, left - 1), {h}) && SameData(old(nodeReqs), nodeReqs) && Grown(old(wants), wants)
      ensures h in wants && k in wants[h].nodes && h in nodeReqs && nodeReqs[h].deps == old(nodeReqs[h].deps)
    {
      hide Coherent, Covers, Covered, Copies, Busy;
      OneCopy(h, left);
      ScheduleNodeReq(k, [h], {h}, Copies(h, left - 1));
      NeedNode(h, k, {h}, Copies(h, left - 1));
    }

    /** The data of a request of the old table is still pending or stored. */
    ghost predicate Holds(h: Hash, data: Bytes)
      reads this
    {
      (h in nodeReqs && nodeReqs[h].data == Some(data)) || (h in memNodes && memNodes[h] == data)
    }

    /**
      `Process`: what arrives is kept, nothing requested or received is ever
      lost, and the invariants hold whatever arrives.
     */
    method Process(hash: Hash, data: Bytes) returns (r: Outcome)
      requires Valid()
      modifies this`nodeReqs, this`codeReqs, this`memNodes, this`memCodes, this`wants
      ensures Valid()
      ensures forall h :: h in old(nodeReqs) ==> h in nodeReqs || HasNode(h)
      ensures forall h :: h in old(nodeReqs) && old(nodeReqs)[h].data.Some? ==> Holds(h, old(nodeReqs)[h].data.value)
      ensures forall c :: c in old(codeReqs) ==> c in codeReqs || HasCode(c)
      ensures r == NotRequested <==> hash !in old(nodeReqs) && hash !in old(codeReqs)
      ensures r == BadData <==> hash in old(nodeReqs) && old(nodeReqs)[hash].data.None? && format.decode(data).None?
      ensures r == AlreadyProcessed <==>
                hash in old(nodeReqs) && old(nodeReqs)[hash].data.Some? && hash !in old(codeReqs)
      ensures hash in old(codeReqs) ==> hash in memCodes && memCodes[hash] == data
      ensures r == Fine && hash in old(nodeReqs) && old(nodeReqs)[hash].data.None? ==> Holds(hash, data)
      ensures r == NotRequested || r == AlreadyProcessed ==> nodeReqs == old(nodeReqs) && memNodes == old(memNodes)
    {
      hide Coherent, Covers, Covered, Busy;
      if hash !in nodeReqs && hash !in codeReqs {
        return NotRequested;
      }
      var filled := false;
      if hash in codeReqs {
        filled := true;
        CommitCode(hash, data);
      }
      if hash in nodeReqs && nodeReqs[hash].data.None? {
        var items := format.decode(data);
        if items.None? {
          return BadData;
        }
        filled := true;
        FillNode(hash, data, items.value);
      }
      r := if filled then Fine else AlreadyProcessed;
    }

    method FillNode(hash: Hash, data: Bytes, items: seq<Item>)
      requires Valid() && hash in nodeReqs && nodeReqs[hash].data.None? && format.decode(data) == Some(items)
      modifies this`nodeReqs, this`codeReqs, this`memNodes, this`wants
      ensures Valid() && Holds(hash, data)
      ensures forall h :: h in old(nodeReqs) ==> h in nodeReqs || h in memNodes
      ensures forall h :: h in old(nodeReqs) && old(nodeReqs)[h].data.Some? ==> Holds(h, old(nodeReqs)[h].data.value)
      ensures forall c :: c in old(codeReqs) ==> c in codeReqs
      ensures forall h :: h in old(memNodes) ==> h in memNodes && memNodes[h] == old(memNodes)[h]
    {
      hide State, Noted, Valid;
      TakeData(hash, data);
      var requests := Children(hash, items);
      Proceed(hash, requests, items);
    }

    /** A node that lacks nothing is stored at once; otherwise it waits for what was requested. */
    method Proceed(h: Hash, requests: seq<Hash>, ghost items: seq<Item>)
      requires State({h}, multiset{}, {h}) && h in nodeReqs && nodeReqs[h].data.Some? && h in wants
      requires forall k :: k in requests ==> !HasNode(k)
      requires format.decode(nodeReqs[h].data.value) == Some(items) && Noted(format, wants[h], requests, items)
      modifies this`nodeReqs, this`memNodes, this`wants
      ensures Valid()
      ensures forall x :: x in old(nodeReqs) ==> (x in nodeReqs && nodeReqs[x].data == old(nodeReqs)[x].data) ||
                                                 (x in memNodes && old(nodeReqs)[x].data == Some(memNodes[x]))
      ensures forall x :: x in old(memNodes) ==> x in memNodes && memNodes[x] == old(memNodes)[x]
    {
      hide Coherent, Covers, Covered, Noted, Busy;
      if |requests| == 0 && nodeReqs[h].deps == 0 {
        NotedNow(format, wants[h], wants[h], requests, items);
        CoveredNow(format, wants, database, memNodes, nodeReqs, h, items);
        CommitNode(h, multiset{});
      } else {
        DepsCount(T(), multiset{}, h);
        AwaitChildren(h, requests, items);
      }
    }

    /** The node's missing children are requested; the node waits. */
    method AwaitChildren(h: Hash, requests: seq<Hash>, ghost items: seq<Item>)
      requires State({h}, multiset{}, {h}) && h in nodeReqs && nodeReqs[h].data.Some? && h in wants
      requires forall k :: k in requests ==> !HasNode(k)
      requires nodeReqs[h].deps >= 0 && nodeReqs[h].deps + |requests| > 0
      requires format.decode(nodeReqs[h].data.value) == Some(items) && Noted(format, wants[h], requests, items)
      modifies this`nodeReqs, this`wants
      ensures Valid() && SameData(old(nodeReqs), nodeReqs)
    {
      hide Coherent, Covers, Covered, Noted, Busy;
      ghost var w := wants;
      ScheduleAll(h, requests);
      BusyNow(nodeReqs, h);
      NotedNow(format, w[h], wants[h], requests, items);
      CoveredNow(format, wants, database, memNodes, nodeReqs, h, items);
    }

    method TakeData(hash: Hash, data: Bytes)
      requires Valid() && hash in nodeReqs && nodeReqs[hash].data.None?
      modifies this`nodeReqs, this`wants
      ensures State({hash}, multiset{}, {hash}) &&
              nodeReqs == old(nodeReqs)[hash := old(nodeReqs)[hash].(data := Some(data))]
      ensures hash in wants
    {
      hide Coherent;
      ghost var t := T();
      Fill(t, multiset{}, hash, data);
      PendingNotStored(t, multiset{}, hash);
      FillCovered(format, wants, database, memNodes, nodeReqs, hash, data);
      nodeReqs := nodeReqs[hash := nodeReqs[hash].(data := Some(data))];
      wants := wants[hash := Want({}, {})];
    }

    /** `Commit`: the batch goes to the database. */
    method Flush()
      requires Valid()
      modifies this`database, this`dbCodes, this`memNodes, this`memCodes
      ensures Valid() && memNodes == map[] && memCodes == map[]
      ensures database == old(database + memNodes) && dbCodes == old(dbCodes + memCodes)
    {
      hide Coherent, Covers;
      hide Covered;
      ghost var t := T();
      CoveredFlushed(format, wants, database, memNodes, nodeReqs);
      database, memNodes := database + memNodes, map[];
      dbCodes, memCodes := dbCodes + memCodes, map[];
      assert T().stored == t.stored && T().storedCodes == t.storedCodes;
    }
  }

  // ---------- nothing gets stuck ----------

  lemma {:induction false} LowestRequest(m: Requests, rank: Hash -> nat) returns (h: Hash)
    requires m != map[]
    ensures h in m && forall k :: k in m ==> rank(h) <= rank(k)
    decreases m.Keys
  {
    h :| h in m;
    if m - {h} != map[] {
      var k := LowestRequest(m - {h}, rank);
      assert forall x :: x in m ==> x == h || x in m - {h};
      if rank(k) < rank(h) {
        h := k;
      }
    } else {
      assert forall x :: x in m && x != h ==> x in m - {h};
    }
  }

  lemma NoParents(m: Requests)
    requires m == map[]
    ensures Parents(m) == multiset{}
  {
  }

  lemma {:induction false} ParentSource(m: Requests, p: Hash) returns (k: Hash)
    requires p in Parents(m)
    ensures k in m && p in m[k].parents
    decreases m.Keys
  {
    var h :| h in m && Parents(m) == multiset(m[h].parents) + Parents(m - {h});
    if p in m[h].parents {
      k := h;
    } else {
      k := ParentSource(m - {h}, p);
    }
  }

  /** Counters are never negative. */
  lemma DepsCount(t: Tables, pending: multiset<Hash>, h: Hash)
    requires Coherent(t, pending) && h in t.nodes
    ensures t.nodes[h].deps >= 0
  {
    hide Waiting, Closed, Parents;
  }

  lemma BusyNow(reqs: Requests, h: Hash)
    requires Busy(reqs, {h}) && h in reqs && reqs[h].deps > 0
    ensures Busy(reqs, {})
  {
  }

  // ---------- wants ----------

  lemma CallsMore(f: Format, v: Want, w: Want, calls: seq<Call>, i: nat)
    requires i < |calls| && v.nodes <= w.nodes && v.codes <= w.codes
    requires ItemNoted(f, v, [], Value(calls[..i])) && CallNoted(f, w, calls[i])
    ensures ItemNoted(f, w, [], Value(calls[..i + 1]))
  {
    forall j | 0 <= j < i ensures CallNoted(f, w, calls[j]) {
      assert CallNoted(f, v, calls[..i][j]);
    }
  }

  lemma ItemGrows(f: Format, v: Want, w: Want, old_: seq<Hash>, new_: seq<Hash>, item: Item)
    requires v.nodes <= w.nodes && v.codes <= w.codes && old_ <= new_ && ItemNoted(f, v, old_, item)
    ensures ItemNoted(f, w, new_, item)
  {
    if item.Value? {
      forall j | 0 <= j < |item.calls| ensures CallNoted(f, w, item.calls[j]) {
        assert CallNoted(f, v, item.calls[j]);
      }
    }
  }

  lemma ItemsMore(f: Format, v: Want, w: Want, old_: seq<Hash>, new_: seq<Hash>, items: seq<Item>, i: nat)
    requires i < |items| && v.nodes <= w.nodes && v.codes <= w.codes && old_ <= new_
    requires Noted(f, v, old_, items[..i])
    requires match items[i]
             case Value(calls) => ItemNoted(f, w, [], Value(calls))
             case Ref(hash) => hash in w.nodes || hash in new_
             case Embedded => true
    ensures Noted(f, w, new_, items[..i + 1])
  {
    var more := items[..i + 1];
    forall j | 0 <= j < |more| ensures ItemNoted(f, w, new_, more[j]) {
      if j < i {
        assert ItemNoted(f, v, old_, items[..i][j]);
        ItemGrows(f, v, w, old_, new_, items[j]);
      }
    }
  }

  /** Once the listed nodes are wanted, all is. */
  lemma NotedNow(f: Format, v: Want, w: Want, requests: seq<Hash>, items: seq<Item>)
    requires Noted(f, v, requests, items) && v.nodes <= w.nodes && v.codes <= w.codes
    requires forall k :: k in requests ==> k in w.nodes
    ensures Noted(f, w, [], items)
  {
    forall i | 0 <= i < |items| ensures ItemNoted(f, w, [], items[i]) {
      assert ItemNoted(f, v, requests, items[i]);
      if items[i].Value? {
        ItemGrows(f, v, w, requests, requests, items[i]);
      }
    }
  }

  lemma NoCopies(h: Hash, n: nat)
    ensures multiset{} + Copies(h, n) == Copies(h, n) && Copies(h, 0) == multiset{}
  {
  }

  lemma OneCopy(h: Hash, n: nat)
    requires n > 0
    ensures Copies(h, n) == Copies(h, n - 1) + multiset([h])
  {
  }

  lemma CoveredFlushed(f: Format, wants: map<Hash, Want>, database: map<Hash, Bytes>,
                       memNodes: map<Hash, Bytes>, reqs: Requests)
    requires Covered(f, wants, database, memNodes, reqs, {})
    ensures Covered(f, wants, database + memNodes, map[], reqs, {})
  {
    hide Covers;
  }

  lemma FillCovered(f: Format, wants: map<Hash, Want>, database: map<Hash, Bytes>,
                    memNodes: map<Hash, Bytes>, reqs: Requests, h: Hash, data: Bytes)
    requires Covered(f, wants, database, memNodes, reqs, {}) && h in reqs && h !in database && h !in memNodes
    ensures Covered(f, wants[h := Want({}, {})], database, memNodes, reqs[h := reqs[h].(data := Some(data))], {h})
  {
  }

  lemma CoveredNow(f: Format, wants: map<Hash, Want>, database: map<Hash, Bytes>,
                   memNodes: map<Hash, Bytes>, reqs: Requests, h: Hash, items: seq<Item>)
    requires Covered(f, wants, database, memNodes, reqs, {h}) && h in reqs && reqs[h].data.Some?
    requires h in wants && f.decode(reqs[h].data.value) == Some(items) && Noted(f, wants[h], [], items)
    ensures Covered(f, wants, database, memNodes, reqs, {})
  {
  }

  /** Requests left only for the batch, and the others keep their data. */
  ghost predicate Settled(m: Requests, n: Requests, mem: map<Hash, Bytes>, now: map<Hash, Bytes>) {
    n.Keys <= m.Keys && (forall h :: h in n ==> n[h].data == m[h].data) &&
    (forall h :: h in m && h !in n ==> h in now && m[h].data == Some(now[h])) &&
    forall h :: h in mem ==> h in now && now[h] == mem[h]
  }

  lemma SettledNone(m: Requests, mem: map<Hash, Bytes>)
    ensures Settled(m, m, mem, mem)
  {
  }

  lemma SettledTrans(m: Requests, n: Requests, k: Requests, mem: map<Hash, Bytes>, mid: map<Hash, Bytes>,
                     now: map<Hash, Bytes>)
    requires Settled(m, n, mem, mid) && Settled(n, k, mid, now)
    ensures Settled(m, k, mem, now)
  {
  }

  lemma SettledOne(m: Requests, mem: map<Hash, Bytes>, h: Hash)
    requires h in m && m[h].data.Some? && h !in mem
    ensures Settled(m, m - {h}, mem, mem[h := m[h].data.value])
  {
  }

  lemma SettledSame(m: Requests, n: Requests, mem: map<Hash, Bytes>)
    requires m.Keys == n.Keys && SameData(m, n)
    ensures Settled(m, n, mem, mem)
  {
  }

  lemma SettledKeys(m: Requests, n: Requests, mem: map<Hash, Bytes>, now: map<Hash, Bytes>)
    requires Settled(m, n, mem, now)
    ensures n.Keys <= m.Keys
  {
  }

  lemma PendingNotStored(t: Tables, pending: multiset<Hash>, h: Hash)
    requires Coherent(t, pending) && h in t.nodes
    ensures h !in t.stored
  {
    hide Counted, Waiting, Closed;
  }

  lemma CoveredMoved(f: Format, wants: map<Hash, Want>, database: map<Hash, Bytes>,
                     memNodes: map<Hash, Bytes>, reqs: Requests, h: Hash)
    requires Covered(f, wants, database, memNodes, reqs, {}) && h in reqs && reqs[h].data.Some?
    ensures Covered(f, wants, database, memNodes[h := reqs[h].data.value], reqs - {h}, {})
  {
    hide Covers;
  }

  lemma CoveredSame(f: Format, wants: map<Hash, Want>, database: map<Hash, Bytes>,
                    memNodes: map<Hash, Bytes>, m: Requests, n: Requests)
    requires Covered(f, wants, database, memNodes, m, {}) && m.Keys == n.Keys && SameData(m, n)
    ensures Covered(f, wants, database, memNodes, n, {})
  {
    hide Covers;
  }

  lemma NodeStored(database: map<Hash, Bytes>, mem: map<Hash, Bytes>, h: Hash, data: Bytes)
    ensures database.Keys + mem[h := data].Keys == database.Keys + mem.Keys + {h}
  {
  }

  lemma CodeStored(database: map<Hash, Bytes>, mem: map<Hash, Bytes>, h: Hash, data: Bytes)
    ensures database.Keys + mem[h := data].Keys == database.Keys + mem.Keys + {h}
  {
  }

  lemma NextParent(pending: multiset<Hash>, parents: seq<Hash>, i: nat)
    requires i < |parents|
    ensures pending + multiset(parents[i..]) == pending + multiset(parents[i + 1..]) + multiset{parents[i]}
  {
    assert parents[i..] == [parents[i]] + parents[i + 1..];
  }

  lemma AllParents(pending: multiset<Hash>, parents: seq<Hash>, i: nat)
    requires i == |parents|
    ensures pending + multiset(parents[i..]) == pending
  {
    assert parents[i..] == [];
  }

  lemma StartCovered(f: Format, wants: map<Hash, Want>, nodes: map<Hash, Bytes>)
    requires forall h :: h in nodes ==> Covers(f, wants, h, nodes[h])
    ensures Covered(f, wants, nodes, map[], map[], {})
  {
    hide Covers;
  }

  lemma NothingPending(wants: map<Hash, Want>, nodes: map<Hash, Bytes>, codes: map<Hash, Bytes>,
                       memNodes: map<Hash, Bytes>, memCodes: map<Hash, Bytes>)
    requires Closed(wants, nodes.Keys, codes.Keys) && memNodes == map[] && memCodes == map[]
    ensures Coherent(Tables(map[], map[], wants, nodes.Keys + memNodes.Keys, codes.Keys + memCodes.Keys), multiset{})
  {
    assert nodes.Keys + memNodes.Keys == nodes.Keys && codes.Keys + memCodes.Keys == codes.Keys;
  }

  lemma NoneAwaited()
    ensures var none: seq<Hash> := []; var m: multiset<Hash> := multiset{}; m + multiset(none) == m
  {
  }

  lemma OneAwaited(h: Hash)
    ensures var m: multiset<Hash> := multiset{}; m + Copies(h, 1) == m + multiset([h])
  {
  }

  /** The same requests hold the same data; there may be more. */
  ghost predicate SameData(m: Requests, n: Requests) {
    forall h :: h in m ==> h in n && n[h].data == m[h].data
  }

  ghost predicate Grown(v: map<Hash, Want>, w: map<Hash, Want>) {
    forall x :: x in v ==> x in w && v[x].nodes <= w[x].nodes && v[x].codes <= w[x].codes
  }

  ghost predicate WantsGrow(v: map<Hash, Want>, w: map<Hash, Want>, h: Hash) {
    h in w && (h in v ==> v[h].nodes <= w[h].nodes && v[h].codes <= w[h].codes) &&
    forall x :: x != h && x in v ==> x in w && w[x] == v[x]
  }

  lemma CoveredMore(f: Format, v: map<Hash, Want>, w: map<Hash, Want>, database: map<Hash, Bytes>,
                    memNodes: map<Hash, Bytes>, reqs: Requests, except: set<Hash>, h: Hash)
    requires Covered(f, v, database, memNodes, reqs, except) && WantsGrow(v, w, h)
    ensures Covered(f, w, database, memNodes, reqs, except)
  {
    forall x, d | Covers(f, v, x, d) ensures Covers(f, w, x, d) {
    }
  }
}
