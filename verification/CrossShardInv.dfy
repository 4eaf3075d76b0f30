/**
  Every step of the system keeps the invariant, so it holds in every state of
  every run.
 */
module CrossShardInv {
  import opened Multisets
  import opened Ledger
  import opened TxPool
  import opened Client
  import opened Flow
  import opened CrossShard

  // ---------- one participant changes ----------

  lemma QueueUpdate(b: Workload, cs: seq<ClientState>, i: nat, c: ClientState)
    requires i < |cs| && Sent(cs) && c.injected <= |c.txs|
    ensures Sent(cs[i := c])
    ensures Gather(Queues(b, cs[i := c])) + QueueOf(b, cs[i]) == Gather(Queues(b, cs)) + QueueOf(b, c)
  {
    hide QueueOf;
    GatherUpdate(Queues(b, cs), i, QueueOf(b, c));
    assert Queues(b, cs)[i := QueueOf(b, c)] == Queues(b, cs[i := c]);
  }

  lemma InboxUpdate(cs: seq<ClientState>, i: nat, c: ClientState)
    requires i < |cs|
    ensures Gather(Inboxes(cs[i := c])) + multiset(cs[i].replies) == Gather(Inboxes(cs)) + multiset(c.replies)
  {
    GatherUpdate(Inboxes(cs), i, multiset(c.replies));
    assert Inboxes(cs)[i := multiset(c.replies)] == Inboxes(cs[i := c]);
  }

  lemma PoolUpdate(ps: seq<PoolState>, i: nat, p: PoolState)
    requires i < |ps|
    ensures Gather(Pools(ps[i := p])) + PoolOf(ps[i]) == Gather(Pools(ps)) + PoolOf(p)
  {
    hide PoolOf;
    GatherUpdate(Pools(ps), i, PoolOf(p));
    assert Pools(ps)[i := PoolOf(p)] == Pools(ps[i := p]);
  }

  lemma BlockUpdate(ss: seq<ShardState>, i: nat, sh: ShardState)
    requires i < |ss|
    ensures Gather(Blocks(ss[i := sh])) + multiset(ss[i].block) == Gather(Blocks(ss)) + multiset(sh.block)
  {
    GatherUpdate(Blocks(ss), i, multiset(sh.block));
    assert Blocks(ss)[i := multiset(sh.block)] == Blocks(ss[i := sh]);
  }

  lemma PlacedClient(b: Workload, w: World, i: nat, c: ClientState, v: World)
    requires Placed(b, w) && i < |w.clients| && OwnPart(b, c, i) && InStep(c, Heights(w.shards))
    requires v == WithClient(w, i, c).(net := v.net, mail := v.mail, confirmed := v.confirmed)
    ensures Placed(b, v) && Sent(v.clients)
  {
    hide InStep, PoolOk, BlockOk;
    assert c.injected <= |c.txs|;
    hide OwnPart;
  }

  lemma ClientParts(b: Workload, w: World, i: nat)
    requires Placed(b, w) && i < |w.clients|
    ensures Sent(w.clients) && OwnPart(b, w.clients[i], i) && InStep(w.clients[i], Heights(w.shards))
  {
    hide OwnPart, InStep, PoolOk, BlockOk;
  }

  lemma InStepSame(c: ClientState, d: ClientState, heights: seq<nat>)
    requires InStep(c, heights) && d.beacons == c.beacons && d.heights == c.heights
    ensures InStep(d, heights)
  {
    assert forall s: nat :: HeightOf(d, s) == HeightOf(c, s);
  }

  lemma SameDeadlines(b: Workload, cs: seq<ClientState>, i: nat, c: ClientState)
    requires i < |cs| && c.deadlines == cs[i].deadlines
    ensures Deadlines(b, cs[i := c]) == Deadlines(b, cs)
  {
  }

  // ---------- the client sends ----------

  /** Transactions that leave a queue for the network. */
  lemma SendKeeps(b: Workload, w: World, i: nat, c: ClientState, sent: multiset<Tx>)
    requires WorldInv(b, w) && i < |w.clients| && OwnPart(b, c, i)
    requires QueueOf(b, w.clients[i]) == sent + QueueOf(b, c)
    requires c.replies == w.clients[i].replies && c.deadlines == w.clients[i].deadlines
    requires c.beacons == w.clients[i].beacons && c.heights == w.clients[i].heights
    ensures WorldInv(b, WithClient(w, i, c).(net := w.net + sent))
  {
    assert c.injected <= |c.txs|;
    hide QueueOf, FlowInv, Placed, OwnPart, InStep, FlowOf, Deadlines, Queues, Inboxes, Gather, Heights;
    var v := WithClient(w, i, c).(net := w.net + sent);
    ClientParts(b, w, i);
    InStepSame(w.clients[i], c, Heights(w.shards));
    PlacedClient(b, w, i, c, v);
    QueueUpdate(b, w.clients, i, c);
    Cancel(Gather(Queues(b, w.clients)), QueueOf(b, w.clients[i]), Gather(Queues(b, v.clients)), QueueOf(b, c), sent);
    InboxUpdate(w.clients, i, c);
    Same(Gather(Inboxes(w.clients)), multiset(c.replies), Gather(Inboxes(v.clients)));
    SameDeadlines(b, w.clients, i, c);
    SameFlow(b, w, v, sent);
  }

  lemma SameFlow(b: Workload, w: World, v: World, sent: multiset<Tx>)
    requires Sent(w.clients) && Sent(v.clients) && v.net == w.net + sent
    requires Gather(Queues(b, v.clients)) + sent == Gather(Queues(b, w.clients))
    requires Gather(Inboxes(v.clients)) == Gather(Inboxes(w.clients)) && v.mail == w.mail
    requires Deadlines(b, v.clients) == Deadlines(b, w.clients)
    requires v == w.(clients := v.clients, net := v.net)
    ensures FlowOf(b, v) == FlowOf(b, w)
  {
    assert FlowOf(b, v).txs == FlowOf(b, w).txs;
  }

  lemma SendPendingKeeps(b: Workload, w: World, i: nat, n: nat)
    requires WorldInv(b, w) && i < |w.clients| && w.clients[i].injected <= n <= |w.clients[i].txs|
    ensures var c := w.clients[i];
            WorldInv(b, WithClient(w, i, c.(injected := n)).(net := w.net + multiset(Firsts(c.txs[c.injected..n]))))
  {
    hide FlowInv, Placed, FlowOf;
    var c := w.clients[i];
    ClientParts(b, w, i);
    assert Firsts(c.txs[c.injected..]) == Firsts(c.txs[c.injected..n]) + Firsts(c.txs[n..]);
    SendKeeps(b, w, i, c.(injected := n), multiset(Firsts(c.txs[c.injected..n])));
  }

  lemma SendCross2Keeps(b: Workload, w: World, i: nat, n: nat)
    requires WorldInv(b, w) && i < |w.clients| && n <= |w.clients[i].cross2|
    ensures var c := w.clients[i];
            WorldInv(b, WithClient(w, i, c.(cross2 := c.cross2[n..])).(net := w.net + multiset(c.cross2[..n])))
  {
    hide FlowInv, Placed, FlowOf, Firsts;
    var c := w.clients[i];
    ClientParts(b, w, i);
    assert c.cross2 == c.cross2[..n] + c.cross2[n..];
    SendKeeps(b, w, i, c.(cross2 := c.cross2[n..]), multiset(c.cross2[..n]));
  }

  lemma {:induction false} ReturnsSplit(b: Workload, ids: seq<nat>, n: nat)
    requires n <= |ids|
    ensures Returns(b, ids) == Returns(b, ids[..n]) + Returns(b, ids[n..])
  {
    var m := |ids| - 1;
    if n <= m {
      ReturnsSplit(b, ids[..m], n);
      assert ids[..m][..n] == ids[..n] && ids[n..][..m - n] == ids[..m][n..];
    } else {
      assert ids[..n] == ids;
    }
  }

  lemma {:induction false} RollbacksAre(b: Workload, c: ClientState, n: nat)
    requires n <= |c.expired| && forall id :: id in c.expired ==> id in c.txsMap && id in b && c.txsMap[id] == b[id]
    ensures multiset(Rollbacks(c, n)) == Returns(b, c.expired[..n])
  {
    if n > 0 {
      RollbacksAre(b, c, n - 1);
      assert Rollbacks(c, n) == Rollbacks(c, n - 1) + [RollbackTx(c, c.expired[n - 1])];
      assert c.expired[..n][..n - 1] == c.expired[..n - 1];
    }
  }

  lemma SendRollbackKeeps(b: Workload, w: World, i: nat, n: nat)
    requires WorldInv(b, w) && i < |w.clients| && n <= |w.clients[i].expired|
    requires forall id :: id in w.clients[i].expired ==> id in w.clients[i].txsMap
    ensures var c := w.clients[i];
            WorldInv(b, WithClient(w, i, c.(expired := c.expired[n..])).(net := w.net + multiset(Rollbacks(c, n))))
  {
    hide FlowInv, Placed, FlowOf, Firsts, Rollbacks, QueueOf, InStep;
    var c := w.clients[i];
    ClientParts(b, w, i);
    RollbackQueue(b, c, n);
    hide Returns;
    SendKeeps(b, w, i, c.(expired := c.expired[n..]), multiset(Rollbacks(c, n)));
  }

  lemma RollbackQueue(b: Workload, c: ClientState, n: nat)
    requires c.injected <= |c.txs| && n <= |c.expired|
    requires forall id :: id in c.expired ==> id in c.txsMap && id in b && c.txsMap[id] == b[id]
    ensures QueueOf(b, c) == multiset(Rollbacks(c, n)) + QueueOf(b, c.(expired := c.expired[n..]))
  {
    hide Firsts, Returns, Rollbacks;
    RollbacksAre(b, c, n);
    ReturnsSplit(b, c.expired, n);
  }

  // ---------- messages arrive ----------

  lemma DeliverKeeps(b: Workload, w: World, tx: Tx)
    requires WorldInv(b, w) && tx in w.net && Target(tx) < |w.pools|
    ensures WorldInv(b, w.(net := w.net - multiset{tx}, pools := w.pools[Target(tx) := AddTx(w.pools[Target(tx)], tx)]))
  {
    hide FlowInv, FlowOf;
    var s := Target(tx);
    var v := w.(net := w.net - multiset{tx}, pools := w.pools[s := AddTx(w.pools[s], tx)]);
    PlacedPool(b, w, s, AddTx(w.pools[s], tx), v.net) by {
      PoolParts(b, w, s);
    }
    hide Placed;
    DeliverFlow(b, w, tx);
  }

  lemma PoolParts(b: Workload, w: World, s: nat)
    requires Placed(b, w) && s < |w.pools|
    ensures s < |w.shards| && Sent(w.clients) && PoolOk(w.pools[s], s) && BlockOk(w.shards[s], s)
  {
    hide OwnPart, InStep, PoolOk, BlockOk;
  }

  lemma PlacedPool(b: Workload, w: World, s: nat, p: PoolState, net: multiset<Tx>)
    requires Placed(b, w) && s < |w.pools| && PoolOk(p, s)
    ensures Placed(b, w.(net := net, pools := w.pools[s := p]))
  {
    hide OwnPart, InStep, PoolOk, BlockOk;
  }

  lemma DeliverFlow(b: Workload, w: World, tx: Tx)
    requires Sent(w.clients) && tx in w.net && Target(tx) < |w.pools|
    ensures FlowOf(b, w.(net := w.net - multiset{tx}, pools := w.pools[Target(tx) := AddTx(w.pools[Target(tx)], tx)]))
            == FlowOf(b, w)
  {
    hide Gather, Pools, Queues, Blocks, Inboxes, Deadlines, Heights;
    var s := Target(tx);
    var p := AddTx(w.pools[s], tx);
    var v := w.(net := w.net - multiset{tx}, pools := w.pools[s := p]);
    assert PoolOf(p) == multiset{tx} + PoolOf(w.pools[s]);
    PoolUpdate(w.pools, s, p);
    Cancel(Gather(Pools(v.pools)), PoolOf(p), Gather(Pools(w.pools)), PoolOf(w.pools[s]), multiset{tx});
    assert w.net == v.net + multiset{tx};
    assert FlowOf(b, v).txs == FlowOf(b, w).txs;
  }

  lemma DeliverReceiptKeeps(b: Workload, w: World, r: Receipt, i: nat)
    requires WorldInv(b, w) && r in w.mail && r.id in b && b[r.id].cid == i < |w.clients|
    ensures var c := w.clients[i].(replies := w.clients[i].replies + [r]);
            WorldInv(b, WithClient(w, i, c).(mail := w.mail - multiset{r}))
  {
    hide FlowInv, Placed, FlowOf, InStep;
    var c := w.clients[i].(replies := w.clients[i].replies + [r]);
    var v := WithClient(w, i, c).(mail := w.mail - multiset{r});
    ClientParts(b, w, i);
    InStepSame(w.clients[i], c, Heights(w.shards));
    PlacedClient(b, w, i, c, v);
    QueueUpdate(b, w.clients, i, c);
    Same(Gather(Queues(b, w.clients)), QueueOf(b, c), Gather(Queues(b, v.clients)));
    InboxUpdate(w.clients, i, c);
    SameDeadlines(b, w.clients, i, c);
    ReceiptFlow(b, w, v, r, i);
  }

  lemma ReceiptFlow(b: Workload, w: World, v: World, r: Receipt, i: nat)
    requires Sent(w.clients) && Sent(v.clients) && r in w.mail && i < |w.clients|
    requires v == w.(clients := v.clients, mail := w.mail - multiset{r})
    requires Gather(Queues(b, v.clients)) == Gather(Queues(b, w.clients))
    requires Gather(Inboxes(v.clients)) + multiset(w.clients[i].replies)
             == Gather(Inboxes(w.clients)) + multiset(w.clients[i].replies + [r])
    requires Deadlines(b, v.clients) == Deadlines(b, w.clients)
    ensures FlowOf(b, v) == FlowOf(b, w)
  {
    hide Gather, Pools, Queues, Blocks, Inboxes, Deadlines, Heights;
    var m := multiset(w.clients[i].replies);
    assert multiset(w.clients[i].replies + [r]) == multiset{r} + m;
    Cancel(Gather(Inboxes(v.clients)), m + multiset{r}, Gather(Inboxes(w.clients)), m, multiset{r});
    assert w.mail == v.mail + multiset{r};
    assert FlowOf(b, v).receipts == FlowOf(b, w).receipts;
  }

  // ---------- blocks ----------

  lemma PlacedShard(b: Workload, w: World, s: nat, sh: ShardState, v: World)
    requires Placed(b, w) && s < |w.shards| && BlockOk(sh, s) && sh.height == w.shards[s].height
    requires v == WithShard(w, s, sh).(mail := v.mail, executed := v.executed, credited := v.credited, returned := v.returned)
    ensures Placed(b, v) && Heights(v.shards) == Heights(w.shards)
  {
    hide OwnPart, InStep, PoolOk, BlockOk;
    assert Heights(v.shards) == Heights(w.shards);
  }

  /** The packed block holds only transactions of this shard, and no credit past its deadline. */
  lemma PackedBlockOk(p: PoolState, s: nat, sh: ShardState, size: int, txs: seq<Tx>, left: PoolState)
    requires PoolOk(p, s) && Packed(p, size, sh.height, txs, left)
    ensures BlockOk(sh.(busy := true, block := txs), s) && PoolOk(left, s)
    ensures PoolOf(left) + multiset(txs) <= PoolOf(p)
    ensures forall tx: Tx :: PoolOf(left)[tx] + multiset(txs)[tx] == PoolOf(p)[tx] ||
                             (Target(tx) == s && tx.kind.Cross2? && sh.height + 1 > tx.confirmHeight + tx.rollbackHeight)
  {
    hide Packed;
    PackedConserves(p, size, sh.height, txs, left);
    forall tx | tx in left.pending ensures Target(tx) == s && !tx.kind.Rollback? {
      PackedLeft(p, size, sh.height, txs, left, tx);
    }
    forall tx | tx in left.rollback ensures Target(tx) == s && tx.kind.Rollback? {
      PackedLeft(p, size, sh.height, txs, left, tx);
    }
  }

  lemma PackedLeft(p: PoolState, size: int, parent: nat, txs: seq<Tx>, left: PoolState, tx: Tx)
    requires Packed(p, size, parent, txs, left)
    ensures tx in left.pending ==> tx in p.pending
    ensures tx in left.rollback ==> tx in p.rollback
  {
    hide Live;
  }

  lemma PackKeeps(b: Workload, w: World, s: nat, size: int, txs: seq<Tx>, left: PoolState)
    requires WorldInv(b, w) && s < |w.shards| && s < |w.pools| && !w.shards[s].busy
    requires Packed(w.pools[s], size, w.shards[s].height, txs, left)
    ensures WorldInv(b, WithShard(w, s, w.shards[s].(busy := true, block := txs)).(pools := w.pools[s := left]))
  {
    hide FlowInv, FlowOf, Packed, Placed;
    var sh := w.shards[s].(busy := true, block := txs);
    var u := WithShard(w, s, sh);
    var v := u.(pools := w.pools[s := left]);
    PoolParts(b, w, s);
    PackedBlockOk(w.pools[s], s, w.shards[s], size, txs, left);
    PlacedShard(b, w, s, sh, u);
    PlacedPool(b, u, s, left, u.net);
    assert v == u.(net := u.net, pools := u.pools[s := left]);
    PackFlow(b, w, s, sh, left);
  }

  lemma PackFlow(b: Workload, w: World, s: nat, sh: ShardState, left: PoolState)
    requires Sent(w.clients) && FlowInv(b, FlowOf(b, w)) && s < |w.shards| && s < |w.pools|
    requires w.shards[s].block == [] && sh.height == w.shards[s].height
    requires PoolOf(left) + multiset(sh.block) <= PoolOf(w.pools[s])
    requires forall tx: Tx :: PoolOf(left)[tx] + multiset(sh.block)[tx] == PoolOf(w.pools[s])[tx] ||
               (Target(tx) == s && tx.kind.Cross2? && sh.height + 1 > tx.confirmHeight + tx.rollbackHeight)
    ensures FlowInv(b, FlowOf(b, WithShard(w, s, sh).(pools := w.pools[s := left])))
  {
    hide FlowInv, Gather, Pools, Queues, Blocks, Inboxes, Deadlines, PoolOf, HeightAt;
    var v := WithShard(w, s, sh).(pools := w.pools[s := left]);
    var f, g := FlowOf(b, w), FlowOf(b, v);
    PoolUpdate(w.pools, s, left);
    BlockUpdate(w.shards, s, sh);
    assert Heights(v.shards) == Heights(w.shards);
    hide Heights;
    var rest := w.net + Gather(Queues(b, w.clients));
    assert f.txs == rest + Gather(Pools(w.pools)) + Gather(Blocks(w.shards));
    assert g.txs == rest + Gather(Pools(v.pools)) + Gather(Blocks(v.shards));
    assert multiset(w.shards[s].block) == multiset{};
    PackCounts(f.txs, g.txs, rest,
               Gather(Pools(w.pools)), PoolOf(w.pools[s]), Gather(Pools(v.pools)), PoolOf(left),
               Gather(Blocks(w.shards)), Gather(Blocks(v.shards)), multiset(sh.block));
    HeightHere(b, w, s);
    DropCredits(b, f, g.txs);
    assert g == f.(txs := g.txs);
  }

  lemma PackCounts(f: multiset<Tx>, g: multiset<Tx>, rest: multiset<Tx>, gp: multiset<Tx>, p: multiset<Tx>,
                   hp: multiset<Tx>, q: multiset<Tx>, gb: multiset<Tx>, hb: multiset<Tx>, txs: multiset<Tx>)
    requires f == rest + gp + gb && g == rest + hp + hb && hp + p == gp + q && hb == gb + txs
    requires q + txs <= p
    ensures g <= f && forall tx: Tx :: q[tx] + txs[tx] == p[tx] ==> g[tx] == f[tx]
  {
    forall tx ensures g[tx] <= f[tx] && (q[tx] + txs[tx] == p[tx] ==> g[tx] == f[tx]) {
      assert hp[tx] + p[tx] == (hp + p)[tx] && gp[tx] + q[tx] == (gp + q)[tx];
      assert (q + txs)[tx] == q[tx] + txs[tx];
    }
  }

  lemma SealKeeps(b: Workload, w: World, s: nat)
    requires WorldInv(b, w) && s < |w.shards| && w.shards[s].block == []
    ensures WorldInv(b, WithShard(w, s, w.shards[s].(busy := false, height := w.shards[s].height + 1)))
  {
    hide FlowInv, FlowOf;
    var sh := w.shards[s].(busy := false, height := w.shards[s].height + 1);
    SealPlaced(b, w, s);
    hide Placed;
    SealFlow(b, w, s);
  }

  lemma SealPlaced(b: Workload, w: World, s: nat)
    requires Placed(b, w) && s < |w.shards| && w.shards[s].block == []
    ensures Placed(b, WithShard(w, s, w.shards[s].(busy := false, height := w.shards[s].height + 1)))
    ensures Sent(w.clients)
  {
    hide OwnPart, InStep, PoolOk;
    var v := WithShard(w, s, w.shards[s].(busy := false, height := w.shards[s].height + 1));
    forall i | 0 <= i < |w.clients| ensures InStep(v.clients[i], Heights(v.shards)) {
      InStepGrows(w.clients[i], Heights(w.shards), Heights(v.shards));
    }
  }

  lemma InStepGrows(c: ClientState, hs: seq<nat>, gs: seq<nat>)
    requires InStep(c, hs) && |gs| == |hs| && forall s :: 0 <= s < |hs| ==> hs[s] <= gs[s]
    ensures InStep(c, gs)
  {
    forall s: nat ensures HeightOf(c, s) <= if s < |gs| then gs[s] else 0 {
      assert HeightOf(c, s) <= if s < |hs| then hs[s] else 0;
    }
  }

  lemma SealFlow(b: Workload, w: World, s: nat)
    requires Sent(w.clients) && FlowInv(b, FlowOf(b, w)) && s < |w.shards| && w.shards[s].block == []
    ensures FlowInv(b, FlowOf(b, WithShard(w, s, w.shards[s].(busy := false, height := w.shards[s].height + 1))))
  {
    hide FlowInv, Gather, Pools, Queues, Inboxes, Deadlines;
    var v := WithShard(w, s, w.shards[s].(busy := false, height := w.shards[s].height + 1));
    assert Blocks(v.shards) == Blocks(w.shards);
    Grow(b, FlowOf(b, w), Heights(v.shards));
    assert FlowOf(b, v) == FlowOf(b, w).(heights := Heights(v.shards));
  }

  /** The flow's view of executing one transaction of the block. */
  function Executed(f: Flow, tx: Tx, h: nat): (g: Flow) {
    match tx.kind
    case Cross2 => AfterCredit(f, tx, h)
    case Rollback => AfterReturn(f, tx, h)
    case _ => AfterFirst(f, tx, h)
  }

  lemma ExecKeeps(b: Workload, w: World, s: nat)
    requires WorldInv(b, w) && s < |w.shards| && w.shards[s].block != []
    ensures Sent(w.clients) && w.shards[s].block[0] in FlowOf(b, w).txs
    ensures WorldInv(b, AfterExec(w, s))
    ensures FlowOf(b, AfterExec(w, s)) == Executed(FlowOf(b, w), w.shards[s].block[0], w.shards[s].height + 1)
  {
    hide FlowInv, FlowOf, Placed, Execute;
    var sh := w.shards[s];
    var tx, h := sh.block[0], sh.height + 1;
    ShardParts(b, w, s);
    PlacedShard(b, w, s, sh.(accounts := Execute(sh.accounts, tx), block := sh.block[1..]), AfterExec(w, s));
    ExecFlow(b, w, s);
    var f := FlowOf(b, w);
    HeightHere(b, w, s);
    match tx.kind {
      case Cross2 => SecondLeg(b, f, tx, h);
      case Rollback => GiveBack(b, f, tx, h);
      case _ => FirstLeg(b, f, tx, h);
    }
  }

  lemma ShardParts(b: Workload, w: World, s: nat)
    requires Placed(b, w) && s < |w.shards| && w.shards[s].block != []
    ensures var sh := w.shards[s];
            Sent(w.clients) && BlockOk(sh, s) && Target(sh.block[0]) == s &&
            (sh.block[0].kind.Cross2? ==> sh.height + 1 <= sh.block[0].confirmHeight + sh.block[0].rollbackHeight) &&
            forall a: Accounts :: BlockOk(sh.(accounts := a, block := sh.block[1..]), s)
  {
    hide OwnPart, InStep, PoolOk;
    assert BlockOk(w.shards[s], s);
  }

  lemma HeightHere(b: Workload, w: World, s: nat)
    requires Sent(w.clients) && s < |w.shards|
    ensures HeightAt(FlowOf(b, w), s) == w.shards[s].height
  {
    hide Gather, Pools, Queues, Blocks, Inboxes, Deadlines;
  }

  lemma ExecFlow(b: Workload, w: World, s: nat)
    requires Sent(w.clients) && s < |w.shards| && w.shards[s].block != [] && Target(w.shards[s].block[0]) == s
    ensures w.shards[s].block[0] in FlowOf(b, w).txs
    ensures FlowOf(b, AfterExec(w, s)) == Executed(FlowOf(b, w), w.shards[s].block[0], w.shards[s].height + 1)
  {
    hide Gather, Pools, Queues, Blocks, Inboxes, Deadlines, Execute;
    var sh := w.shards[s];
    var tx := sh.block[0];
    var v := AfterExec(w, s);
    ExecParts(w, s);
    hide AfterExec, Executed;
    var next := v.shards[s];
    assert Heights(v.shards) == Heights(w.shards);
    hide Heights;
    BlockUpdate(w.shards, s, next);
    assert sh.block == [tx] + next.block;
    assert multiset(sh.block) == multiset{tx} + multiset(next.block);
    Cancel(Gather(Blocks(w.shards)), multiset(sh.block), Gather(Blocks(v.shards)), multiset(next.block), multiset{tx});
    TakeOut(w.net + Gather(Pools(w.pools)), Gather(Blocks(w.shards)), Gather(Blocks(v.shards)),
            Gather(Queues(b, w.clients)), tx);
    PutIn(w.mail, Gather(Inboxes(w.clients)), Receipt(tx.id, StatusOf(tx.kind), s, sh.height + 1));
    ExecHistory(FlowOf(b, w), FlowOf(b, v), w, s);
  }

  lemma TakeOut(front: multiset<Tx>, g: multiset<Tx>, h: multiset<Tx>, back: multiset<Tx>, tx: Tx)
    requires h + multiset{tx} == g
    ensures tx in front + g + back && front + h + back == (front + g + back) - multiset{tx}
  {
  }

  lemma PutIn(mail: multiset<Receipt>, inboxes: multiset<Receipt>, r: Receipt)
    ensures mail + multiset{r} + inboxes == mail + inboxes + multiset{r}
  {
  }

  lemma ExecHistory(f: Flow, g: Flow, w: World, s: nat)
    requires s < |w.shards| && w.shards[s].block != [] && Target(w.shards[s].block[0]) == s
    requires f == Flow(f.txs, f.receipts, f.deadlines, f.heights, w.executed, w.confirmed, w.credited, w.returned)
    requires var v := AfterExec(w, s);
             g == Flow(g.txs, g.receipts, f.deadlines, f.heights, v.executed, v.confirmed, v.credited, v.returned)
    requires var tx := w.shards[s].block[0];
             g.txs == f.txs - multiset{tx} &&
             g.receipts == f.receipts + multiset{Receipt(tx.id, StatusOf(tx.kind), s, w.shards[s].height + 1)}
    ensures g == Executed(f, w.shards[s].block[0], w.shards[s].height + 1)
  {
    hide Execute;
    match w.shards[s].block[0].kind
    case Intra =>
    case Cross1 =>
    case Cross2 =>
    case Rollback =>
  }

  /** What executing a transaction changes outside the history. */
  lemma ExecParts(w: World, s: nat)
    requires s < |w.shards| && w.shards[s].block != []
    ensures var sh, v := w.shards[s], AfterExec(w, s);
            var tx := sh.block[0];
            v.net == w.net && v.pools == w.pools && v.clients == w.clients &&
            v.shards == w.shards[s := sh.(accounts := Execute(sh.accounts, tx), block := sh.block[1..])] &&
            v.mail == w.mail + multiset{Receipt(tx.id, StatusOf(tx.kind), s, sh.height + 1)}
  {
    hide Execute;
  }
}
