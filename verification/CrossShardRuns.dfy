/**
  What holds in every state of every run: atomicity of cross-shard transfers,
  and conservation of money.
 */
module CrossShardRuns {
  import opened Ledger
  import opened TxPool
  import opened Client
  import opened Flow
  import opened CrossShard
  import opened CrossShardInv
  import opened CrossShardBeacon

  // ---------- runs ----------

  /** A client with its part of the workload, nothing sent and nothing heard. */
  ghost predicate FreshClient(b: Workload, c: ClientState, i: nat) {
    OwnPart(b, c, i) && c.injected == 0 && c.replies == [] && c.deadlines == map[] && c.cross2 == [] &&
    c.expired == [] && c.heights == map[] &&
    (forall x :: 0 <= x < |c.txs| ==> c.txs[x].id in c.txsMap && First(c.txs[x]) == b[c.txs[x].id]) &&
    (forall x, y :: 0 <= x < y < |c.txs| ==> c.txs[x].id != c.txs[y].id) &&
    (forall id :: id in c.txsMap ==> exists x :: 0 <= x < |c.txs| && c.txs[x].id == id)
  }

  ghost predicate Init(b: Workload, w: World) {
    Base(b) && |w.pools| == |w.shards| &&
    (forall id :: id in b ==> b[id].cid < |w.clients| && b[id].senderShard < |w.shards| && b[id].recipientShard < |w.shards|) &&
    (forall i :: 0 <= i < |w.clients| ==> FreshClient(b, w.clients[i], i)) &&
    (forall s :: 0 <= s < |w.pools| ==> w.pools[s] == PoolState([], [])) &&
    (forall s :: 0 <= s < |w.shards| ==> !w.shards[s].busy && w.shards[s].block == []) &&
    w.net == multiset{} && w.mail == multiset{} &&
    w.executed == map[] && w.confirmed == map[] && w.credited == map[] && w.returned == {}
  }

  /** The states of a run, from its first one on. */
  ghost predicate Run(b: Workload, ws: seq<World>, es: seq<Event>) {
    |ws| == |es| + 1 && Init(b, ws[0]) &&
    forall k :: 0 <= k < |es| ==> Sent(ws[k].clients) && Step(b, ws[k], es[k], ws[k + 1])
  }

  /** A run in which no credit's receipt is late for a beacon block. */
  ghost predicate TimelyRun(b: Workload, ws: seq<World>, es: seq<Event>) {
    Run(b, ws, es) && forall k :: 0 <= k < |es| ==> InTime(b, ws[k], es[k])
  }

  lemma StepKeeps(b: Workload, w: World, e: Event, v: World)
    requires WorldInv(b, w) && Sent(w.clients) && Step(b, w, e, v) && InTime(b, w, e)
    ensures WorldInv(b, v)
  {
    hide WorldInv, Packed, InStep, NoneLate, ProcessReplies, LearnAll, Lists, PastDeadlines, Expire, Confirmations, AfterExec,
         Firsts, Rollbacks;
    match e
    case SendPending(i, max) =>
      SendPendingKeeps(b, w, i, Min(w.clients[i].injected + max, |w.clients[i].txs|));
    case SendCross2(i, max) => SendCross2Keeps(b, w, i, Min(max, |w.clients[i].cross2|));
    case SendRollback(i, max) => SendRollbackKeeps(b, w, i, Min(max, |w.clients[i].expired|));
    case Deliver(tx) => DeliverKeeps(b, w, tx);
    case Pack(s, size, txs, left) => PackKeeps(b, w, s, size, txs, left);
    case Exec(s) => ExecKeeps(b, w, s);
    case Seal(s) => SealKeeps(b, w, s);
    case DeliverReceipt(r) => DeliverReceiptKeeps(b, w, r, b[r.id].cid);
    case BeaconBlock(i, block, ids) => BeaconKeeps(b, w, i, block, ids);
  }

  // ---------- the first state ----------

  lemma {:induction false} GatherNone<T>(ms: seq<multiset<T>>, x: T)
    requires forall j :: 0 <= j < |ms| ==> x !in ms[j]
    ensures x !in Gather(ms)
  {
    if ms != [] {
      GatherNone(ms[..|ms| - 1], x);
    }
  }

  lemma {:induction false} GatherOne<T>(ms: seq<multiset<T>>, i: nat, x: T)
    requires i < |ms| && forall j :: 0 <= j < |ms| && j != i ==> x !in ms[j]
    ensures Gather(ms)[x] == ms[i][x]
  {
    var n := |ms| - 1;
    if i == n {
      GatherNone(ms[..n], x);
    } else {
      GatherOne(ms[..n], i, x);
    }
  }

  lemma {:induction false} DistinctOnce(txs: seq<Tx>, x: Tx)
    requires forall i, j :: 0 <= i < j < |txs| ==> txs[i].id != txs[j].id
    ensures multiset(txs)[x] <= 1
  {
    if txs != [] {
      var n := |txs| - 1;
      DistinctOnce(txs[..n], x);
      assert txs == txs[..n] + [txs[n]];
      assert forall i :: 0 <= i < n ==> txs[..n][i].id != txs[n].id;
      assert txs[n] !in txs[..n];
    }
  }

  /** A fresh client's queue holds exactly its part of the workload, each transfer once. */
  lemma FreshQueue(b: Workload, c: ClientState, i: nat, tx: Tx)
    requires FreshClient(b, c, i) && Base(b)
    ensures QueueOf(b, c)[tx] <= 1
    ensures tx in QueueOf(b, c) <==> tx.id in b && b[tx.id].cid == i && tx == b[tx.id]
  {
    var q := Firsts(c.txs);
    assert c.txs[0..] == c.txs;
    assert QueueOf(b, c) == multiset(q);
    forall x, y | 0 <= x < y < |q| ensures q[x].id != q[y].id {
      assert q[x] == First(c.txs[x]) && q[y] == First(c.txs[y]);
    }
    DistinctOnce(q, tx);
    if tx in q {
      var x :| 0 <= x < |q| && q[x] == tx;
      assert tx == First(c.txs[x]) == b[c.txs[x].id];
    }
    if tx.id in b && b[tx.id].cid == i && tx == b[tx.id] {
      assert tx.id in c.txsMap;
      var x :| 0 <= x < |c.txs| && c.txs[x].id == tx.id;
      assert q[x] == tx;
    }
  }

  /** All clients together queue the workload, each transfer once. */
  lemma InitQueues(b: Workload, cs: seq<ClientState>, tx: Tx)
    requires Base(b) && Sent(cs) && (forall id :: id in b ==> b[id].cid < |cs|)
    requires forall i :: 0 <= i < |cs| ==> FreshClient(b, cs[i], i)
    ensures Gather(Queues(b, cs))[tx] <= 1
    ensures tx in Gather(Queues(b, cs)) <==> tx.id in b && tx == b[tx.id]
  {
    hide FreshClient, QueueOf, Gather;
    var ms := Queues(b, cs);
    forall i | 0 <= i < |cs|
      ensures ms[i][tx] <= 1 && (tx in ms[i] <==> tx.id in b && b[tx.id].cid == i && tx == b[tx.id])
    {
      FreshQueue(b, cs[i], i, tx);
    }
    hide Queues, Base;
    if tx.id in b && tx == b[tx.id] {
      GatherOne(ms, tx.cid, tx);
    } else {
      GatherNone(ms, tx);
    }
  }

  lemma InitTxs(b: Workload, w: World, tx: Tx)
    requires Init(b, w) && Sent(w.clients)
    ensures FlowOf(b, w).txs[tx] <= 1
    ensures tx in FlowOf(b, w).txs <==> tx.id in b && tx == b[tx.id]
  {
    hide FreshClient, QueueOf, Gather, Base, Inboxes, Deadlines, Heights;
    InitQueues(b, w.clients, tx);
    GatherNone(Pools(w.pools), tx);
    GatherNone(Blocks(w.shards), tx);
  }

  lemma InitPlaced(b: Workload, w: World)
    requires Init(b, w)
    ensures Placed(b, w)
  {
    forall i | 0 <= i < |w.clients| ensures OwnPart(b, w.clients[i], i) && InStep(w.clients[i], Heights(w.shards)) {
      assert FreshClient(b, w.clients[i], i);
    }
  }

  lemma InitReceipts(b: Workload, w: World, r: Receipt)
    requires Init(b, w) && Sent(w.clients)
    ensures r !in FlowOf(b, w).receipts
  {
    hide Pools, Blocks, Queues, Deadlines, Heights;
    forall j | 0 <= j < |w.clients| ensures r !in Inboxes(w.clients)[j] {
      assert FreshClient(b, w.clients[j], j);
    }
    GatherNone(Inboxes(w.clients), r);
  }

  lemma InitDeadlines(b: Workload, w: World)
    requires Init(b, w) && Sent(w.clients)
    ensures FlowOf(b, w).deadlines == map[]
  {
    hide Gather, Pools, Blocks, Queues, Inboxes, Heights;
    forall i | 0 <= i < |w.clients| ensures w.clients[i].deadlines == map[] {
      assert FreshClient(b, w.clients[i], i);
    }
  }

  lemma InitInv(b: Workload, w: World)
    requires Init(b, w)
    ensures WorldInv(b, w)
  {
    InitPlaced(b, w);
    var f := FlowOf(b, w);
    HistorySeen(b, w);
    hide FlowOf, Placed, FreshClient, FlowInv;
    forall tx ensures f.txs[tx] <= 1 && (tx in f.txs <==> tx.id in b && tx == b[tx.id]) {
      InitTxs(b, w, tx);
    }
    forall r ensures r !in f.receipts {
      InitReceipts(b, w, r);
    }
    InitDeadlines(b, w);
    InitFlow(b, f);
  }

  lemma InitFlow(b: Workload, f: Flow)
    requires Base(b) && (forall tx: Tx :: f.txs[tx] <= 1 && (tx in f.txs <==> tx.id in b && tx == b[tx.id]))
    requires (forall r: Receipt :: r !in f.receipts) && f.deadlines == map[]
    requires f.executed == map[] && f.confirmed == map[] && f.credited == map[] && f.returned == {}
    ensures FlowInv(b, f)
  {
  }

  lemma {:induction false} RunInv(b: Workload, ws: seq<World>, es: seq<Event>, k: nat)
    requires TimelyRun(b, ws, es) && k < |ws|
    ensures WorldInv(b, ws[k]) && Sent(ws[k].clients)
  {
    hide WorldInv, Init, Step, InTime;
    if k == 0 {
      InitInv(b, ws[0]);
    } else {
      RunInv(b, ws, es, k - 1);
      StepKeeps(b, ws[k - 1], es[k - 1], ws[k]);
    }
    SentOf(b, ws[k]);
  }

  // ---------- atomicity ----------

  /** No transfer is both credited at the recipient and given back to the sender, in any state of any run. */
  lemma Atomic(b: Workload, ws: seq<World>, es: seq<Event>, k: nat, id: nat)
    requires TimelyRun(b, ws, es) && k < |ws|
    ensures !(id in ws[k].credited && id in ws[k].returned)
    ensures id in ws[k].credited || id in ws[k].returned ==> id in ws[k].executed
  {
    RunInv(b, ws, es, k);
    hide TimelyRun, Placed, TxsOk, ReceiptsOk, Gather, Pools, Blocks, Queues, Inboxes, Deadlines, Heights;
    var f := FlowOf(b, ws[k]);
    if id in b {
      assert Stage(b, f, id);
    }
  }

  /**
    A credit is never lost early: while the next block of the recipient's shard
    is within the deadline, a confirmed transfer is credited or its credit is in
    some queue, message, pool or block.
   */
  lemma CreditAround(b: Workload, ws: seq<World>, es: seq<Event>, k: nat, id: nat)
    requires TimelyRun(b, ws, es) && k < |ws| && id in b && id in ws[k].confirmed && id !in ws[k].credited
    ensures Sent(ws[k].clients) && b[id].recipientShard < |ws[k].shards|
    ensures ws[k].shards[b[id].recipientShard].height + 1 <= ws[k].confirmed[id] + b[id].rollbackHeight ==>
              id !in ws[k].returned &&
              b[id].(kind := Cross2, confirmHeight := ws[k].confirmed[id]) in FlowOf(b, ws[k]).txs
  {
    RunInv(b, ws, es, k);
    hide TimelyRun, WorldInv, FlowOf;
    TransferParts(b, ws[k], id);
  }

  /** What the invariant says about one transfer, with its history and its recipient's shard. */
  lemma TransferParts(b: Workload, w: World, id: nat)
    requires WorldInv(b, w) && Sent(w.clients) && id in b
    ensures b[id].recipientShard < |w.shards| && b[id].cid < |w.clients| && Stage(b, FlowOf(b, w), id)
    ensures HeightAt(FlowOf(b, w), b[id].recipientShard) == w.shards[b[id].recipientShard].height
    ensures var f := FlowOf(b, w);
            f.executed == w.executed && f.confirmed == w.confirmed && f.credited == w.credited && f.returned == w.returned &&
            f.deadlines == Deadlines(b, w.clients)
  {
    hide OwnPart, InStep, TxsOk, ReceiptsOk, PoolOk, BlockOk, Gather, Pools, Blocks, Queues, Inboxes, Deadlines, Stage;
  }

  /** No running deadline is one that the client knows to be passed. */
  ghost predicate Current(c: ClientState) {
    forall id :: id in c.deadlines && id in c.txsMap ==>
      HeightOf(c, c.txsMap[id].recipientShard) <= c.deadlines[id] + c.txsMap[id].rollbackHeight
  }

  lemma SweptCurrent(c: ClientState, d: ClientState)
    requires Swept(c, d)
    ensures Current(d)
  {
    assert forall s: nat :: HeightOf(d, s) == HeightOf(c, s);
  }

  lemma StepCurrent(b: Workload, w: World, e: Event, v: World, i: nat)
    requires Sent(w.clients) && Step(b, w, e, v) && i < |w.clients| && Current(w.clients[i])
    ensures |v.clients| == |w.clients| && Current(v.clients[i])
  {
    if e.BeaconBlock? && e.client == i {
      var n := ProcessReplies(LearnAll(w.clients[i], e.block)).value;
      hide Expire, Lists, PastDeadlines, ProcessReplies, LearnAll, InStep, Confirmations;
      ExpireSweeps(n, e.ids);
      SweptCurrent(n, Expire(n, e.ids));
    } else {
      hide InStep, ProcessReplies, LearnAll, Lists, PastDeadlines, Expire, Confirmations, Firsts, Rollbacks, Packed, AfterExec;
      OtherCurrent(b, w, e, v, i);
      assert forall s: nat :: HeightOf(v.clients[i], s) == HeightOf(w.clients[i], s);
    }
  }

  lemma OtherCurrent(b: Workload, w: World, e: Event, v: World, i: nat)
    requires Sent(w.clients) && Step(b, w, e, v) && i < |w.clients| && !(e.BeaconBlock? && e.client == i)
    ensures |v.clients| == |w.clients|
    ensures var c, d := w.clients[i], v.clients[i];
            d.deadlines == c.deadlines && d.heights == c.heights && d.txsMap == c.txsMap
  {
    hide InStep, ProcessReplies, LearnAll, Lists, PastDeadlines, Expire, Confirmations, Firsts, Rollbacks, Packed, AfterExec, Sent;
    match e
    case Exec(s) => ExecParts(w, s);
    case SendPending(j, max) => assert v.clients[i] == w.clients[i].(injected := v.clients[i].injected);
    case SendCross2(j, max) => assert v.clients[i] == w.clients[i].(cross2 := v.clients[i].cross2);
    case SendRollback(j, max) => assert v.clients[i] == w.clients[i].(expired := v.clients[i].expired);
    case DeliverReceipt(r) => assert v.clients[i] == w.clients[i].(replies := v.clients[i].replies);
    case _ =>
  }

  lemma {:induction false} RunCurrent(b: Workload, ws: seq<World>, es: seq<Event>, k: nat, i: nat)
    requires Run(b, ws, es) && k < |ws| && i < |ws[0].clients|
    ensures |ws[k].clients| == |ws[0].clients| && Current(ws[k].clients[i])
  {
    if k == 0 {
      assert FreshClient(b, ws[0].clients[i], i);
    } else {
      hide Current, Step, Init;
      RunCurrent(b, ws, es, k - 1, i);
      StepCurrent(b, ws[k - 1], es[k - 1], ws[k], i);
    }
  }

  /**
    A transfer is given back as soon as it can be: once its client knows the
    recipient's shard to be past the deadline, a confirmed transfer that was not
    credited has left the table, and was returned or its rollback is in some
    queue, message, pool or block, never both.
   */
  lemma OverdueReturned(b: Workload, ws: seq<World>, es: seq<Event>, k: nat, id: nat)
    requires TimelyRun(b, ws, es) && k < |ws| && id in b && id in ws[k].confirmed && id !in ws[k].credited
    ensures Sent(ws[k].clients) && b[id].cid < |ws[k].clients|
    ensures var c := ws[k].clients[b[id].cid];
            HeightOf(c, b[id].recipientShard) > ws[k].confirmed[id] + b[id].rollbackHeight ==>
              id !in c.deadlines && (id in ws[k].returned <==> b[id].(kind := Rollback) !in FlowOf(b, ws[k]).txs)
  {
    RunInv(b, ws, es, k);
    var w := ws[k];
    CidFixed(b, ws, es, id);
    RunCurrent(b, ws, es, k, b[id].cid);
    hide TimelyRun, WorldInv, FlowOf;
    TransferParts(b, w, id);
    ClientDeadline(b, w, id);
  }

  lemma CidFixed(b: Workload, ws: seq<World>, es: seq<Event>, id: nat)
    requires TimelyRun(b, ws, es) && id in b
    ensures b[id].cid < |ws[0].clients|
  {
    hide FreshClient, Step, InTime;
  }

  lemma ClientDeadline(b: Workload, w: World, id: nat)
    requires WorldInv(b, w) && id in b && b[id].cid < |w.clients|
    ensures var c := w.clients[b[id].cid];
            id in c.txsMap && c.txsMap[id] == b[id] && (id in c.deadlines <==> id in Deadlines(b, w.clients)) &&
            (id in c.deadlines ==> c.deadlines[id] == Deadlines(b, w.clients)[id])
  {
    hide FlowInv, FlowOf, InStep, PoolOk, BlockOk;
    assert OwnPart(b, w.clients[b[id].cid], b[id].cid);
  }

  lemma {:induction false} ConfirmationHeight(m: map<nat, nat>, c: ClientState, rs: seq<Receipt>, id: nat)
    requires id !in m && id in Confirmations(m, c, rs)
    ensures id in c.txsMap && Confirmations(m, c, rs)[id] == HeightOf(c, c.txsMap[id].recipientShard)
    decreases rs
  {
    if rs != [] {
      if (rs[0].shard, rs[0].height) !in c.beacons {
        ConfirmationHeight(m, c.(replies := c.replies + [rs[0]]), rs[1..], id);
      } else if HandleReceipt(c, rs[0]).Ok? {
        var n := HandleReceipt(c, rs[0]).value;
        if rs[0].status.Cross1Success? {
          var h := HeightOf(c, c.txsMap[rs[0].id].recipientShard);
          if id == rs[0].id {
            ConfirmationAgain(m[id := h], n, rs[1..], id);
          } else {
            ConfirmationHeight(m[rs[0].id := h], n, rs[1..], id);
          }
        } else {
          ConfirmationHeight(m, n, rs[1..], id);
        }
      }
    }
  }

  lemma {:induction false} ConfirmationAgain(m: map<nat, nat>, c: ClientState, rs: seq<Receipt>, id: nat)
    requires id in m && id in c.txsMap && m[id] == HeightOf(c, c.txsMap[id].recipientShard)
    ensures id in Confirmations(m, c, rs) && Confirmations(m, c, rs)[id] == m[id]
    decreases rs
  {
    if rs != [] {
      if (rs[0].shard, rs[0].height) !in c.beacons {
        ConfirmationAgain(m, c.(replies := c.replies + [rs[0]]), rs[1..], id);
      } else if HandleReceipt(c, rs[0]).Ok? {
        var n := HandleReceipt(c, rs[0]).value;
        if rs[0].status.Cross1Success? {
          ConfirmationAgain(m[rs[0].id := HeightOf(c, c.txsMap[rs[0].id].recipientShard)], n, rs[1..], id);
        } else {
          ConfirmationAgain(m, n, rs[1..], id);
        }
      }
    }
  }

  /** A debit is confirmed by a beacon block of its client, with the recipient shard's height that the client knows then. */
  lemma ConfirmedAt(b: Workload, ws: seq<World>, es: seq<Event>, k: nat, id: nat)
    requires TimelyRun(b, ws, es) && k < |es| && id !in ws[k].confirmed && id in ws[k + 1].confirmed
    ensures es[k].BeaconBlock? && id in b && b[id].cid == es[k].client < |ws[k + 1].clients|
    ensures ws[k + 1].confirmed[id] == HeightOf(ws[k + 1].clients[b[id].cid], b[id].recipientShard)
  {
    RunInv(b, ws, es, k);
    hide WorldInv;
    var w, e, v := ws[k], es[k], ws[k + 1];
    assert Step(b, w, e, v);
    hide TimelyRun;
    OnlyBeaconConfirms(b, w, e, v);
    var c := LearnAll(w.clients[e.client], e.block);
    hide Step, Expire, Confirmations, ProcessReplies, LearnAll, HeightOf;
    ConfirmationHeight(w.confirmed, c.(replies := []), c.replies, id);
    SameKnowledge(w.clients[e.client], e.block, v.clients[e.client], b[id].recipientShard) by {
      OwnTransfer(b, w, e.client, id, e.block);
    }
    OwnTransfer(b, w, e.client, id, e.block);
  }

  lemma OnlyBeaconConfirms(b: Workload, w: World, e: Event, v: World)
    requires Sent(w.clients) && Step(b, w, e, v) && v.confirmed != w.confirmed
    ensures e.BeaconBlock? && e.client < |w.clients| == |v.clients|
    ensures var c := LearnAll(w.clients[e.client], e.block);
            v.confirmed == Confirmations(w.confirmed, c.(replies := []), c.replies) &&
            ProcessReplies(c).Ok? && v.clients[e.client] == Expire(ProcessReplies(c).value, e.ids)
  {
    hide InStep, ProcessReplies, LearnAll, Lists, PastDeadlines, Expire, Confirmations, Firsts, Rollbacks, Packed;
  }

  lemma OwnTransfer(b: Workload, w: World, i: nat, id: nat, block: seq<seq<nat>>)
    requires WorldInv(b, w) && i < |w.clients| && id in LearnAll(w.clients[i], block).txsMap
    ensures id in b && b[id].cid == i && LearnAll(w.clients[i], block).txsMap[id] == b[id]
  {
    hide FlowInv, FlowOf, InStep, PoolOk, BlockOk, LearnAll;
    LearnKeeps(w.clients[i], block);
    assert OwnPart(b, w.clients[i], i);
  }

  /** Handling receipts and deadlines leaves the known heights alone. */
  lemma SameKnowledge(c: ClientState, block: seq<seq<nat>>, d: ClientState, s: nat)
    requires var l := LearnAll(c, block);
             ProcessReplies(l).Ok? && exists ids :: d == Expire(ProcessReplies(l).value, ids)
    ensures HeightOf(d, s) == HeightOf(LearnAll(c, block), s)
  {
    var l := LearnAll(c, block);
    ProcessMeaning(l.(replies := []), l.replies);
    hide Process, LearnAll, Unconfirmed, Credits, Confirmed;
  }

  /**
    The client's fatal branches are never taken: in every state of every run,
    whatever beacon block comes next, each receipt finds its transfer and each
    credit's receipt finds its entry among the running deadlines.
   */
  lemma NeverFails(b: Workload, ws: seq<World>, es: seq<Event>, k: nat, i: nat, block: seq<seq<nat>>)
    requires TimelyRun(b, ws, es) && k < |ws| && i < |ws[k].clients|
    requires InStep(LearnAll(ws[k].clients[i], block), Heights(ws[k].shards))
    ensures ProcessReplies(LearnAll(ws[k].clients[i], block)).Ok?
  {
    RunInv(b, ws, es, k);
    hide TimelyRun, WorldInv, InStep, LearnAll, ProcessReplies;
    ProcessingWorks(b, ws[k], i, block);
  }

  // ---------- conservation ----------

  ghost function SumOf(b: Workload, s: set<nat>): (n: int)
    requires s <= b.Keys
  {
    if s == {} then 0
    else
      var id :| id in s;
      b[id].value + SumOf(b, s - {id})
  }

  lemma {:induction false} SumRemove(b: Workload, s: set<nat>, id: nat)
    requires s <= b.Keys && id in s
    ensures SumOf(b, s) == b[id].value + SumOf(b, s - {id})
    decreases s
  {
    var j :| j in s && SumOf(b, s) == b[j].value + SumOf(b, s - {j});
    if j != id {
      SumRemove(b, s - {j}, id);
      SumRemove(b, s - {id}, j);
      assert s - {j} - {id} == s - {id} - {j};
    }
  }

  ghost function SumTotals(ss: seq<ShardState>): (n: int) {
    if ss == [] then 0 else SumTotals(ss[..|ss| - 1]) + Total(ss[|ss| - 1].accounts)
  }

  lemma {:induction false} SumTotalsUpdate(ss: seq<ShardState>, s: nat, sh: ShardState)
    requires s < |ss|
    ensures SumTotals(ss[s := sh]) == SumTotals(ss) - Total(ss[s].accounts) + Total(sh.accounts)
  {
    hide Total;
    var n := |ss| - 1;
    if s == n {
      assert ss[s := sh][..n] == ss[..n];
    } else {
      assert ss[s := sh][..n] == ss[..n][s := sh];
      SumTotalsUpdate(ss[..n], s, sh);
    }
  }

  /** Debited, and neither credited nor given back yet. */
  ghost function Open(b: Workload, w: World): (s: set<nat>)
    ensures s <= b.Keys
  {
    set id | id in b && b[id].kind.Cross1? && id in w.executed && id !in w.credited && id !in w.returned
  }

  /** All balances of all shards, and what open transfers carry. */
  ghost function Money(b: Workload, w: World): (n: int) {
    SumTotals(w.shards) + SumOf(b, Open(b, w))
  }

  lemma ExecMoney(b: Workload, w: World, s: nat)
    requires WorldInv(b, w) && s < |w.shards| && w.shards[s].block != []
    ensures Money(b, AfterExec(w, s)) == Money(b, w)
  {
    hide WorldInv, Total, SumTotals, SumOf, FlowOf;
    var sh := w.shards[s];
    var tx := sh.block[0];
    var v := AfterExec(w, s);
    ExecKeeps(b, w, s);
    ExecParts(w, s);
    ExecFacts(b, w, s);
    SumTotalsUpdate(w.shards, s, v.shards[s]);
    ExecuteTotal(sh.accounts, tx);
    ExecOpen(b, w, s);
  }

  /** The transaction is a form of its transfer whose turn it is, at the right shard. */
  ghost predicate Due(b: Workload, w: World, tx: Tx, s: nat) {
    tx.id in b && tx == b[tx.id].(kind := tx.kind, confirmHeight := tx.confirmHeight) && Target(tx) == s &&
    match tx.kind
    case Cross2 => tx.id in Open(b, w)
    case Rollback => tx.id in Open(b, w)
    case _ => b[tx.id].kind == tx.kind && tx.id !in w.executed && tx.id !in w.credited && tx.id !in w.returned
  }

  /** What the invariant says about the transaction that is executed next. */
  lemma ExecFacts(b: Workload, w: World, s: nat)
    requires WorldInv(b, w) && s < |w.shards| && w.shards[s].block != []
    ensures Due(b, w, w.shards[s].block[0], s)
  {
    var f, tx := FlowOf(b, w), w.shards[s].block[0];
    hide FlowInv, FlowOf, Placed, TxsOk, StagesOk, TxOk, Stage;
    ShardParts(b, w, s);
    ExecKeeps(b, w, s);
    FlowParts(b, w);
    HistorySeen(b, w);
    HeightHere(b, w, s);
    TxFacts(b, f, tx);
    DueFacts(b, f, tx, w.shards[s].height + 1);
  }

  lemma DueFacts(b: Workload, f: Flow, tx: Tx, h: nat)
    requires Base(b) && tx.id in b && tx in f.txs && TxOk(b, f, tx) && Stage(b, f, tx.id)
    requires tx.kind.Cross2? ==> 1 <= h <= tx.confirmHeight + tx.rollbackHeight && HeightAt(f, tx.recipientShard) < h
    ensures tx == b[tx.id].(kind := tx.kind, confirmHeight := tx.confirmHeight)
    ensures tx.id !in f.credited && tx.id !in f.returned
    ensures if tx.kind.Cross2? || tx.kind.Rollback? then tx.id in f.executed && b[tx.id].kind.Cross1?
            else tx.id !in f.executed && b[tx.id].kind == tx.kind
  {
  }

  lemma ExecOpen(b: Workload, w: World, s: nat)
    requires s < |w.shards| && w.shards[s].block != []
    requires Due(b, w, w.shards[s].block[0], s)
    ensures SumOf(b, Open(b, AfterExec(w, s))) == SumOf(b, Open(b, w)) - Change(w.shards[s].block[0])
  {
    hide SumOf, Execute;
    var tx := w.shards[s].block[0];
    var before, after := Open(b, w), Open(b, AfterExec(w, s));
    match tx.kind {
      case Intra => assert after == before;
      case Cross1 =>
        assert after - {tx.id} == before && tx.id in after;
        SumRemove(b, after, tx.id);
      case _ =>
        assert after == before - {tx.id};
        SumRemove(b, before, tx.id);
    }
  }

  lemma StepMoney(b: Workload, w: World, e: Event, v: World)
    requires WorldInv(b, w) && Sent(w.clients) && Step(b, w, e, v)
    ensures Money(b, v) == Money(b, w)
  {
    hide WorldInv, Packed, InStep, NoneLate, ProcessReplies, LearnAll, Lists, PastDeadlines, Expire, Confirmations, AfterExec,
         Firsts, Rollbacks, SumOf, SumTotals;
    match e
    case Exec(s) => ExecMoney(b, w, s);
    case Pack(s, size, txs, left) => SumTotalsUpdate(w.shards, s, v.shards[s]);
    case Seal(s) => SumTotalsUpdate(w.shards, s, v.shards[s]);
    case _ =>
  }

  /** Balances plus open transfers are the same in every state of a run. */
  lemma {:induction false} Conservation(b: Workload, ws: seq<World>, es: seq<Event>, k: nat)
    requires TimelyRun(b, ws, es) && k < |ws|
    ensures Money(b, ws[k]) == SumTotals(ws[0].shards)
  {
    hide WorldInv, Step, SumTotals, Init, InTime;
    if k == 0 {
      NothingOpen(b, ws[0]);
    } else {
      Conservation(b, ws, es, k - 1);
      RunInv(b, ws, es, k - 1);
      StepMoney(b, ws[k - 1], es[k - 1], ws[k]);
    }
  }

  lemma NothingOpen(b: Workload, w: World)
    requires Init(b, w)
    ensures Open(b, w) == {}
  {
  }

  /** Clients may stop, nothing is in a pool or block, and no message is on its way. */
  ghost predicate Quiet(w: World) {
    (forall i :: 0 <= i < |w.clients| ==> Finished(w.clients[i])) &&
    (forall s :: 0 <= s < |w.pools| ==> w.pools[s] == PoolState([], [])) &&
    (forall s :: 0 <= s < |w.shards| ==> w.shards[s].block == []) &&
    w.net == multiset{} && w.mail == multiset{}
  }

  lemma QuietTxs(b: Workload, w: World, tx: Tx)
    requires Quiet(w) && Sent(w.clients)
    ensures tx !in FlowOf(b, w).txs
  {
    hide Inboxes, Deadlines, Heights;
    forall i | 0 <= i < |w.clients| ensures tx !in Queues(b, w.clients)[i] {
      assert Firsts(w.clients[i].txs[w.clients[i].injected..]) == [];
    }
    GatherNone(Pools(w.pools), tx);
    GatherNone(Blocks(w.shards), tx);
    GatherNone(Queues(b, w.clients), tx);
  }

  lemma QuietReceipts(b: Workload, w: World, r: Receipt)
    requires Quiet(w) && Sent(w.clients)
    ensures r !in FlowOf(b, w).receipts
  {
    hide Pools, Blocks, Queues, Deadlines, Heights;
    GatherNone(Inboxes(w.clients), r);
  }

  lemma QuietDeadlines(b: Workload, w: World)
    requires Quiet(w) && Sent(w.clients)
    ensures FlowOf(b, w).deadlines == map[]
  {
    hide Gather, Pools, Blocks, Queues, Inboxes, Heights;
  }

  /** Once everything is quiet, each cross-shard transfer ended exactly one way, and no money is missing. */
  lemma QuietEnd(b: Workload, ws: seq<World>, es: seq<Event>, k: nat)
    requires TimelyRun(b, ws, es) && k < |ws| && Quiet(ws[k])
    ensures forall id :: id in b && b[id].kind.Cross1? ==> (id in ws[k].credited <==> id !in ws[k].returned)
    ensures SumTotals(ws[k].shards) == SumTotals(ws[0].shards)
  {
    Conservation(b, ws, es, k);
    hide TimelyRun, Quiet, SumTotals;
    forall id | id in b
      ensures id in ws[k].executed && (b[id].kind.Cross1? ==> (id in ws[k].credited <==> id !in ws[k].returned))
    {
      QuietEnded(b, ws, es, k, id);
    }
    assert Open(b, ws[k]) == {};
  }

  /** Once everything is quiet every transfer was executed; one within a shard is never returned. */
  lemma QuietEnded(b: Workload, ws: seq<World>, es: seq<Event>, k: nat, id: nat)
    requires TimelyRun(b, ws, es) && k < |ws| && Quiet(ws[k]) && id in b
    ensures id in ws[k].executed && (b[id].kind.Intra? || b[id].kind.Cross1?)
    ensures if b[id].kind.Cross1? then id in ws[k].credited <==> id !in ws[k].returned
            else id !in ws[k].credited && id !in ws[k].returned
  {
    RunInv(b, ws, es, k);
    HistorySeen(b, ws[k]);
    hide TimelyRun, Placed, TxsOk, ReceiptsOk, FlowOf, Quiet, SumTotals;
    var w, f := ws[k], FlowOf(b, ws[k]);
    forall tx ensures tx !in f.txs {
      QuietTxs(b, w, tx);
    }
    forall r ensures r !in f.receipts {
      QuietReceipts(b, w, r);
    }
    QuietDeadlines(b, w);
    assert Stage(b, f, id) && b[id] == First(b[id]);
  }

  lemma BlockInFlow(b: Workload, w: World, s: nat)
    requires Sent(w.clients) && s < |w.shards|
    ensures multiset(w.shards[s].block) <= FlowOf(b, w).txs
  {
    hide Gather, Pools, Queues, Inboxes, Deadlines, Heights;
    GatherMember(Blocks(w.shards), s);
  }

  lemma Twice(txs: seq<Tx>, x: nat, y: nat)
    requires x < y < |txs| && txs[x] == txs[y]
    ensures multiset(txs)[txs[x]] >= 2
  {
    var a, c := txs[..y], txs[y..];
    assert txs == a + c;
    assert a[x] == txs[x] && a[x] in multiset(a);
    assert c[0] == txs[y] && c[0] in multiset(c);
    assert multiset(txs)[txs[x]] == multiset(a)[txs[x]] + multiset(c)[txs[x]];
  }

  /**
    The transactions of a block have different ids, so the receipt table keyed
    by id gives each of them its receipt.
   */
  lemma BlockIds(b: Workload, ws: seq<World>, es: seq<Event>, k: nat, s: nat, x: nat, y: nat)
    requires TimelyRun(b, ws, es) && k < |ws| && s < |ws[k].shards| && x < y < |ws[k].shards[s].block|
    ensures ws[k].shards[s].block[x].id != ws[k].shards[s].block[y].id
  {
    RunInv(b, ws, es, k);
    hide TimelyRun, WorldInv;
    DistinctInBlock(b, ws[k], s, x, y);
  }

  lemma DistinctInBlock(b: Workload, w: World, s: nat, x: nat, y: nat)
    requires WorldInv(b, w) && s < |w.shards| && x < y < |w.shards[s].block|
    ensures w.shards[s].block[x].id != w.shards[s].block[y].id
  {
    SentOf(b, w);
    var txs, f := w.shards[s].block, FlowOf(b, w);
    hide FlowInv, OwnPart, InStep, PoolOk;
    assert BlockOk(w.shards[s], s);
    assert Target(txs[x]) == s && Target(txs[y]) == s;
    hide Placed, BlockOk;
    FlowParts(b, w);
    hide FlowOf, TxOk, Stage, TxsOk, StagesOk, WorldInv, Target;
    BlockInFlow(b, w, s);
    assert txs[x] in multiset(txs) && txs[y] in multiset(txs);
    TxFacts(b, f, txs[x]);
    TxFacts(b, f, txs[y]);
    OneCopy(b, f, txs[x]);
    if txs[x] == txs[y] {
      Twice(txs, x, y);
    } else if txs[x].id == txs[y].id {
      SameIdForms(b, f, txs[x], txs[y]);
    }
  }

  lemma FlowParts(b: Workload, w: World)
    requires WorldInv(b, w)
    ensures Sent(w.clients) && Base(b) && TxsOk(b, FlowOf(b, w)) && StagesOk(b, FlowOf(b, w))
  {
    hide FlowOf, OwnPart, InStep, TxsOk, StagesOk;
  }

  lemma OneCopy(b: Workload, f: Flow, tx: Tx)
    requires TxOk(b, f, tx)
    ensures f.txs[tx] <= 1
  {
  }

  /** Two forms of one transfer that exist at the same time have different targets. */
  lemma SameIdForms(b: Workload, f: Flow, p: Tx, q: Tx)
    requires Base(b) && p in f.txs && q in f.txs && p.id == q.id && p != q && p.id in b
    requires TxOk(b, f, p) && TxOk(b, f, q) && Stage(b, f, p.id)
    ensures Target(p) != Target(q)
  {
  }
}
