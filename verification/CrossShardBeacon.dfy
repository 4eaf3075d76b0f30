/**
  The step in which a client handles a beacon block keeps the invariant: the
  receipts it can process never fail, and what it then finds expired was never
  credited.
 */
module CrossShardBeacon {
  import opened Multisets
  import opened Ledger
  import opened Client
  import opened Flow
  import opened CrossShard
  import opened CrossShardInv

  // ---------- learning beacons ----------

  lemma LearnOwn(b: Workload, c: ClientState, i: nat, block: seq<seq<nat>>)
    requires OwnPart(b, c, i)
    ensures OwnPart(b, LearnAll(c, block), i)
  {
    hide LearnAll;
    LearnKeeps(c, block);
  }

  /** A client that only changes what it knows about beacons. */
  lemma KnowledgeKeeps(b: Workload, w: World, i: nat, c: ClientState)
    requires WorldInv(b, w) && i < |w.clients| && OwnPart(b, c, i) && InStep(c, Heights(w.shards))
    requires c == w.clients[i].(beacons := c.beacons, heights := c.heights)
    ensures WorldInv(b, WithClient(w, i, c))
  {
    hide FlowInv, Placed, FlowOf, InStep, OwnPart;
    ClientParts(b, w, i);
    PlacedClient(b, w, i, c, WithClient(w, i, c));
    SameQueue(b, w.clients[i], c);
    ClientFlow(b, w, i, c, multiset{}, multiset{});
    SameDeadlines(b, w.clients, i, c);
    NoChange(b, w, WithClient(w, i, c));
  }

  lemma SameQueue(b: Workload, c: ClientState, d: ClientState)
    requires c.injected <= |c.txs| && d.injected == c.injected && d.txs == c.txs && d.cross2 == c.cross2 &&
             d.expired == c.expired
    ensures QueueOf(b, d) == QueueOf(b, c) + multiset{}
  {
  }

  lemma NoChange(b: Workload, w: World, v: World)
    requires Sent(w.clients) && Sent(v.clients) && v == w.(clients := v.clients)
    requires FlowOf(b, v).txs == FlowOf(b, w).txs + multiset{} &&
             FlowOf(b, v).receipts + multiset{} == FlowOf(b, w).receipts
    requires Deadlines(b, v.clients) == Deadlines(b, w.clients)
    ensures FlowOf(b, v) == FlowOf(b, w)
  {
    hide Gather, Pools, Queues, Blocks, Inboxes, Deadlines, Heights;
  }

  /** What the flow sees of a client that puts transactions into its queues and takes receipts from its list. */
  lemma ClientFlow(b: Workload, w: World, i: nat, d: ClientState, more: multiset<Tx>, gone: multiset<Receipt>)
    requires Sent(w.clients) && i < |w.clients| && d.injected <= |d.txs|
    requires QueueOf(b, d) == QueueOf(b, w.clients[i]) + more
    requires multiset(w.clients[i].replies) == multiset(d.replies) + gone
    ensures Sent(WithClient(w, i, d).clients)
    ensures FlowOf(b, WithClient(w, i, d)).txs == FlowOf(b, w).txs + more
    ensures FlowOf(b, WithClient(w, i, d)).receipts + gone == FlowOf(b, w).receipts
  {
    hide Gather, Pools, Queues, Blocks, Inboxes, Deadlines, Heights, QueueOf;
    var c, v := w.clients[i], WithClient(w, i, d);
    QueueUpdate(b, w.clients, i, d);
    InboxUpdate(w.clients, i, d);
    Plus(Gather(Queues(b, w.clients)), QueueOf(b, c), Gather(Queues(b, v.clients)), more);
    Minus(Gather(Inboxes(w.clients)), multiset(d.replies), Gather(Inboxes(v.clients)), gone);
    var front := w.net + Gather(Pools(w.pools)) + Gather(Blocks(w.shards));
    assert front + (Gather(Queues(b, w.clients)) + more) == front + Gather(Queues(b, w.clients)) + more;
    assert w.mail + (Gather(Inboxes(v.clients)) + gone) == w.mail + Gather(Inboxes(v.clients)) + gone;
  }

  // ---------- one receipt ----------

  function RecordedHeight(c: ClientState, r: Receipt): (h: nat)
    requires r.id in c.txsMap
  {
    HeightOf(c, c.txsMap[r.id].recipientShard)
  }

  /** A receipt taken from the list, the rest in `rest`. */
  ghost predicate Removed(c: ClientState, r: Receipt, rest: seq<Receipt>) {
    multiset(c.replies) == multiset(rest) + multiset{r}
  }

  lemma RemovedMembers(c: ClientState, r: Receipt, rest: seq<Receipt>)
    requires Removed(c, r, rest)
    ensures r in c.replies && forall x :: x in rest ==> x in c.replies
  {
    assert r in multiset(c.replies);
    forall x | x in rest ensures x in c.replies {
      assert x in multiset(rest) && x in multiset(c.replies);
    }
  }

  lemma ReplyInFlow(b: Workload, w: World, i: nat, r: Receipt)
    requires Sent(w.clients) && i < |w.clients| && r in w.clients[i].replies
    ensures r in FlowOf(b, w).receipts
  {
    hide Gather, Pools, Queues, Blocks, Deadlines, Heights;
    GatherMember(Inboxes(w.clients), i);
    assert r in Inboxes(w.clients)[i];
  }

  lemma HandleIgnored(b: Workload, w: World, i: nat, r: Receipt, rest: seq<Receipt>)
    requires WorldInv(b, w) && i < |w.clients| && Removed(w.clients[i], r, rest)
    requires r.status.IntraSuccess? || r.status.RollbackSuccess?
    ensures WorldInv(b, WithClient(w, i, w.clients[i].(replies := rest)))
  {
    hide FlowInv, Placed, FlowOf, InStep;
    var c := w.clients[i];
    var d := c.(replies := rest);
    var v := WithClient(w, i, d);
    ClientParts(b, w, i);
    RemovedMembers(c, r, rest);
    InStepSame(c, d, Heights(w.shards));
    PlacedClient(b, w, i, d, v);
    hide OwnPart;
    SameQueue(b, c, d);
    ClientFlow(b, w, i, d, multiset{}, multiset{r});
    SameDeadlines(b, w.clients, i, d);
    ReplyInFlow(b, w, i, r);
    Ignore(b, FlowOf(b, w), r);
    Lose(b, w, v, r);
  }

  lemma Lose(b: Workload, w: World, v: World, r: Receipt)
    requires Sent(w.clients) && Sent(v.clients) && v == w.(clients := v.clients)
    requires FlowOf(b, v).txs == FlowOf(b, w).txs + multiset{}
    requires FlowOf(b, v).receipts + multiset{r} == FlowOf(b, w).receipts
    requires Deadlines(b, v.clients) == Deadlines(b, w.clients)
    ensures FlowOf(b, v) == FlowOf(b, w).(receipts := FlowOf(b, w).receipts - multiset{r})
  {
    hide Gather, Pools, Queues, Blocks, Inboxes, Deadlines, Heights;
    assert FlowOf(b, v).receipts == FlowOf(b, w).receipts - multiset{r};
  }

  lemma HandleDebit(b: Workload, w: World, i: nat, r: Receipt, rest: seq<Receipt>)
    requires WorldInv(b, w) && i < |w.clients| && Removed(w.clients[i], r, rest) && r.status.Cross1Success?
    ensures r.id in w.clients[i].txsMap && HandleReceipt(w.clients[i], r).Ok?
    ensures WorldInv(b, WithClient(w, i, HandleReceipt(w.clients[i], r).value.(replies := rest)).(
                        confirmed := w.confirmed[r.id := RecordedHeight(w.clients[i], r)]))
  {
    hide FlowInv, Placed, FlowOf, InStep;
    var c := w.clients[i];
    ClientParts(b, w, i);
    RemovedMembers(c, r, rest);
    assert r.id in c.txsMap;
    var h := RecordedHeight(c, r);
    var d := HandleReceipt(c, r).value.(replies := rest);
    var u := WithClient(w, i, d);
    var v := u.(confirmed := w.confirmed[r.id := h]);
    InStepSame(c, d, Heights(w.shards));
    PlacedClient(b, w, i, d, v);
    var tx := b[r.id].(kind := Cross2, confirmHeight := h);
    DebitQueue(b, c, d, tx);
    hide OwnPart;
    ClientFlow(b, w, i, d, multiset{tx}, multiset{r});
    NewDeadline(b, w.clients, i, d, r.id, h);
    ReplyInFlow(b, w, i, r);
    ConfirmDebit(b, FlowOf(b, w), r, h);
    DebitFlow(b, w, u, v, r, h);
  }

  lemma DebitQueue(b: Workload, c: ClientState, d: ClientState, tx: Tx)
    requires c.injected <= |c.txs| && d.injected == c.injected && d.txs == c.txs && d.expired == c.expired
    requires d.cross2 == c.cross2 + [tx]
    ensures QueueOf(b, d) == QueueOf(b, c) + multiset{tx}
  {
    hide Returns;
  }

  lemma NewDeadline(b: Workload, cs: seq<ClientState>, i: nat, d: ClientState, id: nat, h: nat)
    requires i < |cs| && id in b && b[id].cid == i && d.deadlines == cs[i].deadlines[id := h]
    ensures Deadlines(b, cs[i := d]) == Deadlines(b, cs)[id := h]
  {
  }

  lemma DebitFlow(b: Workload, w: World, u: World, v: World, r: Receipt, h: nat)
    requires Sent(w.clients) && Sent(u.clients) && r.id in b
    requires u == w.(clients := u.clients) && v == u.(confirmed := w.confirmed[r.id := h])
    requires FlowOf(b, u).txs == FlowOf(b, w).txs + multiset{b[r.id].(kind := Cross2, confirmHeight := h)}
    requires FlowOf(b, u).receipts + multiset{r} == FlowOf(b, w).receipts
    requires Deadlines(b, u.clients) == Deadlines(b, w.clients)[r.id := h]
    ensures FlowOf(b, v) == AfterDebitConfirmed(b, FlowOf(b, w), r, h)
  {
    hide Gather, Pools, Queues, Blocks, Inboxes, Deadlines, Heights;
    assert FlowOf(b, u).receipts == FlowOf(b, w).receipts - multiset{r};
    assert FlowOf(b, v) == FlowOf(b, u).(confirmed := v.confirmed);
  }

  lemma HandleCredit(b: Workload, w: World, i: nat, r: Receipt, rest: seq<Receipt>)
    requires WorldInv(b, w) && i < |w.clients| && Removed(w.clients[i], r, rest) && r.status.Cross2Success?
    ensures HandleReceipt(w.clients[i], r).Ok?
    ensures WorldInv(b, WithClient(w, i, HandleReceipt(w.clients[i], r).value.(replies := rest)))
  {
    hide FlowInv, Placed, FlowOf, InStep;
    var c := w.clients[i];
    ClientParts(b, w, i);
    RemovedMembers(c, r, rest);
    ReplyInFlow(b, w, i, r);
    ConfirmCredit(b, FlowOf(b, w), r);
    EntryThere(b, w, i, r.id);
    var d := HandleReceipt(c, r).value.(replies := rest);
    var v := WithClient(w, i, d);
    InStepSame(c, d, Heights(w.shards));
    PlacedClient(b, w, i, d, v);
    SameQueue(b, c, d);
    hide OwnPart;
    ClientFlow(b, w, i, d, multiset{}, multiset{r});
    NoDeadline(b, w.clients, i, d, r.id);
    CreditFlow(b, w, v, r);
  }

  /** The flow's deadline of a transfer is the entry in its client's table. */
  lemma EntryThere(b: Workload, w: World, i: nat, id: nat)
    requires Sent(w.clients) && i < |w.clients| && id in b && b[id].cid == i && id in FlowOf(b, w).deadlines
    ensures id in w.clients[i].deadlines && FlowOf(b, w).deadlines[id] == w.clients[i].deadlines[id]
  {
    hide Gather, Pools, Queues, Blocks, Inboxes, Heights;
  }

  lemma NoDeadline(b: Workload, cs: seq<ClientState>, i: nat, d: ClientState, id: nat)
    requires i < |cs| && id in b && b[id].cid == i && d.deadlines == cs[i].deadlines - {id}
    ensures Deadlines(b, cs[i := d]) == Deadlines(b, cs) - {id}
  {
  }

  lemma CreditFlow(b: Workload, w: World, v: World, r: Receipt)
    requires Sent(w.clients) && Sent(v.clients) && v == w.(clients := v.clients)
    requires FlowOf(b, v).txs == FlowOf(b, w).txs + multiset{}
    requires FlowOf(b, v).receipts + multiset{r} == FlowOf(b, w).receipts
    requires Deadlines(b, v.clients) == Deadlines(b, w.clients) - {r.id}
    ensures FlowOf(b, v) == AfterCreditConfirmed(FlowOf(b, w), r)
  {
    hide Gather, Pools, Queues, Blocks, Inboxes, Deadlines, Heights;
    assert FlowOf(b, v).receipts == FlowOf(b, w).receipts - multiset{r};
  }

  // ---------- all receipts ----------

  /** The world while receipts are processed: those kept so far and those still to come are in the list. */
  function Midway(w: World, i: nat, c: ClientState, rs: seq<Receipt>, conf: map<nat, nat>): (v: World)
    requires i < |w.clients|
  {
    WithClient(w, i, c.(replies := c.replies + rs)).(confirmed := conf)
  }

  ghost predicate NoneKnown(c: ClientState) {
    forall r :: r in c.replies ==> (r.shard, r.height) !in c.beacons
  }

  /** Processing never fails, keeps the invariant, and leaves no receipt whose beacon is known. */
  lemma {:induction false} ProcessKeeps(b: Workload, w: World, i: nat, c: ClientState, rs: seq<Receipt>,
                                        conf: map<nat, nat>)
    requires i < |w.clients| && WorldInv(b, Midway(w, i, c, rs, conf)) && NoneKnown(c)
    ensures Process(c, rs).Ok?
    ensures var d := Process(c, rs).value;
            d.beacons == c.beacons && d.heights == c.heights && NoneKnown(d) &&
            WorldInv(b, Midway(w, i, d, [], Confirmations(conf, c, rs)))
    decreases rs
  {
    hide WorldInv;
    if rs != [] {
      var r, rest := rs[0], rs[1..];
      if (r.shard, r.height) !in c.beacons {
        assert c.replies + rs == c.replies + [r] + rest;
        ProcessKeeps(b, w, i, c.(replies := c.replies + [r]), rest, conf);
      } else {
        HandleOne(b, w, i, c, rs, conf);
        var d := HandleReceipt(c, r).value;
        var conf' := if r.status.Cross1Success? then conf[r.id := RecordedHeight(c, r)] else conf;
        ProcessKeeps(b, w, i, d, rest, conf');
      }
    }
  }

  lemma HandleOne(b: Workload, w: World, i: nat, c: ClientState, rs: seq<Receipt>, conf: map<nat, nat>)
    requires i < |w.clients| && WorldInv(b, Midway(w, i, c, rs, conf)) && rs != []
    ensures HandleReceipt(c, rs[0]).Ok?
    ensures rs[0].status.Cross1Success? ==> rs[0].id in c.txsMap
    ensures var d := HandleReceipt(c, rs[0]).value;
            d.beacons == c.beacons && d.heights == c.heights && d.replies == c.replies &&
            WorldInv(b, Midway(w, i, d, rs[1..],
              if rs[0].status.Cross1Success? then conf[rs[0].id := RecordedHeight(c, rs[0])] else conf))
  {
    hide WorldInv;
    var u, r, rest := Midway(w, i, c, rs, conf), rs[0], c.replies + rs[1..];
    var full := c.(replies := c.replies + rs);
    assert u.clients[i] == full;
    assert rs == [r] + rs[1..];
    assert Removed(full, r, rest);
    assert RecordedSame(c, r, full);
    match r.status {
      case Cross1Success =>
        HandleDebit(b, u, i, r, rest);
        MidwayAfter(w, i, c, rs, conf);
      case Cross2Success =>
        HandleCredit(b, u, i, r, rest);
        MidwayAfter(w, i, c, rs, conf);
      case _ =>
        HandleIgnored(b, u, i, r, rest);
        MidwayAfter(w, i, c, rs, conf);
    }
  }

  predicate RecordedSame(c: ClientState, r: Receipt, full: ClientState) {
    c.txsMap == full.txsMap && c.deadlines == full.deadlines &&
    (r.id in c.txsMap ==> RecordedHeight(c, r) == RecordedHeight(full, r))
  }

  /** Handling the receipt in the full list or before the others are appended is the same. */
  lemma MidwayAfter(w: World, i: nat, c: ClientState, rs: seq<Receipt>, conf: map<nat, nat>)
    requires i < |w.clients| && rs != []
    ensures var full := c.(replies := c.replies + rs);
            HandleReceipt(full, rs[0]).Ok? <==> HandleReceipt(c, rs[0]).Ok?
    ensures var full := c.(replies := c.replies + rs);
            HandleReceipt(c, rs[0]).Ok? ==>
              var d := HandleReceipt(c, rs[0]).value;
              d.beacons == c.beacons && d.heights == c.heights && d.replies == c.replies &&
              WithClient(Midway(w, i, c, rs, conf), i, HandleReceipt(full, rs[0]).value.(replies := c.replies + rs[1..]))
              == Midway(w, i, d, rs[1..], conf)
  {
    var full := c.(replies := c.replies + rs);
    HandleIgnoresReplies(c, rs[0], c.replies + rs);
    assert w.clients[i := full][i := full] == w.clients[i := full];
  }

  // ---------- deadlines ----------

  /** What makes it right to give a transfer back. */
  ghost predicate Overdue(b: Workload, f: Flow, id: nat) {
    id in b && id in f.deadlines && id !in f.credited &&
    (id in f.confirmed ==> HeightAt(f, b[id].recipientShard) > Limit(b, f, id))
  }

  /** After processing, whatever the client finds past its deadline was never credited, if no receipt is late. */
  lemma PastIsOverdue(b: Workload, w: World, i: nat, id: nat)
    requires WorldInv(b, w) && i < |w.clients| && NoneKnown(w.clients[i]) && PastDeadline(w.clients[i], id)
    requires NoneLate(b, w.mail, i, w.clients[i])
    ensures Overdue(b, FlowOf(b, w), id)
  {
    var c, f := w.clients[i], FlowOf(b, w);
    PastConfirmed(b, w, i, id);
    CreditedPast(b, w, i, id);
    HistorySeen(b, w);
    hide WorldInv, FlowOf;
  }

  /** What is past its deadline for the client is past it on the recipient shard. */
  lemma PastConfirmed(b: Workload, w: World, i: nat, id: nat)
    requires WorldInv(b, w) && i < |w.clients| && PastDeadline(w.clients[i], id)
    ensures var f := FlowOf(b, w);
            id in b && b[id].cid == i && id in f.deadlines && id in f.confirmed && Late(b, f, id) &&
            HeightAt(f, b[id].recipientShard) >= HeightOf(w.clients[i], b[id].recipientShard) > Limit(b, f, id)
  {
    hide FlowOf, Placed, TxsOk, ReceiptsOk, Gather;
    ClientParts(b, w, i);
    var f := FlowOf(b, w);
    DeadlineSeen(b, w, i, id);
    assert Stage(b, f, id);
    HeightSeen(b, w, b[id].recipientShard);
  }

  /** A transfer past its deadline was credited exactly if the credit's receipt is still on its way. */
  lemma CreditedPast(b: Workload, w: World, i: nat, id: nat)
    requires WorldInv(b, w) && i < |w.clients| && NoneKnown(w.clients[i]) && PastDeadline(w.clients[i], id)
    ensures id in b && b[id].cid == i
    ensures id in w.credited <==> exists r :: r in w.mail && r.status.Cross2Success? && r.id == id
  {
    hide WorldInv, FlowOf, NoneKnown, PastDeadline, CreditReceipt;
    SentOf(b, w);
    PastConfirmed(b, w, i, id);
    if id in w.credited {
      var r := CreditInMail(b, w, i, id);
    }
    forall r | r in w.mail && r.status.Cross2Success? && r.id == id ensures id in w.credited {
      MailCredited(b, w, r);
    }
  }

  lemma MailCredited(b: Workload, w: World, r: Receipt)
    requires WorldInv(b, w) && r in w.mail && r.status.Cross2Success?
    ensures r.id in w.credited
  {
    MailInFlow(b, w, r);
    HistorySeen(b, w);
    hide FlowOf, Placed, TxsOk, StagesOk;
    assert ReceiptOk(b, FlowOf(b, w), r);
  }

  lemma MailInFlow(b: Workload, w: World, r: Receipt)
    requires Sent(w.clients) && r in w.mail
    ensures r in FlowOf(b, w).receipts
  {
    hide Gather, Pools, Queues, Blocks, Inboxes, Deadlines, Heights;
  }

  /** A client that knows the credit's beacon and has handled its receipts still waits for the credit's one. */
  lemma CreditInMail(b: Workload, w: World, i: nat, id: nat) returns (r: Receipt)
    requires WorldInv(b, w) && i < |w.clients| && NoneKnown(w.clients[i]) && PastDeadline(w.clients[i], id)
    requires id in w.credited
    ensures r in w.mail && r.status.Cross2Success? && r.id == id
  {
    PastConfirmed(b, w, i, id);
    hide FlowOf, Placed, TxsOk, ReceiptsOk, Gather;
    ClientParts(b, w, i);
    HistorySeen(b, w);
    r := CreditReceipt(b, FlowOf(b, w), id);
    ReceiptSource(b, w, i, r);
    assert (r.shard, r.height) in w.clients[i].beacons;
  }

  lemma HistorySeen(b: Workload, w: World)
    requires Sent(w.clients)
    ensures var f := FlowOf(b, w);
            f.executed == w.executed && f.confirmed == w.confirmed && f.credited == w.credited && f.returned == w.returned
  {
    hide Gather, Pools, Queues, Blocks, Inboxes, Deadlines, Heights;
  }

  lemma DeadlineSeen(b: Workload, w: World, i: nat, id: nat)
    requires Sent(w.clients) && i < |w.clients| && OwnPart(b, w.clients[i], i) && id in w.clients[i].deadlines
    ensures id in b && b[id].cid == i && w.clients[i].txsMap[id] == b[id]
    ensures id in FlowOf(b, w).deadlines && FlowOf(b, w).deadlines[id] == w.clients[i].deadlines[id]
  {
    hide Gather, Pools, Queues, Blocks, Inboxes, Heights;
  }

  lemma HeightSeen(b: Workload, w: World, s: nat)
    requires Sent(w.clients)
    ensures HeightAt(FlowOf(b, w), s) == if s < |w.shards| then Heights(w.shards)[s] else 0
  {
    hide Gather, Pools, Queues, Blocks, Inboxes, Deadlines;
  }

  /** A receipt for this client is in the mail or in its list. */
  lemma ReceiptSource(b: Workload, w: World, i: nat, r: Receipt)
    requires Placed(b, w) && Sent(w.clients) && r in FlowOf(b, w).receipts && r.id in b && b[r.id].cid == i
    ensures r in w.mail || (i < |w.clients| && r in w.clients[i].replies)
  {
    hide Pools, Queues, Blocks, Deadlines, Heights, Gather, InStep, PoolOk, BlockOk;
    if r !in w.mail {
      var j := GatherSource(Inboxes(w.clients), r);
      assert r in w.clients[j].replies && OwnPart(b, w.clients[j], j);
    }
  }

  /** The world after the first `k` of the expired transfers were moved. */
  function Moved(w: World, i: nat, ids: seq<nat>): (v: World)
    requires i < |w.clients|
  {
    var c := w.clients[i];
    WithClient(w, i, c.(deadlines := c.deadlines - (set id | id in ids), expired := c.expired + ids))
  }

  lemma {:induction false} ExpireKeeps(b: Workload, w: World, i: nat, ids: seq<nat>)
    requires WorldInv(b, w) && i < |w.clients|
    requires forall x, y :: 0 <= x < y < |ids| ==> ids[x] != ids[y]
    requires forall id :: id in ids ==> id in w.clients[i].deadlines && Overdue(b, FlowOf(b, w), id)
    ensures WorldInv(b, Moved(w, i, ids))
  {
    hide FlowInv, Placed, FlowOf, Overdue;
    ClientParts(b, w, i);
    if ids == [] {
      var c := w.clients[i];
      assert c.deadlines - (set id | id in ids) == c.deadlines && c.expired + ids == c.expired;
      assert w.clients[i := c] == w.clients;
    } else {
      var n := |ids| - 1;
      ExpireKeeps(b, w, i, ids[..n]);
      assert ids == ids[..n] + [ids[n]];
      MoveOne(b, w, i, ids[..n], ids[n]);
    }
  }

  lemma MoveOne(b: Workload, w: World, i: nat, front: seq<nat>, id: nat)
    requires WorldInv(b, w) && i < |w.clients| && id !in front && id in w.clients[i].deadlines
    requires Overdue(b, FlowOf(b, w), id) && WorldInv(b, Moved(w, i, front))
    ensures WorldInv(b, Moved(w, i, front + [id]))
  {
    hide FlowInv, Placed, FlowOf, InStep, Overdue;
    var u, v := Moved(w, i, front), Moved(w, i, front + [id]);
    var c, d := u.clients[i], v.clients[i];
    MovedMore(w, i, front, id);
    ClientParts(b, w, i);
    ClientParts(b, u, i);
    OverdueKept(b, w, u, i, id);
    hide Moved;
    InStepSame(c, d, Heights(u.shards));
    PlacedClient(b, u, i, d, v);
    OverdueKnown(b, FlowOf(b, u), id);
    DeadlineSeen(b, u, i, id);
    ExpireQueue(b, c, d, id);
    hide OwnPart;
    ClientFlow(b, u, i, d, multiset{ReturnTx(b, id)}, multiset{});
    NoDeadline(b, u.clients, i, d, id);
    ExpireFlow(b, u, v, id);
    ExpireOne(b, FlowOf(b, u), id);
  }

  lemma MovedMore(w: World, i: nat, front: seq<nat>, id: nat)
    requires i < |w.clients| && id !in front && id in w.clients[i].deadlines
    ensures var u, v := Moved(w, i, front), Moved(w, i, front + [id]);
            var c, d := u.clients[i], v.clients[i];
            u == w.(clients := u.clients) && |u.clients| == |w.clients| && v == WithClient(u, i, d) &&
            id in c.deadlines &&
            d == c.(deadlines := c.deadlines - {id}, expired := c.expired + [id])
  {
    var u, v := Moved(w, i, front), Moved(w, i, front + [id]);
    var m := w.clients[i].deadlines;
    assert (set x | x in front + [id]) == (set x | x in front) + {id};
    assert m - (set x | x in front + [id]) == m - (set x | x in front) - {id};
    assert w.clients[i].expired + (front + [id]) == w.clients[i].expired + front + [id];
  }

  lemma OverdueKnown(b: Workload, f: Flow, id: nat)
    requires Overdue(b, f, id)
    ensures id in b && id in f.deadlines && id !in f.credited
    ensures id in f.confirmed ==> HeightAt(f, b[id].recipientShard) > Limit(b, f, id)
  {
  }

  lemma OverdueKept(b: Workload, w: World, u: World, i: nat, id: nat)
    requires Sent(w.clients) && Sent(u.clients) && u == w.(clients := u.clients) && Overdue(b, FlowOf(b, w), id)
    requires i < |u.clients| && OwnPart(b, u.clients[i], i) && id in u.clients[i].deadlines
    ensures Overdue(b, FlowOf(b, u), id)
  {
    DeadlineSeen(b, u, i, id);
    HistorySeen(b, w);
    HistorySeen(b, u);
    HeightSeen(b, w, b[id].recipientShard);
    HeightSeen(b, u, b[id].recipientShard);
    hide FlowOf, OwnPart;
  }

  lemma ExpireQueue(b: Workload, c: ClientState, d: ClientState, id: nat)
    requires c.injected <= |c.txs| && d.injected == c.injected && d.txs == c.txs && d.cross2 == c.cross2
    requires d.expired == c.expired + [id] && id in b
    ensures QueueOf(b, d) == QueueOf(b, c) + multiset{ReturnTx(b, id)}
  {
    hide Firsts;
    assert d.expired[..|d.expired| - 1] == c.expired;
  }

  lemma ExpireFlow(b: Workload, u: World, v: World, id: nat)
    requires Sent(u.clients) && Sent(v.clients) && v == u.(clients := v.clients) && id in b
    requires FlowOf(b, v).txs == FlowOf(b, u).txs + multiset{ReturnTx(b, id)}
    requires FlowOf(b, v).receipts + multiset{} == FlowOf(b, u).receipts
    requires Deadlines(b, v.clients) == Deadlines(b, u.clients) - {id}
    ensures FlowOf(b, v) == AfterExpired(b, FlowOf(b, u), id)
  {
    hide Gather, Pools, Queues, Blocks, Inboxes, Deadlines, Heights;
  }

  // ---------- the whole step ----------

  /** With the invariant, receipts can always be processed: a credit's receipt finds its entry. */
  lemma ProcessingWorks(b: Workload, w: World, i: nat, block: seq<seq<nat>>)
    requires WorldInv(b, w) && i < |w.clients| && InStep(LearnAll(w.clients[i], block), Heights(w.shards))
    ensures var c := LearnAll(w.clients[i], block);
            ProcessReplies(c).Ok? &&
            var d := ProcessReplies(c).value;
            d.heights == c.heights && NoneKnown(d) &&
            WorldInv(b, WithClient(w, i, d).(confirmed := Confirmations(w.confirmed, c.(replies := []), c.replies)))
  {
    hide LearnAll, WorldInv, Process;
    var c := LearnAll(w.clients[i], block);
    assert WorldInv(b, WithClient(w, i, c)) by {
      Learned(b, w, i, block);
    }
    var start := c.(replies := []);
    assert start.(replies := start.replies + c.replies) == c by {
      assert [] + c.replies == c.replies;
    }
    ProcessKeeps(b, w, i, start, c.replies, w.confirmed);
    var d := Process(start, c.replies).value;
    assert d.(replies := d.replies + []) == d by {
      assert d.replies + [] == d.replies;
    }
  }

  lemma Learned(b: Workload, w: World, i: nat, block: seq<seq<nat>>)
    requires WorldInv(b, w) && i < |w.clients| && InStep(LearnAll(w.clients[i], block), Heights(w.shards))
    ensures WorldInv(b, WithClient(w, i, LearnAll(w.clients[i], block)))
  {
    hide LearnAll, FlowInv, FlowOf, Placed, OwnPart, InStep;
    ClientParts(b, w, i);
    LearnOwn(b, w.clients[i], i, block);
    LearnKeeps(w.clients[i], block);
    KnowledgeKeeps(b, w, i, LearnAll(w.clients[i], block));
  }

  lemma BeaconKeeps(b: Workload, w: World, i: nat, block: seq<seq<nat>>, ids: seq<nat>)
    requires WorldInv(b, w) && i < |w.clients| && InStep(LearnAll(w.clients[i], block), Heights(w.shards))
    requires ProcessReplies(LearnAll(w.clients[i], block)).Ok? ==>
               Lists(ids, PastDeadlines(ProcessReplies(LearnAll(w.clients[i], block)).value))
    requires InTime(b, w, BeaconBlock(i, block, ids))
    ensures var c := LearnAll(w.clients[i], block);
            ProcessReplies(c).Ok? &&
            WorldInv(b, WithClient(w, i, Expire(ProcessReplies(c).value, ids)).(
                          confirmed := Confirmations(w.confirmed, c.(replies := []), c.replies)))
  {
    hide LearnAll, WorldInv, ProcessReplies, Lists, Confirmations, PastDeadlines, Expire, InStep, HeightOf, NoneKnown, NoneLate;
    ProcessingWorks(b, w, i, block);
    var c := LearnAll(w.clients[i], block);
    var d := ProcessReplies(c).value;
    var u := WithClient(w, i, d).(confirmed := Confirmations(w.confirmed, c.(replies := []), c.replies));
    ExpireWorld(b, u, i, ids);
    assert w.clients[i := d][i := Expire(d, ids)] == w.clients[i := Expire(d, ids)];
  }

  /**
    The condition is exact: a beacon block makes the client give back only
    transfers that were not credited if and only if it comes in time.
   */
  lemma BeaconExact(b: Workload, w: World, i: nat, block: seq<seq<nat>>, ids: seq<nat>)
    requires WorldInv(b, w) && i < |w.clients| && InStep(LearnAll(w.clients[i], block), Heights(w.shards))
    requires ProcessReplies(LearnAll(w.clients[i], block)).Ok? ==>
               Lists(ids, PastDeadlines(ProcessReplies(LearnAll(w.clients[i], block)).value))
    ensures ProcessReplies(LearnAll(w.clients[i], block)).Ok?
    ensures InTime(b, w, BeaconBlock(i, block, ids)) <==> forall id :: id in ids ==> id !in w.credited
  {
    hide LearnAll, WorldInv, ProcessReplies, Lists, Confirmations, InStep, HeightOf, NoneKnown, PastDeadline;
    ProcessingWorks(b, w, i, block);
    var c := LearnAll(w.clients[i], block);
    var d := ProcessReplies(c).value;
    var u := WithClient(w, i, d).(confirmed := Confirmations(w.confirmed, c.(replies := []), c.replies));
    ListsDistinct(ids, PastDeadlines(d));
    forall id ensures id in ids <==> PastDeadline(d, id) {
      assert id in ids <==> id in (set x | x in ids);
      PastListed(d, id);
    }
    hide PastDeadlines;
    forall id | id in ids
      ensures id in b && b[id].cid == i
      ensures id in w.credited <==> exists r :: r in w.mail && r.status.Cross2Success? && r.id == id
    {
      CreditedPast(b, u, i, id);
    }
    hide InTime;
    assert InTime(b, w, BeaconBlock(i, block, ids)) <==> NoneLate(b, w.mail, i, d) by {
      InTimeHere(b, w, i, block, ids);
    }
  }

  /**
    The slack of `checkExpiredTXs`: a beacon block comes in time if no credit's
    receipt is outstanding from a block below the height it makes known.
   */
  lemma SlackSuffices(b: Workload, w: World, i: nat, block: seq<seq<nat>>, ids: seq<nat>)
    requires WorldInv(b, w) && i < |w.clients| && InStep(LearnAll(w.clients[i], block), Heights(w.shards))
    requires forall r :: r in w.mail && r.status.Cross2Success? && r.id in b && b[r.id].cid == i ==>
               HeightOf(LearnAll(w.clients[i], block), r.shard) <= r.height
    ensures InTime(b, w, BeaconBlock(i, block, ids))
  {
    hide LearnAll, WorldInv, ProcessReplies, Confirmations, InStep, NoneKnown, PastDeadline, HeightOf;
    ProcessingWorks(b, w, i, block);
    var c := LearnAll(w.clients[i], block);
    var d := ProcessReplies(c).value;
    var u := WithClient(w, i, d).(confirmed := Confirmations(w.confirmed, c.(replies := []), c.replies));
    forall r | r in w.mail && r.status.Cross2Success? && r.id in b && b[r.id].cid == i ensures !PastDeadline(d, r.id) {
      if PastDeadline(d, r.id) {
        LateHeight(b, u, i, r);
        SameHeight(c, d, r.shard);
        assert false;
      }
    }
    InTimeHere(b, w, i, block, ids);
  }

  lemma SameHeight(c: ClientState, d: ClientState, s: nat)
    requires c.heights == d.heights
    ensures HeightOf(c, s) == HeightOf(d, s)
  {
  }

  /** A credit is executed by its deadline, so its block is below the height that passes the deadline. */
  lemma LateHeight(b: Workload, w: World, i: nat, r: Receipt)
    requires WorldInv(b, w) && i < |w.clients| && PastDeadline(w.clients[i], r.id) && r in w.mail && r.status.Cross2Success?
    ensures HeightOf(w.clients[i], r.shard) > r.height
  {
    PastConfirmed(b, w, i, r.id);
    MailInFlow(b, w, r);
    hide FlowOf, Placed, TxsOk, StagesOk;
    assert ReceiptOk(b, FlowOf(b, w), r);
  }

  lemma InTimeHere(b: Workload, w: World, i: nat, block: seq<seq<nat>>, ids: seq<nat>)
    requires i < |w.clients| && ProcessReplies(LearnAll(w.clients[i], block)).Ok?
    ensures InTime(b, w, BeaconBlock(i, block, ids)) <==>
              NoneLate(b, w.mail, i, ProcessReplies(LearnAll(w.clients[i], block)).value)
  {
    hide LearnAll, ProcessReplies, NoneLate;
  }

  lemma PastListed(c: ClientState, id: nat)
    ensures id in PastDeadlines(c) <==> PastDeadline(c, id)
  {
  }

  lemma ExpireWorld(b: Workload, u: World, i: nat, ids: seq<nat>)
    requires WorldInv(b, u) && i < |u.clients| && NoneKnown(u.clients[i]) && Lists(ids, PastDeadlines(u.clients[i]))
    requires NoneLate(b, u.mail, i, u.clients[i])
    ensures WorldInv(b, WithClient(u, i, Expire(u.clients[i], ids)))
  {
    hide WorldInv, Lists, HeightOf, NoneKnown, FlowOf, Overdue, NoneLate;
    var c := u.clients[i];
    SentOf(b, u);
    ListsDistinct(ids, PastDeadlines(c));
    forall id | id in ids ensures id in c.deadlines && Overdue(b, FlowOf(b, u), id) {
      assert id in (set x | x in ids);
      assert id in PastDeadlines(c);
      PastIsOverdue(b, u, i, id);
    }
    ExpireKeeps(b, u, i, ids);
    assert c.deadlines - (set id | id in ids) == c.deadlines - PastDeadlines(c);
  }

  lemma SentOf(b: Workload, w: World)
    requires WorldInv(b, w)
    ensures Sent(w.clients)
  {
    hide FlowInv, OwnPart, InStep;
  }
}
