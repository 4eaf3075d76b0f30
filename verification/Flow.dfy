/**
  The life of a transfer, seen from above: which of its messages and receipts
  exist anywhere, and what has happened to it so far.

  `FlowInv` is the protocol's invariant; each lemma below is one event of the
  protocol and shows that the event keeps it.
 */
module Flow {
  import opened Ledger
  import opened Client

  /** All transfers of a run by id, as their clients hold them. */
  type Workload = map<nat, Tx>

  predicate Base(b: Workload) {
    forall id :: id in b ==> b[id].id == id && b[id] == First(b[id])
  }

  datatype Flow = Flow(
    txs: multiset<Tx>,            // every transaction in any queue, pool, block or message
    receipts: multiset<Receipt>,  // every receipt in any message or reply list
    deadlines: map<nat, nat>,     // the clients' tables of running deadlines
    heights: seq<nat>,            // the shards' heights
    executed: map<nat, nat>,      // first leg executed, in the block of this height
    confirmed: map<nat, nat>,     // debit confirmed to the client, with the recipient shard's known height
    credited: map<nat, nat>,      // second leg executed, in the block of this height
    returned: set<nat>)           // rolled back

  function CreditTx(b: Workload, f: Flow, id: nat): (tx: Tx)
    requires id in b && id in f.confirmed
  {
    b[id].(kind := Cross2, confirmHeight := f.confirmed[id])
  }

  function ReturnTx(b: Workload, id: nat): (tx: Tx)
    requires id in b
  {
    b[id].(kind := Rollback)
  }

  function DebitReceipt(b: Workload, f: Flow, id: nat): (r: Receipt)
    requires id in b && id in f.executed
  {
    Receipt(id, Cross1Success, b[id].senderShard, f.executed[id])
  }

  function CreditReceipt(b: Workload, f: Flow, id: nat): (r: Receipt)
    requires id in b && id in f.credited
  {
    Receipt(id, Cross2Success, b[id].recipientShard, f.credited[id])
  }

  // ---------- the invariant ----------

  /** Every transaction around is one of the three forms of a transfer, and there is one copy of it. */
  ghost predicate TxOk(b: Workload, f: Flow, tx: Tx) {
    f.txs[tx] <= 1 && tx.id in b &&
    match tx.kind
    case Cross2 => tx.id in f.confirmed && tx == CreditTx(b, f, tx.id)
    case Rollback => tx == ReturnTx(b, tx.id)
    case _ => tx == b[tx.id]
  }

  ghost predicate ReceiptOk(b: Workload, f: Flow, r: Receipt) {
    r.id in b &&
    match r.status
    case Cross1Success =>
      f.receipts[r] <= 1 && b[r.id].kind.Cross1? && r.id in f.executed && r == DebitReceipt(b, f, r.id)
    case Cross2Success => f.receipts[r] <= 1 && r.id in f.credited && r == CreditReceipt(b, f, r.id)
    case _ => true
  }

  /** The deadline of a confirmed transfer, in heights of the recipient shard. */
  function Limit(b: Workload, f: Flow, id: nat): (h: nat)
    requires id in b && id in f.confirmed
  {
    f.confirmed[id] + b[id].rollbackHeight
  }

  function HeightAt(f: Flow, shard: nat): (h: nat) {
    if shard < |f.heights| then f.heights[shard] else 0
  }

  /** Before the debit is confirmed: not executed, or executed with its receipt on the way. */
  ghost predicate Early(b: Workload, f: Flow, id: nat)
    requires id in b
  {
    (b[id] in f.txs <==> id !in f.executed) &&
    (id !in f.confirmed ==>
       id !in f.deadlines && id !in f.credited && id !in f.returned && ReturnTx(b, id) !in f.txs) &&
    (id in f.confirmed ==> id in f.executed && b[id].kind.Cross1?) &&
    (b[id].kind.Cross1? && id in f.executed ==>
       (DebitReceipt(b, f, id) in f.receipts <==> id !in f.confirmed))
  }

  /**
    After it: credited before the deadline, or given back after the deadline has
    passed on the recipient shard, or still open with its deadline running. While
    the recipient shard's next block is within the deadline, the credit is around.
   */
  ghost predicate Late(b: Workload, f: Flow, id: nat)
    requires id in b && id in f.confirmed
  {
    (id in f.deadlines ==> f.deadlines[id] == f.confirmed[id] && id !in f.returned && ReturnTx(b, id) !in f.txs) &&
    (id in f.credited ==>
       CreditTx(b, f, id) !in f.txs && id !in f.returned && ReturnTx(b, id) !in f.txs &&
       1 <= f.credited[id] <= Limit(b, f, id) &&
       (CreditReceipt(b, f, id) in f.receipts <==> id in f.deadlines)) &&
    (id !in f.credited && id !in f.deadlines ==>
       (ReturnTx(b, id) in f.txs <==> id !in f.returned) &&
       HeightAt(f, b[id].recipientShard) > Limit(b, f, id)) &&
    (id !in f.credited ==> CreditTx(b, f, id) in f.txs || HeightAt(f, b[id].recipientShard) + 1 > Limit(b, f, id))
  }

  ghost predicate Stage(b: Workload, f: Flow, id: nat)
    requires id in b
  {
    Early(b, f, id) && (id in f.confirmed ==> Late(b, f, id))
  }

  ghost predicate TxsOk(b: Workload, f: Flow) {
    forall tx :: tx in f.txs ==> TxOk(b, f, tx)
  }

  ghost predicate ReceiptsOk(b: Workload, f: Flow) {
    forall r :: r in f.receipts ==> ReceiptOk(b, f, r)
  }

  ghost predicate IdsOk(b: Workload, f: Flow) {
    f.deadlines.Keys <= b.Keys && f.executed.Keys <= b.Keys && f.confirmed.Keys <= b.Keys &&
    f.credited.Keys <= b.Keys && f.returned <= b.Keys
  }

  ghost predicate StagesOk(b: Workload, f: Flow) {
    forall id :: id in b ==> Stage(b, f, id)
  }

  ghost predicate FlowInv(b: Workload, f: Flow) {
    Base(b) && TxsOk(b, f) && ReceiptsOk(b, f) && IdsOk(b, f) && StagesOk(b, f)
  }

  // ---------- what an event leaves alone ----------

  predicate Extends(n: map<nat, nat>, m: map<nat, nat>) {
    forall k :: k in m ==> k in n && n[k] == m[k]
  }

  predicate SameEntry(n: map<nat, nat>, m: map<nat, nat>, k: nat) {
    (k in m <==> k in n) && (k in m ==> n[k] == m[k])
  }

  /** Nothing that concerns this transfer differs, except that heights may have grown. */
  ghost predicate SameFor(b: Workload, f: Flow, g: Flow, id: nat)
    requires id in b
  {
    SameEntry(g.deadlines, f.deadlines, id) && SameEntry(g.executed, f.executed, id) &&
    SameEntry(g.confirmed, f.confirmed, id) && SameEntry(g.credited, f.credited, id) &&
    (id in f.returned <==> id in g.returned) &&
    (forall tx: Tx :: tx.id == id ==> (tx in f.txs <==> tx in g.txs)) &&
    (forall r: Receipt :: r.id == id ==> (r in f.receipts <==> r in g.receipts)) &&
    HeightAt(f, b[id].recipientShard) <= HeightAt(g, b[id].recipientShard)
  }

  lemma StageSame(b: Workload, f: Flow, g: Flow, id: nat)
    requires Base(b) && id in b && Stage(b, f, id) && SameFor(b, f, g, id)
    ensures Stage(b, g, id)
  {
  }

  /** Fewer transactions, more history. */
  lemma TxsFewer(b: Workload, f: Flow, g: Flow)
    requires TxsOk(b, f) && g.txs <= f.txs && Extends(g.confirmed, f.confirmed)
    ensures TxsOk(b, g)
  {
    forall tx | tx in g.txs ensures TxOk(b, g, tx) {
      assert tx in f.txs && TxOk(b, f, tx);
    }
  }

  lemma TxsOneMore(b: Workload, f: Flow, g: Flow, tx: Tx)
    requires TxsOk(b, f) && g.txs == f.txs + multiset{tx} && Extends(g.confirmed, f.confirmed)
    requires TxOk(b, g, tx)
    ensures TxsOk(b, g)
  {
    forall x | x in g.txs ensures TxOk(b, g, x) {
      if x != tx {
        assert x in f.txs && TxOk(b, f, x);
      }
    }
  }

  lemma ReceiptsFewer(b: Workload, f: Flow, g: Flow)
    requires ReceiptsOk(b, f) && g.receipts <= f.receipts
    requires Extends(g.executed, f.executed) && Extends(g.credited, f.credited)
    ensures ReceiptsOk(b, g)
  {
    forall r | r in g.receipts ensures ReceiptOk(b, g, r) {
      assert r in f.receipts && ReceiptOk(b, f, r);
    }
  }

  lemma ReceiptsOneMore(b: Workload, f: Flow, g: Flow, r: Receipt)
    requires ReceiptsOk(b, f) && g.receipts == f.receipts + multiset{r}
    requires Extends(g.executed, f.executed) && Extends(g.credited, f.credited) && ReceiptOk(b, g, r)
    ensures ReceiptsOk(b, g)
  {
    forall x | x in g.receipts ensures ReceiptOk(b, g, x) {
      if x != r {
        assert x in f.receipts && ReceiptOk(b, f, x);
      }
    }
  }

  lemma TxFacts(b: Workload, f: Flow, tx: Tx)
    requires TxsOk(b, f) && StagesOk(b, f) && tx in f.txs
    ensures tx.id in b && TxOk(b, f, tx) && Stage(b, f, tx.id)
  {
  }

  /** An event that concerns one transfer only. */
  lemma OtherStages(b: Workload, f: Flow, g: Flow, id: nat)
    requires Base(b) && StagesOk(b, f) && id in b && Stage(b, g, id)
    requires forall other :: other in b && other != id ==> SameFor(b, f, g, other)
    ensures StagesOk(b, g)
  {
    hide Stage, SameFor;
    forall x | x in b ensures Stage(b, g, x) {
      if x != id {
        StageSame(b, f, g, x);
      }
    }
  }

  // ---------- executing a transaction ----------

  function FirstReceipt(tx: Tx, h: nat): (r: Receipt) {
    Receipt(tx.id, if tx.kind.Intra? then IntraSuccess else Cross1Success, tx.senderShard, h)
  }

  function AfterFirst(f: Flow, tx: Tx, h: nat): (g: Flow) {
    f.(txs := f.txs - multiset{tx}, receipts := f.receipts + multiset{FirstReceipt(tx, h)},
       executed := f.executed[tx.id := h])
  }

  lemma FirstLegStage(b: Workload, f: Flow, tx: Tx, h: nat)
    requires Base(b) && tx.id in b && tx in f.txs && TxOk(b, f, tx) && Stage(b, f, tx.id) &&
             (tx.kind.Intra? || tx.kind.Cross1?)
    ensures tx == b[tx.id] && tx.id !in f.executed && Stage(b, AfterFirst(f, tx, h), tx.id)
  {
  }

  lemma FirstLegReceipt(b: Workload, f: Flow, tx: Tx, h: nat)
    requires Base(b) && ReceiptsOk(b, f) && tx.id in b && TxOk(b, f, tx) && Stage(b, f, tx.id) && tx in f.txs
    requires (tx.kind.Intra? || tx.kind.Cross1?)
    ensures ReceiptsOk(b, AfterFirst(f, tx, h))
  {
    var r := FirstReceipt(tx, h);
    assert r in f.receipts ==> ReceiptOk(b, f, r);
    ReceiptsOneMore(b, f, AfterFirst(f, tx, h), r);
  }

  lemma FirstLegOther(b: Workload, f: Flow, tx: Tx, h: nat, other: nat)
    requires other in b && other != tx.id
    ensures SameFor(b, f, AfterFirst(f, tx, h), other)
  {
  }

  lemma FirstLeg(b: Workload, f: Flow, tx: Tx, h: nat)
    requires FlowInv(b, f) && tx in f.txs && (tx.kind.Intra? || tx.kind.Cross1?)
    ensures tx.id in b && tx == b[tx.id] && tx.id !in f.executed && FlowInv(b, AfterFirst(f, tx, h))
  {
    hide TxsOk, ReceiptsOk, TxOk, ReceiptOk, Stage, SameFor, StagesOk;
    var g, id := AfterFirst(f, tx, h), tx.id;
    TxFacts(b, f, tx);
    TxsFewer(b, f, g);
    FirstLegReceipt(b, f, tx, h);
    FirstLegStage(b, f, tx, h);
    forall other | other in b && other != id ensures SameFor(b, f, g, other) {
      FirstLegOther(b, f, tx, h, other);
    }
    OtherStages(b, f, g, id);
  }

  function AfterCredit(f: Flow, tx: Tx, h: nat): (g: Flow) {
    f.(txs := f.txs - multiset{tx},
       receipts := f.receipts + multiset{Receipt(tx.id, Cross2Success, tx.recipientShard, h)},
       credited := f.credited[tx.id := h])
  }

  lemma SecondLegStage(b: Workload, f: Flow, tx: Tx, h: nat)
    requires Base(b) && tx.id in b && tx in f.txs && TxOk(b, f, tx) && Stage(b, f, tx.id) && tx.kind.Cross2?
    requires 1 <= h <= tx.confirmHeight + tx.rollbackHeight && HeightAt(f, tx.recipientShard) < h
    ensures tx.id in f.executed && b[tx.id].value == tx.value && tx.id !in f.credited && tx.id !in f.returned
    ensures b[tx.id].kind.Cross1?
    ensures Stage(b, AfterCredit(f, tx, h), tx.id)
  {
  }

  lemma SecondLegReceipt(b: Workload, f: Flow, tx: Tx, h: nat)
    requires Base(b) && ReceiptsOk(b, f) && tx.id in b && TxOk(b, f, tx) && Stage(b, f, tx.id) && tx in f.txs
    requires tx.kind.Cross2?
    ensures ReceiptsOk(b, AfterCredit(f, tx, h))
  {
    var r := Receipt(tx.id, Cross2Success, tx.recipientShard, h);
    assert r in f.receipts ==> ReceiptOk(b, f, r);
    ReceiptsOneMore(b, f, AfterCredit(f, tx, h), r);
  }

  lemma SecondLegOther(b: Workload, f: Flow, tx: Tx, h: nat, other: nat)
    requires other in b && other != tx.id
    ensures SameFor(b, f, AfterCredit(f, tx, h), other)
  {
  }

  /** A credit in a block within its deadline: the transfer was not given back, nor will it be. */
  lemma SecondLeg(b: Workload, f: Flow, tx: Tx, h: nat)
    requires FlowInv(b, f) && tx in f.txs && tx.kind.Cross2?
    requires 1 <= h <= tx.confirmHeight + tx.rollbackHeight && HeightAt(f, tx.recipientShard) < h
    ensures tx.id in f.executed && tx.id in b && b[tx.id].value == tx.value && b[tx.id].kind.Cross1?
    ensures tx.id !in f.credited && tx.id !in f.returned && FlowInv(b, AfterCredit(f, tx, h))
  {
    hide TxsOk, ReceiptsOk, TxOk, ReceiptOk, Stage, SameFor, StagesOk;
    var g, id := AfterCredit(f, tx, h), tx.id;
    TxFacts(b, f, tx);
    TxsFewer(b, f, g);
    SecondLegReceipt(b, f, tx, h);
    SecondLegStage(b, f, tx, h);
    forall other | other in b && other != id ensures SameFor(b, f, g, other) {
      SecondLegOther(b, f, tx, h, other);
    }
    OtherStages(b, f, g, id);
  }

  function AfterReturn(f: Flow, tx: Tx, h: nat): (g: Flow) {
    f.(txs := f.txs - multiset{tx},
       receipts := f.receipts + multiset{Receipt(tx.id, RollbackSuccess, tx.senderShard, h)},
       returned := f.returned + {tx.id})
  }

  lemma GiveBackStage(b: Workload, f: Flow, tx: Tx, h: nat)
    requires Base(b) && tx.id in b && tx in f.txs && TxOk(b, f, tx) && Stage(b, f, tx.id) && tx.kind.Rollback?
    ensures tx.id in f.executed && b[tx.id].value == tx.value && tx.id !in f.credited && tx.id !in f.returned
    ensures b[tx.id].kind.Cross1?
    ensures Stage(b, AfterReturn(f, tx, h), tx.id)
  {
  }

  lemma GiveBackReceipt(b: Workload, f: Flow, tx: Tx, h: nat)
    requires Base(b) && ReceiptsOk(b, f) && tx.id in b && TxOk(b, f, tx) && Stage(b, f, tx.id) && tx in f.txs
    requires tx.kind.Rollback?
    ensures ReceiptsOk(b, AfterReturn(f, tx, h))
  {
    var r := Receipt(tx.id, RollbackSuccess, tx.senderShard, h);
    assert r in f.receipts ==> ReceiptOk(b, f, r);
    ReceiptsOneMore(b, f, AfterReturn(f, tx, h), r);
  }

  lemma GiveBackOther(b: Workload, f: Flow, tx: Tx, h: nat, other: nat)
    requires other in b && other != tx.id
    ensures SameFor(b, f, AfterReturn(f, tx, h), other)
  {
  }

  lemma GiveBack(b: Workload, f: Flow, tx: Tx, h: nat)
    requires FlowInv(b, f) && tx in f.txs && tx.kind.Rollback?
    ensures tx.id in f.executed && tx.id in b && b[tx.id].value == tx.value && b[tx.id].kind.Cross1?
    ensures tx.id !in f.credited && tx.id !in f.returned && FlowInv(b, AfterReturn(f, tx, h))
  {
    hide TxsOk, ReceiptsOk, TxOk, ReceiptOk, Stage, SameFor, StagesOk;
    var g, id := AfterReturn(f, tx, h), tx.id;
    TxFacts(b, f, tx);
    TxsFewer(b, f, g);
    GiveBackReceipt(b, f, tx, h);
    GiveBackStage(b, f, tx, h);
    forall other | other in b && other != id ensures SameFor(b, f, g, other) {
      GiveBackOther(b, f, tx, h, other);
    }
    OtherStages(b, f, g, id);
  }

  // ---------- packing and sealing a block ----------

  /** The next block of the recipient's shard would lie beyond the credit's deadline. */
  predicate PastLimit(f: Flow, tx: Tx) {
    tx.kind.Cross2? && HeightAt(f, tx.recipientShard) + 1 > tx.confirmHeight + tx.rollbackHeight
  }

  /** Credits past their deadline may be thrown away, nothing else. */
  lemma DropCredits(b: Workload, f: Flow, kept: multiset<Tx>)
    requires FlowInv(b, f) && kept <= f.txs
    requires forall tx: Tx :: !PastLimit(f, tx) ==> kept[tx] == f.txs[tx]
    ensures FlowInv(b, f.(txs := kept))
  {
    hide TxsOk, ReceiptsOk, Stage;
    var g := f.(txs := kept);
    TxsFewer(b, f, g);
    ReceiptsFewer(b, f, g);
    forall id | id in b ensures Stage(b, g, id) {
      DropStage(b, f, kept, id);
    }
  }

  lemma DropStage(b: Workload, f: Flow, kept: multiset<Tx>, id: nat)
    requires Base(b) && id in b && Stage(b, f, id) && kept <= f.txs
    requires forall tx: Tx :: !PastLimit(f, tx) ==> kept[tx] == f.txs[tx]
    ensures Stage(b, f.(txs := kept), id)
  {
    var g := f.(txs := kept);
    assert b[id] in g.txs <==> b[id] in f.txs;
    assert ReturnTx(b, id) in g.txs <==> ReturnTx(b, id) in f.txs;
    if id in f.confirmed {
      var tx := CreditTx(b, f, id);
      assert PastLimit(f, tx) || (tx in g.txs <==> tx in f.txs);
    }
  }

  lemma Grow(b: Workload, f: Flow, heights: seq<nat>)
    requires FlowInv(b, f) && |heights| == |f.heights|
    requires forall s :: 0 <= s < |heights| ==> f.heights[s] <= heights[s]
    ensures FlowInv(b, f.(heights := heights))
  {
    hide TxsOk, ReceiptsOk, Stage;
    var g := f.(heights := heights);
    TxsFewer(b, f, g);
    ReceiptsFewer(b, f, g);
    forall id | id in b ensures Stage(b, g, id) {
      StageSame(b, f, g, id);
    }
  }

  // ---------- the client handles a receipt ----------

  function AfterDebitConfirmed(b: Workload, f: Flow, r: Receipt, h: nat): (g: Flow)
    requires r.id in b
  {
    f.(receipts := f.receipts - multiset{r},
       txs := f.txs + multiset{b[r.id].(kind := Cross2, confirmHeight := h)},
       deadlines := f.deadlines[r.id := h],
       confirmed := f.confirmed[r.id := h])
  }

  /** The debit is confirmed for the first time; the credit and its deadline start. */
  lemma ConfirmDebit(b: Workload, f: Flow, r: Receipt, h: nat)
    requires FlowInv(b, f) && r in f.receipts && r.status.Cross1Success?
    ensures r.id in b && r.id !in f.confirmed && FlowInv(b, AfterDebitConfirmed(b, f, r, h))
  {
    hide TxsOk, ReceiptsOk, TxOk, ReceiptOk, Stage, SameFor, StagesOk;
    ReceiptFacts(b, f, r);
    var g, id := AfterDebitConfirmed(b, f, r, h), r.id;
    ConfirmDebitStage(b, f, r, h);
    ConfirmDebitTxs(b, f, r, h);
    ReceiptsFewer(b, f, g);
    forall other | other in b && other != id ensures SameFor(b, f, g, other) {
      ConfirmDebitOther(b, f, r, h, other);
    }
    OtherStages(b, f, g, id);
  }

  lemma ReceiptFacts(b: Workload, f: Flow, r: Receipt)
    requires ReceiptsOk(b, f) && StagesOk(b, f) && r in f.receipts
    ensures r.id in b && ReceiptOk(b, f, r) && Stage(b, f, r.id)
  {
  }

  lemma ConfirmDebitStage(b: Workload, f: Flow, r: Receipt, h: nat)
    requires Base(b) && r.id in b && r in f.receipts && ReceiptOk(b, f, r) && Stage(b, f, r.id) &&
             r.status.Cross1Success?
    ensures r.id !in f.confirmed && Stage(b, AfterDebitConfirmed(b, f, r, h), r.id)
  {
  }

  lemma ConfirmDebitTxs(b: Workload, f: Flow, r: Receipt, h: nat)
    requires Base(b) && TxsOk(b, f) && r.id in b && r.id !in f.confirmed
    ensures TxsOk(b, AfterDebitConfirmed(b, f, r, h))
  {
    var g := AfterDebitConfirmed(b, f, r, h);
    var tx := b[r.id].(kind := Cross2, confirmHeight := h);
    assert tx in f.txs ==> TxOk(b, f, tx);
    TxsOneMore(b, f, g, tx);
  }

  lemma ConfirmDebitOther(b: Workload, f: Flow, r: Receipt, h: nat, other: nat)
    requires Base(b) && r.id in b && other in b && other != r.id
    ensures SameFor(b, f, AfterDebitConfirmed(b, f, r, h), other)
  {
  }

  function AfterCreditConfirmed(f: Flow, r: Receipt): (g: Flow) {
    f.(receipts := f.receipts - multiset{r}, deadlines := f.deadlines - {r.id})
  }

  /** A credit's receipt always finds the running deadline. */
  lemma ConfirmCredit(b: Workload, f: Flow, r: Receipt)
    requires FlowInv(b, f) && r in f.receipts && r.status.Cross2Success?
    ensures r.id in b && r.id in f.deadlines && FlowInv(b, AfterCreditConfirmed(f, r))
  {
    ReceiptFacts(b, f, r);
    var g, id := AfterCreditConfirmed(f, r), r.id;
    ConfirmCreditStage(b, f, r);
    hide TxsOk, ReceiptsOk, TxOk, ReceiptOk, Stage, SameFor, StagesOk;
    TxsFewer(b, f, g);
    ReceiptsFewer(b, f, g);
    forall other | other in b && other != id ensures SameFor(b, f, g, other) {
      ConfirmCreditOther(b, f, r, other);
    }
    OtherStages(b, f, g, id);
  }

  lemma ConfirmCreditStage(b: Workload, f: Flow, r: Receipt)
    requires Base(b) && r.id in b && r in f.receipts && ReceiptOk(b, f, r) && Stage(b, f, r.id) &&
             r.status.Cross2Success?
    ensures r.id in f.deadlines && Stage(b, AfterCreditConfirmed(f, r), r.id)
  {
  }

  lemma ConfirmCreditOther(b: Workload, f: Flow, r: Receipt, other: nat)
    requires other in b && other != r.id
    ensures SameFor(b, f, AfterCreditConfirmed(f, r), other)
  {
  }

  lemma Ignore(b: Workload, f: Flow, r: Receipt)
    requires FlowInv(b, f) && r in f.receipts && (r.status.IntraSuccess? || r.status.RollbackSuccess?)
    ensures FlowInv(b, f.(receipts := f.receipts - multiset{r}))
  {
    hide TxsOk, ReceiptsOk, Stage;
    var g := f.(receipts := f.receipts - multiset{r});
    TxsFewer(b, f, g);
    ReceiptsFewer(b, f, g);
    forall id | id in b ensures Stage(b, g, id) {
      IgnoreStage(b, f, r, id);
    }
  }

  lemma IgnoreStage(b: Workload, f: Flow, r: Receipt, id: nat)
    requires id in b && Stage(b, f, id) && (r.status.IntraSuccess? || r.status.RollbackSuccess?)
    ensures Stage(b, f.(receipts := f.receipts - multiset{r}), id)
  {
  }

  // ---------- deadlines pass ----------

  function AfterExpired(b: Workload, f: Flow, id: nat): (g: Flow)
    requires id in b
  {
    f.(deadlines := f.deadlines - {id}, txs := f.txs + multiset{ReturnTx(b, id)})
  }

  /** A transfer that is not credited may be given back once the recipient shard is past the deadline. */
  lemma ExpireOne(b: Workload, f: Flow, id: nat)
    requires FlowInv(b, f) && id in b && id in f.deadlines && id !in f.credited
    requires id in f.confirmed ==> HeightAt(f, b[id].recipientShard) > Limit(b, f, id)
    ensures FlowInv(b, AfterExpired(b, f, id))
  {
    assert Stage(b, f, id);
    var g := AfterExpired(b, f, id);
    ExpireStage(b, f, id);
    hide TxOk, ReceiptsOk, ReceiptOk, Stage, SameFor, StagesOk;
    TxsOneMore(b, f, g, ReturnTx(b, id)) by {
      ExpireTx(b, f, id);
    }
    ReceiptsFewer(b, f, g);
    forall other | other in b && other != id ensures SameFor(b, f, g, other) {
      ExpireOther(b, f, id, other);
    }
    OtherStages(b, f, g, id);
  }

  lemma ExpireTx(b: Workload, f: Flow, id: nat)
    requires Base(b) && id in b && Stage(b, f, id) && id in f.deadlines
    ensures TxOk(b, AfterExpired(b, f, id), ReturnTx(b, id))
  {
  }

  lemma ExpireStage(b: Workload, f: Flow, id: nat)
    requires Base(b) && id in b && Stage(b, f, id) && id in f.deadlines && id !in f.credited
    requires id in f.confirmed ==> HeightAt(f, b[id].recipientShard) > Limit(b, f, id)
    ensures Stage(b, AfterExpired(b, f, id), id)
  {
  }

  lemma ExpireOther(b: Workload, f: Flow, id: nat, other: nat)
    requires Base(b) && id in b && other in b && other != id
    ensures SameFor(b, f, AfterExpired(b, f, id), other)
  {
  }
}
