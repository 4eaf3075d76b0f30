/**
  What happens when a credit's receipt is late: a run in which a transfer is
  both credited and given back. One client sends one transfer from shard 0 to
  shard 1; its credit is executed in time, but two beacons of shard 1 arrive
  before the receipt does.
 */
module LateReceipt {
  import opened Bytes
  import opened Ledger
  import opened TxPool
  import opened Client
  import opened Flow
  import opened CrossShard
  import opened CrossShardRuns

  const TRANSFER: Tx := Tx(Cross1, 0, [1], [2], 5, 0, 1, 0, 1, 0)
  const CREDIT: Tx := TRANSFER.(kind := Cross2)
  const RETURN: Tx := TRANSFER.(kind := Rollback)
  const WORK: Workload := map[0 := TRANSFER]

  const DEBITED: Receipt := Receipt(0, Cross1Success, 0, 1)
  const CREDITED: Receipt := Receipt(0, Cross2Success, 1, 1)

  const FRESH: ClientState := ClientState([TRANSFER], 0, map[0 := TRANSFER], [], map[], [], [], {}, map[])
  const START: World :=
    World([FRESH], [PoolState([], []), PoolState([], [])],
          [ShardState(0, map[], false, []), ShardState(0, map[], false, [])],
          multiset{}, multiset{}, map[], map[], map[], {})

  ghost predicate Reachable(w: World) {
    exists ws: seq<World>, es: seq<Event> :: Run(WORK, ws, es) && ws[|es|] == w
  }

  lemma Reach(w: World, e: Event, v: World)
    requires Reachable(w) && Sent(w.clients) && Step(WORK, w, e, v)
    ensures Reachable(v)
  {
    hide Step, Init;
    var ws: seq<World>, es: seq<Event> :| Run(WORK, ws, es) && ws[|es|] == w;
    var us, fs := ws + [v], es + [e];
    forall k | 0 <= k < |fs| ensures Sent(us[k].clients) && Step(WORK, us[k], fs[k], us[k + 1]) {
      if k < |es| {
        assert us[k] == ws[k] && us[k + 1] == ws[k + 1] && fs[k] == es[k];
      }
    }
    assert us[|fs|] == v;
  }

  lemma StartReachable()
    ensures Reachable(START)
  {
    assert START.clients[0] == FRESH && FRESH.txs[0].id in FRESH.txsMap;
    assert First(FRESH.txs[0]) == WORK[0];
    var ws: seq<World>, es: seq<Event> := [START], [];
    assert Run(WORK, ws, es) && ws[|es|] == START;
  }

  // ---------- the debit ----------

  const NONE: PoolState := PoolState([], [])
  const IDLE: ShardState := ShardState(0, map[], false, [])
  const SENT: ClientState := FRESH.(injected := 1)
  const SENDER: ShardState := ShardState(1, Execute(map[], TRANSFER), false, [])

  function Sending(): (w: World) {
    START.(clients := [SENT], net := multiset{TRANSFER})
  }

  function Pooled(): (w: World) {
    START.(clients := [SENT], pools := [PoolState([TRANSFER], []), NONE])
  }

  function Packed1(): (w: World) {
    START.(clients := [SENT], shards := [IDLE.(busy := true, block := [TRANSFER]), IDLE])
  }

  function Executed1(): (w: World) {
    START.(clients := [SENT], shards := [SENDER.(height := 0, busy := true), IDLE], mail := multiset{DEBITED},
           executed := map[0 := 1])
  }

  function Sealed1(): (w: World) {
    Executed1().(shards := [SENDER, IDLE])
  }

  function Replied1(): (w: World) {
    Sealed1().(clients := [SENT.(replies := [DEBITED])], mail := multiset{})
  }

  lemma DebitRun()
    ensures Reachable(Replied1())
  {
    StartReachable();
    SendFirst();
    hide Step, Reachable;
    Reach(START, SendPending(0, 1), Sending());
    DeliverFirst();
    Reach(Sending(), Deliver(TRANSFER), Pooled());
    PackFirst();
    Reach(Pooled(), Pack(0, 1, [TRANSFER], NONE), Packed1());
    ExecFirst();
    Reach(Packed1(), Exec(0), Executed1());
    SealFirst();
    Reach(Executed1(), Seal(0), Sealed1());
    ReceiveFirst();
    Reach(Sealed1(), DeliverReceipt(DEBITED), Replied1());
  }

  lemma SendFirst()
    ensures Step(WORK, START, SendPending(0, 1), Sending())
  {
    var c := START.clients[0];
    assert Firsts(c.txs[0..1]) == [TRANSFER];
    assert START.clients[0 := SENT] == [SENT];
  }

  lemma DeliverFirst()
    ensures Step(WORK, Sending(), Deliver(TRANSFER), Pooled())
  {
    var w := Sending();
    assert AddTx(NONE, TRANSFER) == PoolState([TRANSFER], []);
    assert w.pools[0 := AddTx(w.pools[0], TRANSFER)] == [PoolState([TRANSFER], []), NONE];
    assert w.net - multiset{TRANSFER} == multiset{};
  }

  /** A pool with one live transaction is packed whole. */
  lemma PackOne(tx: Tx, parent: nat)
    requires !Expired(tx, parent) && !tx.kind.Rollback?
    ensures Packed(PoolState([tx], []), 1, parent, [tx], NONE)
  {
    var p := PoolState([tx], []);
    assert p.pending[..1] == [tx] && p.pending[..0] == [] && p.pending[1..] == [];
    assert [tx][..0] == [];
    assert Live([tx], parent) == Live([tx][..0], parent) + [tx] == [tx];
    assert PackedAt(p, 1, parent, [tx], NONE, 1);
  }

  lemma PackStep(w: World, s: nat, txs: seq<Tx>, v: World)
    requires s < |w.shards| && s < |w.pools| && !w.shards[s].busy && Packed(w.pools[s], 1, w.shards[s].height, txs, NONE)
    requires v == w.(shards := w.shards[s := w.shards[s].(busy := true, block := txs)], pools := w.pools[s := NONE])
    requires Sent(w.clients)
    ensures Step(WORK, w, Pack(s, 1, txs, NONE), v)
  {
    hide Packed;
  }

  lemma PackFirst()
    ensures Step(WORK, Pooled(), Pack(0, 1, [TRANSFER], NONE), Packed1())
  {
    hide Step, Packed;
    var w := Pooled();
    PackOne(TRANSFER, 0);
    assert w.shards[0 := IDLE.(busy := true, block := [TRANSFER])] == Packed1().shards;
    assert w.pools[0 := NONE] == [NONE, NONE];
    PackStep(w, 0, [TRANSFER], Packed1());
  }

  lemma ExecFirst()
    ensures Step(WORK, Packed1(), Exec(0), Executed1())
  {
    var w := Packed1();
    hide Execute;
    assert [TRANSFER][1..] == [];
    assert w.shards[0 := SENDER.(height := 0, busy := true)] == Executed1().shards;
    assert w.mail + multiset{DEBITED} == multiset{DEBITED};
  }

  lemma SealFirst()
    ensures Step(WORK, Executed1(), Seal(0), Sealed1())
  {
    hide Execute;
    assert Executed1().shards[0 := SENDER] == [SENDER, IDLE];
  }

  lemma ReceiveFirst()
    ensures Step(WORK, Sealed1(), DeliverReceipt(DEBITED), Replied1())
  {
    var w := Sealed1();
    assert SENT.replies + [DEBITED] == [DEBITED];
    assert w.clients[0 := SENT.(replies := [DEBITED])] == [SENT.(replies := [DEBITED])];
    assert w.mail - multiset{DEBITED} == multiset{};
  }

  // ---------- the credit ----------

  const CONFIRMED: ClientState :=
    SENT.(deadlines := map[0 := 0], cross2 := [CREDIT], beacons := {(0, 1)}, heights := map[0 := 1])
  const WAITING: ClientState := CONFIRMED.(cross2 := [])
  const RECIPIENT: ShardState := ShardState(2, Execute(map[], CREDIT), false, [])

  function Confirmed1(): (w: World) {
    Replied1().(clients := [CONFIRMED], confirmed := map[0 := 0])
  }

  function Sending2(): (w: World) {
    Confirmed1().(clients := [WAITING], net := multiset{CREDIT})
  }

  function Pooled2(): (w: World) {
    Confirmed1().(clients := [WAITING], pools := [NONE, PoolState([CREDIT], [])])
  }

  function Packed2(): (w: World) {
    Confirmed1().(clients := [WAITING], shards := [SENDER, IDLE.(busy := true, block := [CREDIT])])
  }

  function Executed2(): (w: World) {
    Confirmed1().(clients := [WAITING], shards := [SENDER, RECIPIENT.(height := 0, busy := true)],
                  mail := multiset{CREDITED}, credited := map[0 := 1])
  }

  function WithRecipient(t: ShardState): (w: World) {
    Executed2().(shards := [SENDER, t])
  }

  lemma CreditRun()
    ensures Reachable(WithRecipient(RECIPIENT))
  {
    DebitRun();
    ConfirmFirst();
    hide Step, Reachable;
    Reach(Replied1(), BeaconBlock(0, [[1], []], []), Confirmed1());
    SendSecond();
    Reach(Confirmed1(), SendCross2(0, 1), Sending2());
    DeliverSecond();
    Reach(Sending2(), Deliver(CREDIT), Pooled2());
    PackSecond();
    Reach(Pooled2(), Pack(1, 1, [CREDIT], NONE), Packed2());
    ExecSecond();
    Reach(Packed2(), Exec(1), Executed2());
    SealSecond();
    Reach(Executed2(), Seal(1), WithRecipient(RECIPIENT.(height := 1)));
    PackEmpty();
    Reach(WithRecipient(RECIPIENT.(height := 1)), Pack(1, 1, [], NONE), WithRecipient(RECIPIENT.(height := 1, busy := true)));
    SealEmpty();
    Reach(WithRecipient(RECIPIENT.(height := 1, busy := true)), Seal(1), WithRecipient(RECIPIENT));
  }

  lemma LearnFirst()
    ensures LearnAll(SENT.(replies := [DEBITED]), [[1], []])
            == SENT.(replies := [DEBITED], beacons := {(0, 1)}, heights := map[0 := 1])
  {
    var c := SENT.(replies := [DEBITED]);
    var none: seq<nat> := [];
    assert [[1], none][..1] == [[1]] && [[1]][..0] == [] && [1][..0] == [];
    assert LearnShard(c, 0, [1]) == Learn(c, 0, 1);
    assert LearnAll(c, [[1]]) == LearnShard(c, 0, [1]);
    assert LearnAll(c, [[1], none]) == LearnShard(LearnAll(c, [[1]]), 1, none);
  }

  lemma ConfirmFirst()
    ensures Step(WORK, Replied1(), BeaconBlock(0, [[1], []], []), Confirmed1())
  {
    var w := Replied1();
    var c := SENT.(replies := [DEBITED], beacons := {(0, 1)}, heights := map[0 := 1]);
    LearnFirst();
    hide LearnAll, Execute;
    var d := c.(replies := []);
    assert [DEBITED][1..] == [];
    assert HeightOf(d, 1) == 0 && d.txsMap[0].(kind := Cross2, confirmHeight := 0) == CREDIT;
    assert d.cross2 + [CREDIT] == [CREDIT] && d.deadlines[0 := 0] == map[0 := 0];
    assert HandleReceipt(d, DEBITED) == Ok(CONFIRMED);
    assert ProcessReplies(c) == Process(CONFIRMED, []) == Ok(CONFIRMED);
    assert PastDeadlines(CONFIRMED) == {};
    assert Expire(CONFIRMED, []) == CONFIRMED by {
      assert CONFIRMED.deadlines - {} == CONFIRMED.deadlines && CONFIRMED.expired + [] == CONFIRMED.expired;
    }
    assert Confirmations(map[], d, [DEBITED]) == Confirmations(map[0 := 0], CONFIRMED, []) == map[0 := 0];
    assert w.clients[0 := CONFIRMED] == [CONFIRMED];
    assert Heights(w.shards) == [1, 0];
  }

  lemma SendSecond()
    ensures Step(WORK, Confirmed1(), SendCross2(0, 1), Sending2())
  {
    assert [CREDIT][..1] == [CREDIT] && [CREDIT][1..] == [];
    assert Confirmed1().clients[0 := WAITING] == [WAITING];
  }

  lemma DeliverSecond()
    ensures Step(WORK, Sending2(), Deliver(CREDIT), Pooled2())
  {
    var w := Sending2();
    assert AddTx(NONE, CREDIT) == PoolState([CREDIT], []);
    assert w.pools[1 := AddTx(w.pools[1], CREDIT)] == [NONE, PoolState([CREDIT], [])];
    assert w.net - multiset{CREDIT} == multiset{};
  }

  lemma PackSecond()
    ensures Step(WORK, Pooled2(), Pack(1, 1, [CREDIT], NONE), Packed2())
  {
    hide Step, Packed, Execute;
    var w := Pooled2();
    PackOne(CREDIT, 0);
    assert w.shards[1 := IDLE.(busy := true, block := [CREDIT])] == Packed2().shards;
    assert w.pools[1 := NONE] == [NONE, NONE];
    PackStep(w, 1, [CREDIT], Packed2());
  }

  lemma ExecSecond()
    ensures Step(WORK, Packed2(), Exec(1), Executed2())
  {
    var w := Packed2();
    hide Execute;
    assert [CREDIT][1..] == [];
    assert w.shards[1 := RECIPIENT.(height := 0, busy := true)] == Executed2().shards;
    assert w.mail + multiset{CREDITED} == multiset{CREDITED};
  }

  lemma SealSecond()
    ensures Step(WORK, Executed2(), Seal(1), WithRecipient(RECIPIENT.(height := 1)))
  {
    hide Execute;
    assert Executed2().shards[1 := RECIPIENT.(height := 1)] == [SENDER, RECIPIENT.(height := 1)];
  }

  lemma PackEmpty()
    ensures Step(WORK, WithRecipient(RECIPIENT.(height := 1)), Pack(1, 1, [], NONE),
                 WithRecipient(RECIPIENT.(height := 1, busy := true)))
  {
    hide Step, Execute;
    var w := WithRecipient(RECIPIENT.(height := 1));
    assert NONE.pending[..0] == [] && NONE.pending[0..] == [] && NONE.rollback[..0] == [] && NONE.rollback[0..] == [];
    assert PackedAt(NONE, 1, 1, [], NONE, 0);
    assert w.shards[1 := RECIPIENT.(height := 1, busy := true)] == [SENDER, RECIPIENT.(height := 1, busy := true)];
    assert w.pools[1 := NONE] == [NONE, NONE];
    PackStep(w, 1, [], WithRecipient(RECIPIENT.(height := 1, busy := true)));
  }

  lemma SealEmpty()
    ensures Step(WORK, WithRecipient(RECIPIENT.(height := 1, busy := true)), Seal(1), WithRecipient(RECIPIENT))
  {
    hide Execute;
    assert WithRecipient(RECIPIENT.(height := 1, busy := true)).shards[1 := RECIPIENT] == [SENDER, RECIPIENT];
  }

  // ---------- the rollback ----------

  const LEARNED: ClientState := WAITING.(beacons := {(0, 1), (1, 1), (1, 2)}, heights := map[0 := 1, 1 := 2])
  const GIVENUP: ClientState := LEARNED.(deadlines := map[], expired := [0])

  function Expired3(): (w: World) {
    WithRecipient(RECIPIENT).(clients := [GIVENUP])
  }

  function Sending3(): (w: World) {
    Expired3().(clients := [GIVENUP.(expired := [])], net := multiset{RETURN})
  }

  function Pooled3(): (w: World) {
    Sending3().(net := multiset{}, pools := [PoolState([], [RETURN]), NONE])
  }

  function Packed3(): (w: World) {
    Sending3().(net := multiset{}, shards := [SENDER.(busy := true, block := [RETURN]), RECIPIENT])
  }

  /** Atomicity needs receipts in time: this run ends with the transfer both credited and given back. */
  lemma LateReceiptBreaksAtomicity() returns (ws: seq<World>, es: seq<Event>)
    ensures Run(WORK, ws, es) && 0 in ws[|es|].credited && 0 in ws[|es|].returned
  {
    CreditRun();
    ExpireLate();
    hide Step, Reachable, AfterExec;
    Reach(WithRecipient(RECIPIENT), BeaconBlock(0, [[], [1, 2]], [0]), Expired3());
    SendReturn();
    Reach(Expired3(), SendRollback(0, 1), Sending3());
    DeliverReturn();
    Reach(Sending3(), Deliver(RETURN), Pooled3());
    PackReturn();
    Reach(Pooled3(), Pack(0, 1, [RETURN], NONE), Packed3());
    ExecReturn();
    Reach(Packed3(), Exec(0), AfterExec(Packed3(), 0));
    ws, es := Witness(AfterExec(Packed3(), 0));
  }

  lemma Witness(w: World) returns (ws: seq<World>, es: seq<Event>)
    requires Reachable(w)
    ensures Run(WORK, ws, es) && ws[|es|] == w
  {
    ws, es :| Run(WORK, ws, es) && ws[|es|] == w;
  }

  lemma LearnLate()
    ensures LearnAll(WAITING, [[], [1, 2]]) == LEARNED
  {
    var none: seq<nat> := [];
    assert [none, [1, 2]][..1] == [none];
    var nothing: seq<seq<nat>> := [];
    assert [none][..0] == nothing && LearnAll(WAITING, nothing) == WAITING;
    assert LearnAll(WAITING, [none]) == LearnShard(WAITING, 0, none) == WAITING;
    var one: seq<nat>, both: seq<nat> := [1], [1, 2];
    assert one[..0] == none && both[..1] == one && LearnShard(WAITING, 1, none) == WAITING;
    var c := LearnShard(WAITING, 1, one);
    assert c == Learn(WAITING, 1, 1);
    assert LearnShard(WAITING, 1, both) == Learn(c, 1, 2) == LEARNED;
    assert LearnAll(WAITING, [none, both]) == LearnShard(LearnAll(WAITING, [none]), 1, both);
  }

  lemma ExpireLate()
    ensures Step(WORK, WithRecipient(RECIPIENT), BeaconBlock(0, [[], [1, 2]], [0]), Expired3())
  {
    var w := WithRecipient(RECIPIENT);
    LearnLate();
    hide LearnAll, Execute;
    assert ProcessReplies(LEARNED) == Ok(LEARNED);
    assert PastDeadlines(LEARNED) == {0};
    assert Expire(LEARNED, [0]) == GIVENUP by {
      assert LEARNED.deadlines - {0} == map[] && LEARNED.expired + [0] == [0];
    }
    assert Confirmations(w.confirmed, LEARNED, []) == w.confirmed;
    assert w.clients[0 := GIVENUP] == [GIVENUP];
    assert Heights(w.shards) == [1, 2];
  }

  lemma SendReturn()
    ensures Step(WORK, Expired3(), SendRollback(0, 1), Sending3())
  {
    assert Rollbacks(GIVENUP, 1) == [RETURN];
    assert GIVENUP.expired[1..] == [];
    assert Expired3().clients[0 := GIVENUP.(expired := [])] == [GIVENUP.(expired := [])];
  }

  lemma DeliverReturn()
    ensures Step(WORK, Sending3(), Deliver(RETURN), Pooled3())
  {
    var w := Sending3();
    assert AddTx(NONE, RETURN) == PoolState([], [RETURN]);
    assert w.pools[0 := AddTx(w.pools[0], RETURN)] == [PoolState([], [RETURN]), NONE];
    assert w.net - multiset{RETURN} == multiset{};
  }

  lemma PackReturn()
    ensures Step(WORK, Pooled3(), Pack(0, 1, [RETURN], NONE), Packed3())
  {
    hide Step, Execute;
    var w := Pooled3();
    var p := w.pools[0];
    assert p.rollback[..1] == [RETURN] && p.rollback[1..] == [] && p.pending[..0] == [] && p.pending[0..] == [];
    assert PackedAt(p, 1, 1, [RETURN], NONE, 0);
    assert w.shards[0 := SENDER.(busy := true, block := [RETURN])] == Packed3().shards;
    assert w.pools[0 := NONE] == [NONE, NONE];
    PackStep(w, 0, [RETURN], Packed3());
  }

  lemma ExecReturn()
    ensures Step(WORK, Packed3(), Exec(0), AfterExec(Packed3(), 0))
    ensures 0 in AfterExec(Packed3(), 0).credited && 0 in AfterExec(Packed3(), 0).returned
  {
    hide Execute;
  }
}
