/**
  The client's side of a cross-shard transfer (client/get.go, client/client.go,
  client/send.go): receipts wait for their beacon, a confirmed debit starts the
  credit and its deadline, a passed deadline starts the rollback.
 */
module Client {
  import opened Bytes
  import opened Ledger

  datatype Status = IntraSuccess | Cross1Success | Cross2Success | RollbackSuccess

  datatype Receipt = Receipt(id: nat, status: Status, shard: nat, height: nat)

  datatype ClientState = ClientState(
    txs: seq<Tx>,
    injected: nat,               // how many of `txs` were sent
    txsMap: map<nat, Tx>,
    replies: seq<Receipt>,       // receipts whose beacon is not known yet, or not looked at
    deadlines: map<nat, nat>,    // `cross1_confirm_height_map`
    cross2: seq<Tx>,             // credits to send
    expired: seq<nat>,           // transfers to roll back
    beacons: set<(nat, nat)>,    // known (shard, height) pairs
    heights: map<nat, nat>)      // `shard_cur_heights`

  function HeightOf(c: ClientState, shard: nat): (h: nat) {
    if shard in c.heights then c.heights[shard] else 0
  }

  // ---------- beacons ----------

  function Learn(c: ClientState, shard: nat, height: nat): (r: ClientState) {
    var h := HeightOf(c, shard);
    c.(beacons := c.beacons + {(shard, height)}, heights := c.heights[shard := if h > height then h else height])
  }

  /** All beacons of one shard, in the order of the block. */
  function LearnShard(c: ClientState, shard: nat, hs: seq<nat>): (r: ClientState) {
    if hs == [] then c else Learn(LearnShard(c, shard, hs[..|hs| - 1]), shard, hs[|hs| - 1])
  }

  /** All beacons of a beacon block, which lists the heights confirmed for each shard. */
  function LearnAll(c: ClientState, block: seq<seq<nat>>): (r: ClientState) {
    if block == [] then c
    else LearnShard(LearnAll(c, block[..|block| - 1]), |block| - 1, block[|block| - 1])
  }

  /** Exactly the block's beacons become known, and a shard's known height is the highest one heard of. */
  lemma {:induction false} LearnMeaning(c: ClientState, block: seq<seq<nat>>, s: nat, h: nat)
    ensures var d := LearnAll(c, block);
            ((s, h) in d.beacons <==> (s, h) in c.beacons || (s < |block| && h in block[s])) &&
            HeightOf(d, s) >= HeightOf(c, s) && (s < |block| && h in block[s] ==> HeightOf(d, s) >= h) &&
            (HeightOf(d, s) == HeightOf(c, s) || (s < |block| && HeightOf(d, s) in block[s]))
  {
    if block != [] {
      var n := |block| - 1;
      LearnMeaning(c, block[..n], s, h);
      LearnShardMeaning(LearnAll(c, block[..n]), n, block[n], s, h);
    }
  }

  lemma {:induction false} LearnShardMeaning(c: ClientState, shard: nat, hs: seq<nat>, s: nat, h: nat)
    ensures var d := LearnShard(c, shard, hs);
            ((s, h) in d.beacons <==> (s, h) in c.beacons || (s == shard && h in hs)) &&
            HeightOf(d, s) >= HeightOf(c, s) && (s == shard && h in hs ==> HeightOf(d, s) >= h) &&
            (HeightOf(d, s) == HeightOf(c, s) || (s == shard && HeightOf(d, s) in hs))
  {
    if hs != [] {
      var n := |hs| - 1;
      assert hs == hs[..n] + [hs[n]];
      LearnShardMeaning(c, shard, hs[..n], s, h);
    }
  }

  // ---------- receipts ----------

  function HandleReceipt(c: ClientState, r: Receipt): (n: Result<ClientState>) {
    match r.status
    case IntraSuccess => Ok(c)
    case RollbackSuccess => Ok(c)
    case Cross1Success =>
      if r.id !in c.txsMap then Err(Panic)
      else
        var h := HeightOf(c, c.txsMap[r.id].recipientShard);
        var tx := c.txsMap[r.id].(kind := Cross2, confirmHeight := h);
        Ok(c.(cross2 := c.cross2 + [tx], deadlines := c.deadlines[r.id := h]))
    case Cross2Success =>
      if r.id !in c.deadlines then Err(Panic) else Ok(c.(deadlines := c.deadlines - {r.id}))
  }

  /** Goes through the receipts in order: those without a beacon stay, the others take effect. */
  function Process(c: ClientState, rs: seq<Receipt>): (n: Result<ClientState>)
    decreases rs
  {
    if rs == [] then Ok(c)
    else if (rs[0].shard, rs[0].height) !in c.beacons then Process(c.(replies := c.replies + [rs[0]]), rs[1..])
    else
      var n := HandleReceipt(c, rs[0]);
      if n.Err? then n else Process(n.value, rs[1..])
  }

  function ProcessReplies(c: ClientState): (n: Result<ClientState>) {
    Process(c.(replies := []), c.replies)
  }

  /** The receipts whose beacon is known, in order. */
  function Confirmed(rs: seq<Receipt>, beacons: set<(nat, nat)>): (r: seq<Receipt>) {
    if rs == [] then []
    else (if (rs[0].shard, rs[0].height) in beacons then [rs[0]] else []) + Confirmed(rs[1..], beacons)
  }

  function Unconfirmed(rs: seq<Receipt>, beacons: set<(nat, nat)>): (r: seq<Receipt>) {
    if rs == [] then []
    else (if (rs[0].shard, rs[0].height) in beacons then [] else [rs[0]]) + Unconfirmed(rs[1..], beacons)
  }

  /** The credits that the debits among the receipts start, each with the recipient shard's known height. */
  function Credits(txs: map<nat, Tx>, heights: map<nat, nat>, rs: seq<Receipt>): (r: seq<Tx>) {
    if rs == [] then []
    else
      var rest := Credits(txs, heights, rs[1..]);
      if !rs[0].status.Cross1Success? || rs[0].id !in txs then rest
      else
        var tx := txs[rs[0].id];
        var h := if tx.recipientShard in heights then heights[tx.recipientShard] else 0;
        [tx.(kind := Cross2, confirmHeight := h)] + rest
  }

  predicate Has(rs: seq<Receipt>, id: nat, status: Status) {
    exists i :: 0 <= i < |rs| && rs[i].id == id && rs[i].status == status
  }

  /**
    What a client makes of its receipts: those without a beacon wait on, in
    order; each confirmed debit queues a credit and starts its deadline; and a
    confirmed credit ends the deadline.
   */
  lemma ProcessMeaning(c: ClientState, rs: seq<Receipt>)
    requires Process(c, rs).Ok?
    ensures var d := Process(c, rs).value;
            d == c.(replies := c.replies + Unconfirmed(rs, c.beacons), deadlines := d.deadlines,
                    cross2 := c.cross2 + Credits(c.txsMap, c.heights, Confirmed(rs, c.beacons)))
  {
    hide Process, Unconfirmed, Confirmed, Credits;
    ProcessWaiting(c, rs);
    ProcessCredits(c, rs);
  }

  lemma {:induction false} ProcessWaiting(c: ClientState, rs: seq<Receipt>)
    requires Process(c, rs).Ok?
    ensures var d := Process(c, rs).value;
            d == c.(replies := d.replies, deadlines := d.deadlines, cross2 := d.cross2) &&
            d.replies == c.replies + Unconfirmed(rs, c.beacons)
    decreases rs
  {
    if rs == [] {
      assert c.replies + [] == c.replies;
    } else {
      var r, rest := rs[0], Unconfirmed(rs[1..], c.beacons);
      if (r.shard, r.height) in c.beacons {
        assert [] + rest == rest;
        ProcessWaiting(HandleReceipt(c, r).value, rs[1..]);
      } else {
        hide HandleReceipt;
        assert c.replies + ([r] + rest) == c.replies + [r] + rest;
        ProcessWaiting(c.(replies := c.replies + [r]), rs[1..]);
      }
    }
  }

  lemma {:induction false} ProcessCredits(c: ClientState, rs: seq<Receipt>)
    requires Process(c, rs).Ok?
    ensures Process(c, rs).value.cross2 == c.cross2 + Credits(c.txsMap, c.heights, Confirmed(rs, c.beacons))
    decreases rs
  {
    if rs == [] {
      assert c.cross2 + [] == c.cross2;
    } else {
      var r, known := rs[0], Confirmed(rs[1..], c.beacons);
      ConfirmedMore(rs, c.beacons);
      hide Credits, Confirmed;
      if (r.shard, r.height) in c.beacons {
        HandleCredits(c, r);
        hide HandleReceipt;
        ProcessCredits(HandleReceipt(c, r).value, rs[1..]);
        CreditsMore(c.cross2, c.txsMap, c.heights, r, known);
      } else {
        hide HandleReceipt;
        ProcessCredits(c.(replies := c.replies + [r]), rs[1..]);
      }
    }
  }

  lemma ConfirmedMore(rs: seq<Receipt>, beacons: set<(nat, nat)>)
    requires rs != []
    ensures Confirmed(rs, beacons) ==
            if (rs[0].shard, rs[0].height) in beacons then [rs[0]] + Confirmed(rs[1..], beacons) else Confirmed(rs[1..], beacons)
  {
  }

  lemma HandleCredits(c: ClientState, r: Receipt)
    requires HandleReceipt(c, r).Ok?
    ensures var d := HandleReceipt(c, r).value;
            d == c.(deadlines := d.deadlines, cross2 := c.cross2 + Credits(c.txsMap, c.heights, [r]))
  {
    assert Credits(c.txsMap, c.heights, [r][1..]) == [];
    assert c.cross2 + [] == c.cross2;
  }

  lemma CreditsMore(front: seq<Tx>, txs: map<nat, Tx>, heights: map<nat, nat>, r: Receipt, rs: seq<Receipt>)
    ensures front + Credits(txs, heights, [r] + rs) == front + Credits(txs, heights, [r]) + Credits(txs, heights, rs)
  {
    assert ([r] + rs)[1..] == rs && [r][1..] == [];
    assert Credits(txs, heights, [r] + rs) == Credits(txs, heights, [r]) + Credits(txs, heights, rs);
  }

  lemma {:induction false} DeadlineMeaning(c: ClientState, rs: seq<Receipt>, id: nat)
    requires Process(c, rs).Ok?
    ensures var d, known := Process(c, rs).value, Confirmed(rs, c.beacons);
            if Has(known, id, Cross2Success) then !Has(known, id, Cross1Success) ==> id !in d.deadlines
            else if Has(known, id, Cross1Success) then
              id in c.txsMap && id in d.deadlines && d.deadlines[id] == HeightOf(c, c.txsMap[id].recipientShard)
            else (id in d.deadlines <==> id in c.deadlines) && (id in c.deadlines ==> d.deadlines[id] == c.deadlines[id])
    decreases rs
  {
    if rs != [] {
      var r, known := rs[0], Confirmed(rs[1..], c.beacons);
      if (r.shard, r.height) !in c.beacons {
        assert [] + known == known;
        DeadlineMeaning(c.(replies := c.replies + [r]), rs[1..], id);
      } else {
        HasMore(r, known, id, Cross1Success);
        HasMore(r, known, id, Cross2Success);
        hide Has, Confirmed;
        DeadlineMeaning(HandleReceipt(c, r).value, rs[1..], id);
      }
    }
  }

  lemma HasMore(r: Receipt, rs: seq<Receipt>, id: nat, status: Status)
    ensures Has([r] + rs, id, status) <==> (r.id == id && r.status == status) || Has(rs, id, status)
  {
    var all := [r] + rs;
    assert all[0] == r && forall i :: 0 <= i < |rs| ==> all[i + 1] == rs[i];
  }

  // ---------- deadlines ----------

  predicate PastDeadline(c: ClientState, id: nat) {
    id in c.deadlines && id in c.txsMap &&
    HeightOf(c, c.txsMap[id].recipientShard) > c.deadlines[id] + c.txsMap[id].rollbackHeight
  }

  function PastDeadlines(c: ClientState): (s: set<nat>) {
    set id | id in c.deadlines && PastDeadline(c, id)
  }

  /** A list of exactly these ids, each once, in some order. */
  predicate Lists(ids: seq<nat>, s: set<nat>) {
    multiset(ids) == multiset(s)
  }

  function Expire(c: ClientState, ids: seq<nat>): (r: ClientState) {
    c.(deadlines := c.deadlines - PastDeadlines(c), expired := c.expired + ids)
  }

  /**
    The deadlines after a check: a transfer whose recipient shard is known to be
    higher than its confirmation height plus its rollback height is moved to the
    end of the rollback queue, once, and any other one stays.
   */
  ghost predicate Swept(c: ClientState, d: ClientState) {
    d == c.(deadlines := d.deadlines, expired := d.expired) &&
    |c.expired| <= |d.expired| && d.expired[..|c.expired|] == c.expired &&
    var moved := d.expired[|c.expired|..];
    (forall x, y :: 0 <= x < y < |moved| ==> moved[x] != moved[y]) &&
    (forall id :: id in moved ==> id in c.deadlines && id in c.txsMap && id !in d.deadlines) &&
    (forall id :: id in d.deadlines ==> id in c.deadlines && d.deadlines[id] == c.deadlines[id]) &&
    forall id :: id in c.deadlines && id in c.txsMap ==>
      if HeightOf(c, c.txsMap[id].recipientShard) > c.deadlines[id] + c.txsMap[id].rollbackHeight then id in moved
      else id in d.deadlines
  }

  lemma ExpireSweeps(c: ClientState, ids: seq<nat>)
    requires Lists(ids, PastDeadlines(c))
    ensures Swept(c, Expire(c, ids))
  {
    ListsDistinct(ids, PastDeadlines(c));
    hide Lists;
    var d := Expire(c, ids);
    assert d.expired[|c.expired|..] == ids;
    forall id ensures id in ids <==> id in PastDeadlines(c) {
      assert id in ids <==> id in (set x | x in ids);
    }
  }

  lemma ListsDistinct(ids: seq<nat>, s: set<nat>)
    requires Lists(ids, s)
    ensures (set id | id in ids) == s && forall x, y :: 0 <= x < y < |ids| ==> ids[x] != ids[y]
  {
    forall id ensures id in ids <==> id in s {
      assert id in multiset(ids) <==> id in multiset(s);
    }
    forall x, y | 0 <= x < y < |ids| ensures ids[x] != ids[y] {
      var a, c := ids[..y], ids[y..];
      assert ids == a + c;
      assert multiset(ids)[ids[x]] <= 1;
      assert a[x] == ids[x] && ids[x] in multiset(a);
      assert c[0] == ids[y] && ids[y] in multiset(c);
      assert multiset(ids)[ids[x]] == multiset(a)[ids[x]] + multiset(c)[ids[x]];
    }
  }

  // ---------- sending ----------

  function Min(a: nat, b: nat): (m: nat) {
    if a < b then a else b
  }

  /** The committee that gets a transaction. */
  function Target(tx: Tx): (shard: nat) {
    if tx.kind.Cross2? then tx.recipientShard else tx.senderShard
  }

  /** A transfer as it is first sent. */
  function First(tx: Tx): (r: Tx) {
    tx.(kind := if tx.senderShard == tx.recipientShard then Intra else Cross1)
  }

  function Firsts(txs: seq<Tx>): (r: seq<Tx>) {
    seq(|txs|, i requires 0 <= i < |txs| => First(txs[i]))
  }

  function RollbackTx(c: ClientState, id: nat): (tx: Tx)
    requires id in c.txsMap
  {
    c.txsMap[id].(kind := Rollback)
  }

  function Rollbacks(c: ClientState, n: nat): (txs: seq<Tx>)
    requires n <= |c.expired| && forall id :: id in c.expired ==> id in c.txsMap
  {
    seq(n, i requires 0 <= i < n => RollbackTx(c, c.expired[i]))
  }

  function ForShard(txs: seq<Tx>, shard: nat): (r: seq<Tx>) {
    if txs == [] then []
    else
      var front := ForShard(txs[..|txs| - 1], shard);
      if Target(txs[|txs| - 1]) == shard then front + [txs[|txs| - 1]] else front
  }

  /** Each transaction goes to its committee's list, and lists keep the order. */
  lemma {:induction false} ForShardAll(txs: seq<Tx>, shard: nat, tx: Tx)
    ensures multiset(ForShard(txs, shard))[tx] == if Target(tx) == shard then multiset(txs)[tx] else 0
  {
    if txs != [] {
      var n := |txs| - 1;
      assert txs == txs[..n] + [txs[n]];
      ForShardAll(txs[..n], shard, tx);
    }
  }

  lemma {:induction false} ForShardConcat(a: seq<Tx>, b: seq<Tx>, shard: nat)
    ensures ForShard(a + b, shard) == ForShard(a, shard) + ForShard(b, shard)
    decreases |b|
  {
    if b == [] {
      assert a + b == a;
    } else {
      var n := |b| - 1;
      assert (a + b)[..|a| + n] == a + b[..n] && (a + b)[|a| + n] == b[n];
      ForShardConcat(a, b[..n], shard);
    }
  }

  /** `CanStopV1`: everything was sent, and nothing is left to wait for. */
  predicate Finished(c: ClientState) {
    |c.txs| == c.injected && |c.replies| == 0 && |c.expired| == 0 && |c.cross2| == 0 && |c.deadlines| == 0
  }

  /** What the client's tables always satisfy. */
  predicate Known(c: ClientState, shards: nat) {
    (forall id :: id in c.deadlines ==> id in c.txsMap) &&
    (forall id :: id in c.expired ==> id in c.txsMap) &&
    (forall id :: id in c.txsMap ==> c.txsMap[id].senderShard < shards && c.txsMap[id].recipientShard < shards) &&
    (forall i :: 0 <= i < |c.txs| ==> c.txs[i].senderShard < shards) &&
    (forall i :: 0 <= i < |c.cross2| ==> c.cross2[i].kind.Cross2? && c.cross2[i].recipientShard < shards) &&
    c.injected <= |c.txs|
  }

  /** Sorts transactions by target; each list keeps the order. */
  method Dispatch(txs: seq<Tx>, shards: nat) returns (lists: seq<seq<Tx>>)
    requires forall i :: 0 <= i < |txs| ==> Target(txs[i]) < shards
    ensures |lists| == shards && forall s :: 0 <= s < shards ==> lists[s] == ForShard(txs, s)
  {
    lists := seq(shards, _ => []);
    for i := 0 to |txs|
      invariant |lists| == shards && forall s :: 0 <= s < shards ==> lists[s] == ForShard(txs[..i], s)
    {
      assert txs[..i + 1][..i] == txs[..i];
      var s := Target(txs[i]);
      lists := lists[s := lists[s] + [txs[i]]];
    }
    assert txs[..|txs|] == txs;
  }

  class Client {
    const shardNum: nat
    var txs: seq<Tx>
    var injectCnt: nat
    var txsMap: map<nat, Tx>
    var txReply: seq<Receipt>
    var cross1ConfirmHeight: map<nat, nat>
    var cross2Txs: seq<Tx>
    var crossTxExpired: seq<nat>
    var tbs: set<(nat, nat)>
    var shardCurHeights: map<nat, nat>

    function State(): (c: ClientState)
      reads this
    {
      ClientState(txs, injectCnt, txsMap, txReply, cross1ConfirmHeight, cross2Txs, crossTxExpired, tbs, shardCurHeights)
    }

    predicate Valid()
      reads this
    {
      Known(State(), shardNum)
    }

    method AddTXReceipts(receipts: seq<Receipt>)
      modifies this
      ensures State() == old(State()).(replies := old(txReply) + receipts)
    {
      for i := 0 to |receipts|
        invariant State() == old(State()).(replies := old(txReply) + receipts[..i])
      {
        txReply := txReply + [receipts[i]];
      }
    }

    /** The beacon block's heights go into the tables; then receipts and deadlines are looked at. */
    method AddTBs(block: seq<seq<nat>>) returns (ok: bool)
      requires Valid()
      modifies this
      ensures ok <==> ProcessReplies(LearnAll(old(State()), block)).Ok?
      ensures ok ==> Valid()
      ensures ok ==> exists ids :: (var c := ProcessReplies(LearnAll(old(State()), block)).value;
                                    Lists(ids, PastDeadlines(c)) && State() == Expire(c, ids))
      ensures ok ==> Swept(ProcessReplies(LearnAll(old(State()), block)).value, State())
    {
      for s := 0 to |block|
        invariant State() == LearnAll(old(State()), block[..s])
      {
        LearnTBs(s, block[s]);
        assert block[..s + 1][..s] == block[..s];
      }
      assert block[..|block|] == block;
      LearnKeeps(old(State()), block);
      ok := ProcessTXReceipts();
      if ok {
        CheckExpiredTXs();
      }
    }

    method LearnTBs(shard: nat, hs: seq<nat>)
      modifies this
      ensures State() == LearnShard(old(State()), shard, hs)
    {
      for i := 0 to |hs|
        invariant State() == LearnShard(old(State()), shard, hs[..i])
      {
        assert hs[..i + 1][..i] == hs[..i];
        tbs := tbs + {(shard, hs[i])};
        var cur := if shard in shardCurHeights then shardCurHeights[shard] else 0;
        shardCurHeights := shardCurHeights[shard := if cur > hs[i] then cur else hs[i]];
      }
      assert hs[..|hs|] == hs;
    }

    /** Walks the reply list, removing each receipt that takes effect. */
    method ProcessTXReceipts() returns (ok: bool)
      requires Valid()
      modifies this
      ensures ok <==> ProcessReplies(old(State())).Ok?
      ensures ok ==> Valid() && State() == ProcessReplies(old(State())).value
    {
      hide HandleReceipt, Known;
      ghost var start := State().(replies := []);
      ghost var rs := txReply;
      var e := 0;
      ghost var done := 0;
      while e < |txReply|
        invariant 0 <= e <= |txReply| && 0 <= done <= |rs| && txReply[e..] == rs[done..] && Valid()
        invariant Process(State().(replies := txReply[..e]), rs[done..]) == Process(start, rs)
        decreases |rs| - done
      {
        var r := txReply[e];
        assert r == rs[done] && rs[done..][1..] == rs[done + 1..];
        ghost var c := State().(replies := txReply[..e]);
        if (r.shard, r.height) !in tbs {
          assert txReply[..e] + [r] == txReply[..e + 1];
          e := e + 1;
          done := done + 1;
          continue;
        }
        ghost var all := txReply;
        ok := Apply(r);
        HandleIgnoresReplies(c.(replies := all), r, txReply[..e]);
        if !ok {
          return;
        }
        ghost var kept := txReply[..e];
        KnownAnyway(State(), txReply[..e] + txReply[e + 1..], shardNum);
        txReply := txReply[..e] + txReply[e + 1..];
        assert txReply[..e] == kept;
        done := done + 1;
      }
      assert txReply[..e] == txReply;
      ok := true;
    }

    /** What one confirmed receipt does. */
    method Apply(r: Receipt) returns (ok: bool)
      requires Valid()
      modifies this`cross2Txs, this`cross1ConfirmHeight
      ensures ok <==> HandleReceipt(old(State()), r).Ok?
      ensures ok ==> Valid() && State() == HandleReceipt(old(State()), r).value
    {
      match r.status {
        case IntraSuccess =>
        case RollbackSuccess =>
        case Cross1Success =>
          if r.id !in txsMap {
            return false;
          }
          var to := txsMap[r.id].recipientShard;
          var h := if to in shardCurHeights then shardCurHeights[to] else 0;
          var tx := txsMap[r.id].(kind := Cross2, confirmHeight := h);
          cross2Txs := cross2Txs + [tx];
          cross1ConfirmHeight := cross1ConfirmHeight[r.id := h];
        case Cross2Success =>
          if r.id !in cross1ConfirmHeight {
            return false;
          }
          cross1ConfirmHeight := cross1ConfirmHeight - {r.id};
      }
      ok := true;
    }

    /** Ranges over the deadlines in some order while deleting from them. */
    method CheckExpiredTXs()
      requires Valid()
      modifies this`cross1ConfirmHeight, this`crossTxExpired
      ensures Valid()
      ensures exists ids :: Lists(ids, PastDeadlines(old(State()))) && State() == Expire(old(State()), ids)
      ensures Swept(old(State()), State())
    {
      ghost var c := State();
      var ids := DropOverdue();
      crossTxExpired := crossTxExpired + ids;
      assert State() == Expire(c, ids);
      ExpireSweeps(c, ids);
      ExpireKnown(c, ids, shardNum);
    }

    method DropOverdue() returns (ids: seq<nat>)
      requires forall id :: id in cross1ConfirmHeight ==> id in txsMap
      modifies this`cross1ConfirmHeight
      ensures Lists(ids, PastDeadlines(old(State())))
      ensures cross1ConfirmHeight == old(cross1ConfirmHeight) - PastDeadlines(old(State()))
    {
      ghost var c := State();
      var todo := cross1ConfirmHeight.Keys;
      ghost var gone: set<nat> := {};
      ids := [];
      NoneGone(c);
      hide PastDeadlines, PastDeadline, Lists, Gone, Less;
      while todo != {}
        invariant todo <= c.deadlines.Keys && Gone(c, todo, gone, ids)
        invariant cross1ConfirmHeight == Less(c.deadlines, gone)
        decreases |todo|
      {
        var id :| id in todo;
        OneMore(c, todo, gone, ids, id);
        var overdue := IsOverdue(id);
        if overdue {
          ids := ids + [id];
          cross1ConfirmHeight := cross1ConfirmHeight - {id};
          gone := gone + {id};
        }
        todo := todo - {id};
      }
      AllGone(c, gone, ids);
    }

    method IsOverdue(id: nat) returns (b: bool)
      requires id in cross1ConfirmHeight && id in txsMap
      ensures b <==> PastDeadline(State(), id)
    {
      var tx := txsMap[id];
      var cur := if tx.recipientShard in shardCurHeights then shardCurHeights[tx.recipientShard] else 0;
      b := cur > cross1ConfirmHeight[id] + tx.rollbackHeight;
    }

    method SendRollbackTxs(max: nat) returns (lists: seq<seq<Tx>>, n: nat)
      requires Valid()
      modifies this
      ensures n == Min(max, |old(crossTxExpired)|)
      ensures Valid() && State() == old(State()).(expired := old(crossTxExpired)[n..])
      ensures |lists| == shardNum
      ensures forall s :: 0 <= s < shardNum ==> lists[s] == ForShard(Rollbacks(old(State()), n), s)
    {
      n := Min(max, |crossTxExpired|);
      var sent := Rollbacks(State(), n);
      lists := Dispatch(sent, shardNum);
      crossTxExpired := crossTxExpired[n..];
    }

    method SendCross2Txs(max: nat) returns (lists: seq<seq<Tx>>, n: nat)
      requires Valid()
      modifies this
      ensures n == Min(max, |old(cross2Txs)|)
      ensures Valid() && State() == old(State()).(cross2 := old(cross2Txs)[n..])
      ensures |lists| == shardNum && forall s :: 0 <= s < shardNum ==> lists[s] == ForShard(old(cross2Txs)[..n], s)
    {
      n := Min(max, |cross2Txs|);
      lists := Dispatch(cross2Txs[..n], shardNum);
      cross2Txs := cross2Txs[n..];
    }

    method SendPendingTxs(max: nat) returns (lists: seq<seq<Tx>>)
      requires Valid()
      modifies this
      ensures Valid()
      ensures var n := Min(old(injectCnt) + max, |txs|);
              State() == old(State()).(injected := n) && |lists| == shardNum &&
              forall s :: 0 <= s < shardNum ==> lists[s] == ForShard(Firsts(txs[old(injectCnt)..n]), s)
    {
      var n := Min(injectCnt + max, |txs|);
      lists := Dispatch(Firsts(txs[injectCnt..n]), shardNum);
      injectCnt := n;
    }
  }

  lemma {:induction false} LearnKeeps(c: ClientState, block: seq<seq<nat>>)
    ensures var r := LearnAll(c, block); r == c.(beacons := r.beacons, heights := r.heights)
  {
    if block != [] {
      var n := |block| - 1;
      LearnKeeps(c, block[..n]);
      LearnShardKeeps(LearnAll(c, block[..n]), n, block[n]);
    }
  }

  lemma {:induction false} LearnShardKeeps(c: ClientState, shard: nat, hs: seq<nat>)
    ensures var r := LearnShard(c, shard, hs); r == c.(beacons := r.beacons, heights := r.heights)
  {
    if hs != [] {
      LearnShardKeeps(c, shard, hs[..|hs| - 1]);
    }
  }

  lemma KnownAnyway(c: ClientState, rs: seq<Receipt>, shards: nat)
    requires Known(c, shards)
    ensures Known(c.(replies := rs), shards)
  {
  }

  lemma HandleIgnoresReplies(c: ClientState, r: Receipt, rs: seq<Receipt>)
    ensures HandleReceipt(c.(replies := rs), r) ==
            if HandleReceipt(c, r).Err? then HandleReceipt(c, r)
            else Ok(HandleReceipt(c, r).value.(replies := rs))
  {
  }

  function Less(m: map<nat, nat>, s: set<nat>): (r: map<nat, nat>) {
    m - s
  }

  /** Of the deadlines not on the list still to look at, exactly the passed ones are gone. */
  ghost predicate Gone(c: ClientState, todo: set<nat>, gone: set<nat>, ids: seq<nat>) {
    gone == PastDeadlines(c) - todo && Lists(ids, gone)
  }

  lemma NoneGone(c: ClientState)
    ensures Gone(c, c.deadlines.Keys, {}, []) && Less(c.deadlines, {}) == c.deadlines
  {
  }

  lemma OneMore(c: ClientState, todo: set<nat>, gone: set<nat>, ids: seq<nat>, id: nat)
    requires Gone(c, todo, gone, ids) && id in todo && id in c.deadlines
    ensures id in Less(c.deadlines, gone)
    ensures if PastDeadline(c.(deadlines := Less(c.deadlines, gone)), id) then
              Gone(c, todo - {id}, gone + {id}, ids + [id]) &&
              Less(c.deadlines, gone) - {id} == Less(c.deadlines, gone + {id})
            else Gone(c, todo - {id}, gone, ids)
  {
    hide Lists;
    var past := PastDeadlines(c);
    assert id in past <==> PastDeadline(c.(deadlines := Less(c.deadlines, gone)), id);
    if id in past {
      ListsMore(ids, gone, id);
      assert past - (todo - {id}) == gone + {id};
    } else {
      assert past - (todo - {id}) == gone;
    }
  }

  lemma AllGone(c: ClientState, gone: set<nat>, ids: seq<nat>)
    requires Gone(c, {}, gone, ids)
    ensures Lists(ids, PastDeadlines(c)) && Less(c.deadlines, gone) == c.deadlines - PastDeadlines(c)
  {
    assert PastDeadlines(c) - {} == PastDeadlines(c);
  }

  lemma ListsMore(ids: seq<nat>, s: set<nat>, id: nat)
    requires Lists(ids, s) && id !in s
    ensures Lists(ids + [id], s + {id})
  {
  }

  lemma ExpireKnown(c: ClientState, ids: seq<nat>, shards: nat)
    requires Known(c, shards) && Lists(ids, PastDeadlines(c))
    ensures Known(Expire(c, ids), shards)
  {
    forall id | id in ids ensures id in c.txsMap {
      assert id in multiset(ids);
    }
  }
}
