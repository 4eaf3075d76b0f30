/**
  The whole system as a machine: clients, committees with their pools, shards,
  and the messages between them. A step is one action of one participant or
  the delivery of one message, so a run is any interleaving of them.

  The beacon chain's part is written into the step of a beacon block: beacons
  are of committed blocks, and a shard's beacons become known in height order.
  Messages may take any time; `InTime` says of a beacon block that no credit's
  receipt comes too late for it.
 */
module CrossShard {
  import opened Ledger
  import opened TxPool
  import opened Client
  import opened Flow

  /** A shard with its committee: between packing and sealing a block, the rest of the block is in `block`. */
  datatype ShardState = ShardState(height: nat, accounts: Accounts, busy: bool, block: seq<Tx>)

  datatype World = World(
    clients: seq<ClientState>,
    pools: seq<PoolState>,
    shards: seq<ShardState>,
    net: multiset<Tx>,          // transactions on their way to a committee
    mail: multiset<Receipt>,    // receipts on their way to a client
    executed: map<nat, nat>,    // history, as in `Flow`
    confirmed: map<nat, nat>,
    credited: map<nat, nat>,
    returned: set<nat>)

  // ---------- where transactions and receipts are ----------

  ghost function Gather<T>(ms: seq<multiset<T>>): (m: multiset<T>) {
    if ms == [] then multiset{} else Gather(ms[..|ms| - 1]) + ms[|ms| - 1]
  }

  lemma {:induction false} GatherUpdate<T>(ms: seq<multiset<T>>, i: nat, m: multiset<T>)
    requires i < |ms|
    ensures Gather(ms[i := m]) + ms[i] == Gather(ms) + m
  {
    var n := |ms| - 1;
    if i == n {
      assert ms[i := m][..n] == ms[..n] && ms[i := m][n] == m;
    } else {
      assert ms[i := m][..n] == ms[..n][i := m];
      GatherUpdate(ms[..n], i, m);
      var g, k := Gather(ms[..n][i := m]), Gather(ms[..n]);
      assert Gather(ms[i := m]) == g + ms[n] && Gather(ms) == k + ms[n] && ms[..n][i] == ms[i];
      assert g + ms[n] + ms[i] == g + ms[i] + ms[n];
      assert k + ms[n] + m == k + m + ms[n];
    }
  }

  lemma {:induction false} GatherMember<T>(ms: seq<multiset<T>>, i: nat)
    requires i < |ms|
    ensures ms[i] <= Gather(ms)
  {
    if i < |ms| - 1 {
      GatherMember(ms[..|ms| - 1], i);
    }
  }

  lemma {:induction false} GatherSource<T>(ms: seq<multiset<T>>, x: T) returns (i: nat)
    requires x in Gather(ms)
    ensures i < |ms| && x in ms[i]
  {
    var n := |ms| - 1;
    if x in ms[n] {
      i := n;
    } else {
      i := GatherSource(ms[..n], x);
    }
  }

  ghost function Returns(b: Workload, ids: seq<nat>): (txs: multiset<Tx>) {
    if ids == [] then multiset{}
    else
      Returns(b, ids[..|ids| - 1]) +
      if ids[|ids| - 1] in b then multiset{ReturnTx(b, ids[|ids| - 1])} else multiset{}
  }

  ghost function QueueOf(b: Workload, c: ClientState): (txs: multiset<Tx>)
    requires c.injected <= |c.txs|
  {
    multiset(Firsts(c.txs[c.injected..])) + multiset(c.cross2) + Returns(b, c.expired)
  }

  ghost function PoolOf(p: PoolState): (txs: multiset<Tx>) {
    multiset(p.pending) + multiset(p.rollback)
  }

  ghost predicate Sent(cs: seq<ClientState>) {
    forall i :: 0 <= i < |cs| ==> cs[i].injected <= |cs[i].txs|
  }

  ghost function Queues(b: Workload, cs: seq<ClientState>): (ms: seq<multiset<Tx>>)
    requires Sent(cs)
    ensures |ms| == |cs| && forall i :: 0 <= i < |cs| ==> ms[i] == QueueOf(b, cs[i])
  {
    seq(|cs|, i requires 0 <= i < |cs| => QueueOf(b, cs[i]))
  }

  ghost function Pools(ps: seq<PoolState>): (ms: seq<multiset<Tx>>)
    ensures |ms| == |ps| && forall i :: 0 <= i < |ps| ==> ms[i] == PoolOf(ps[i])
  {
    seq(|ps|, i requires 0 <= i < |ps| => PoolOf(ps[i]))
  }

  ghost function Blocks(ss: seq<ShardState>): (ms: seq<multiset<Tx>>)
    ensures |ms| == |ss| && forall i :: 0 <= i < |ss| ==> ms[i] == multiset(ss[i].block)
  {
    seq(|ss|, i requires 0 <= i < |ss| => multiset(ss[i].block))
  }

  ghost function Inboxes(cs: seq<ClientState>): (ms: seq<multiset<Receipt>>)
    ensures |ms| == |cs| && forall i :: 0 <= i < |cs| ==> ms[i] == multiset(cs[i].replies)
  {
    seq(|cs|, i requires 0 <= i < |cs| => multiset(cs[i].replies))
  }

  ghost function Deadlines(b: Workload, cs: seq<ClientState>): (m: map<nat, nat>) {
    map id | id in b && b[id].cid < |cs| && id in cs[b[id].cid].deadlines :: cs[b[id].cid].deadlines[id]
  }

  ghost function Heights(ss: seq<ShardState>): (hs: seq<nat>)
    ensures |hs| == |ss| && forall i :: 0 <= i < |ss| ==> hs[i] == ss[i].height
  {
    seq(|ss|, i requires 0 <= i < |ss| => ss[i].height)
  }

  ghost function FlowOf(b: Workload, w: World): (f: Flow)
    requires Sent(w.clients)
  {
    Flow(w.net + Gather(Pools(w.pools)) + Gather(Blocks(w.shards)) + Gather(Queues(b, w.clients)),
         w.mail + Gather(Inboxes(w.clients)),
         Deadlines(b, w.clients), Heights(w.shards), w.executed, w.confirmed, w.credited, w.returned)
  }

  // ---------- the invariant ----------

  /** What a client holds is its own part of the workload. */
  ghost predicate OwnPart(b: Workload, c: ClientState, i: nat) {
    c.injected <= |c.txs| &&
    (forall id :: id in c.txsMap <==> id in b && b[id].cid == i) &&
    (forall id :: id in c.txsMap ==> c.txsMap[id] == b[id]) &&
    (forall id :: id in c.deadlines ==> id in c.txsMap) &&
    (forall id :: id in c.expired ==> id in c.txsMap) &&
    (forall r :: r in c.replies ==> r.id in b && b[r.id].cid == i)
  }

  /** A client's beacons have no gaps and are of committed blocks. */
  ghost predicate InStep(c: ClientState, heights: seq<nat>) {
    (forall s: nat :: HeightOf(c, s) <= if s < |heights| then heights[s] else 0) &&
    (forall s: nat, h: nat :: 1 <= h <= HeightOf(c, s) ==> (s, h) in c.beacons)
  }

  ghost predicate PoolOk(p: PoolState, s: nat) {
    (forall tx :: tx in p.pending ==> Target(tx) == s && !tx.kind.Rollback?) &&
    (forall tx :: tx in p.rollback ==> Target(tx) == s && tx.kind.Rollback?)
  }

  ghost predicate BlockOk(sh: ShardState, s: nat) {
    (sh.block != [] ==> sh.busy) &&
    forall tx :: tx in sh.block ==>
      Target(tx) == s && (tx.kind.Cross2? ==> sh.height + 1 <= tx.confirmHeight + tx.rollbackHeight)
  }

  ghost predicate Placed(b: Workload, w: World) {
    |w.pools| == |w.shards| && Sent(w.clients) &&
    (forall id :: id in b ==> b[id].cid < |w.clients| && b[id].senderShard < |w.shards| && b[id].recipientShard < |w.shards|) &&
    (forall i :: 0 <= i < |w.clients| ==> OwnPart(b, w.clients[i], i) && InStep(w.clients[i], Heights(w.shards))) &&
    (forall s :: 0 <= s < |w.pools| ==> PoolOk(w.pools[s], s)) &&
    (forall s :: 0 <= s < |w.shards| ==> BlockOk(w.shards[s], s))
  }

  ghost predicate WorldInv(b: Workload, w: World) {
    Placed(b, w) && FlowInv(b, FlowOf(b, w))
  }

  // ---------- steps ----------

  datatype Event =
    | SendPending(client: nat, max: nat)
    | SendCross2(client: nat, max: nat)
    | SendRollback(client: nat, max: nat)
    | Deliver(tx: Tx)
    | Pack(shard: nat, size: int, txs: seq<Tx>, left: PoolState)
    | Exec(shard: nat)
    | Seal(shard: nat)
    | DeliverReceipt(receipt: Receipt)
    | BeaconBlock(client: nat, block: seq<seq<nat>>, ids: seq<nat>)

  function WithClient(w: World, i: nat, c: ClientState): (v: World)
    requires i < |w.clients|
  {
    w.(clients := w.clients[i := c])
  }

  function WithShard(w: World, s: nat, sh: ShardState): (v: World)
    requires s < |w.shards|
  {
    w.(shards := w.shards[s := sh])
  }

  function StatusOf(kind: Kind): (s: Status) {
    match kind
    case Intra => IntraSuccess
    case Cross1 => Cross1Success
    case Cross2 => Cross2Success
    case Rollback => RollbackSuccess
  }

  /** Executing the next transaction of the block at hand. */
  function AfterExec(w: World, s: nat): (v: World)
    requires s < |w.shards| && w.shards[s].block != []
  {
    var sh := w.shards[s];
    var tx, h := sh.block[0], sh.height + 1;
    var u := w.(shards := w.shards[s := sh.(accounts := Execute(sh.accounts, tx), block := sh.block[1..])],
                mail := w.mail + multiset{Receipt(tx.id, StatusOf(tx.kind), s, h)});
    match tx.kind
    case Cross2 => u.(credited := u.credited[tx.id := h])
    case Rollback => u.(returned := u.returned + {tx.id})
    case _ => u.(executed := u.executed[tx.id := h])
  }

  /** The confirmations recorded while receipts are processed. */
  function Confirmations(m: map<nat, nat>, c: ClientState, rs: seq<Receipt>): (n: map<nat, nat>)
    decreases rs
  {
    if rs == [] then m
    else if (rs[0].shard, rs[0].height) !in c.beacons then Confirmations(m, c.(replies := c.replies + [rs[0]]), rs[1..])
    else
      var n := HandleReceipt(c, rs[0]);
      if n.Err? then m
      else if rs[0].status.Cross1Success? then
        Confirmations(m[rs[0].id := HeightOf(c, c.txsMap[rs[0].id].recipientShard)], n.value, rs[1..])
      else Confirmations(m, n.value, rs[1..])
  }

  /** No credit's receipt is still on its way to a client that finds the transfer past its deadline. */
  ghost predicate NoneLate(b: Workload, mail: multiset<Receipt>, i: nat, c: ClientState) {
    forall r :: r in mail && r.status.Cross2Success? && r.id in b && b[r.id].cid == i ==> !PastDeadline(c, r.id)
  }

  /** A beacon block comes in time if, once the client handled the receipts it has, none is late. */
  ghost predicate InTime(b: Workload, w: World, e: Event) {
    e.BeaconBlock? && e.client < |w.clients| ==>
      var n := ProcessReplies(LearnAll(w.clients[e.client], e.block));
      n.Ok? ==> NoneLate(b, w.mail, e.client, n.value)
  }

  ghost predicate Step(b: Workload, w: World, e: Event, v: World)
    requires Sent(w.clients)
  {
    match e
    case SendPending(i, max) =>
      i < |w.clients| &&
      var c := w.clients[i];
      var n := Min(c.injected + max, |c.txs|);
      v == WithClient(w, i, c.(injected := n)).(net := w.net + multiset(Firsts(c.txs[c.injected..n])))
    case SendCross2(i, max) =>
      i < |w.clients| &&
      var c := w.clients[i];
      var n := Min(max, |c.cross2|);
      v == WithClient(w, i, c.(cross2 := c.cross2[n..])).(net := w.net + multiset(c.cross2[..n]))
    case SendRollback(i, max) =>
      i < |w.clients| &&
      var c := w.clients[i];
      var n := Min(max, |c.expired|);
      (forall id :: id in c.expired ==> id in c.txsMap) &&
      v == WithClient(w, i, c.(expired := c.expired[n..])).(net := w.net + multiset(Rollbacks(c, n)))
    case Deliver(tx) =>
      tx in w.net && Target(tx) < |w.pools| &&
      v == w.(net := w.net - multiset{tx}, pools := w.pools[Target(tx) := AddTx(w.pools[Target(tx)], tx)])
    case Pack(s, size, txs, left) =>
      s < |w.shards| && s < |w.pools| && !w.shards[s].busy &&
      Packed(w.pools[s], size, w.shards[s].height, txs, left) &&
      v == WithShard(w, s, w.shards[s].(busy := true, block := txs)).(pools := w.pools[s := left])
    case Exec(s) =>
      s < |w.shards| && w.shards[s].block != [] && v == AfterExec(w, s)
    case Seal(s) =>
      s < |w.shards| && w.shards[s].busy && w.shards[s].block == [] &&
      v == WithShard(w, s, w.shards[s].(busy := false, height := w.shards[s].height + 1))
    case DeliverReceipt(r) =>
      r in w.mail && r.id in b && b[r.id].cid < |w.clients| &&
      var i := b[r.id].cid;
      v == WithClient(w, i, w.clients[i].(replies := w.clients[i].replies + [r])).(mail := w.mail - multiset{r})
    case BeaconBlock(i, block, ids) =>
      i < |w.clients| &&
      var c := LearnAll(w.clients[i], block);
      var n := ProcessReplies(c);
      InStep(c, Heights(w.shards)) && n.Ok? && Lists(ids, PastDeadlines(n.value)) &&
      v == WithClient(w, i, Expire(n.value, ids)).(confirmed := Confirmations(w.confirmed, c.(replies := []), c.replies))
  }
}
