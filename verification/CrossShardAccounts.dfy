/**
  Conservation account by account: in every state of a run, each account of each
  shard has its initial balance, plus what reached it, minus what left it for
  good.
 */
module CrossShardAccounts {
  import opened Bytes
  import opened Ledger
  import opened Client
  import opened Flow
  import opened CrossShard
  import opened CrossShardInv
  import opened CrossShardRuns

  // ---------- what a transfer did to an account ----------

  /** Paid: debited at the sender's shard and not given back. */
  function Left(b: Workload, w: World, id: nat, s: nat, addr: Bytes): (n: int)
    requires id in b
  {
    if b[id].senderShard == s && b[id].sender == addr && id in w.executed && id !in w.returned then b[id].value else 0
  }

  /** Reached: executed within the shard, or credited at the recipient's shard. */
  function Arrived(b: Workload, w: World, id: nat, s: nat, addr: Bytes): (n: int)
    requires id in b
  {
    if b[id].recipientShard == s && b[id].recipient == addr && (if b[id].kind.Intra? then id in w.executed else id in w.credited)
    then b[id].value else 0
  }

  function Net(b: Workload, w: World, s: nat, addr: Bytes): (m: map<nat, int>) {
    map id | id in b :: Arrived(b, w, id, s, addr) - Left(b, w, id, s, addr)
  }

  /** Transfers with the same history move the same. */
  lemma NetSame(b: Workload, w: World, v: World, s: nat, addr: Bytes, others: set<nat>)
    requires forall id :: id in b && id !in others ==>
               (id in v.executed <==> id in w.executed) && (id in v.credited <==> id in w.credited) &&
               (id in v.returned <==> id in w.returned)
    ensures Net(b, v, s, addr) - others == Net(b, w, s, addr) - others
  {
  }

  // ---------- sums ----------

  ghost function Sum(m: map<nat, int>): (n: int) {
    if m == map[] then 0
    else
      var id :| id in m;
      m[id] + Sum(m - {id})
  }

  lemma {:induction false} SumAt(m: map<nat, int>, id: nat)
    requires id in m
    ensures Sum(m) == m[id] + Sum(m - {id})
    decreases |m|
  {
    var j :| j in m && Sum(m) == m[j] + Sum(m - {j});
    if j != id {
      SumAt(m - {j}, id);
      SumAt(m - {id}, j);
      assert m - {j} - {id} == m - {id} - {j};
    }
  }

  /** Entries that are zero do not matter. */
  lemma {:induction false} SumPart(m: map<nat, int>, p: map<nat, int>)
    requires forall id :: id in p ==> id in m && m[id] == p[id]
    requires forall id :: id in m && id !in p ==> m[id] == 0
    ensures Sum(m) == Sum(p)
    decreases |m|
  {
    if m == map[] {
      assert p == map[];
    } else {
      var id :| id in m;
      SumAt(m, id);
      SumPart(m - {id}, p - {id});
      if id in p {
        SumAt(p, id);
      } else {
        assert p - {id} == p;
      }
    }
  }

  // ---------- every step ----------

  function BalanceAt(w: World, s: nat, addr: Bytes): (n: int)
    requires s < |w.shards|
  {
    Fetch(w.shards[s].accounts, addr).balance
  }

  /** Executing a transaction moves a balance by what it does to that one transfer. */
  lemma ExecBalance(b: Workload, w: World, s: nat, at: nat, addr: Bytes)
    requires s < |w.shards| && at < |w.shards| && w.shards[s].block != [] && Base(b) && Due(b, w, w.shards[s].block[0], s)
    ensures var v, id := AfterExec(w, s), w.shards[s].block[0].id;
            BalanceAt(v, at, addr) - BalanceAt(w, at, addr) ==
            Arrived(b, v, id, at, addr) - Left(b, v, id, at, addr) - (Arrived(b, w, id, at, addr) - Left(b, w, id, at, addr))
  {
    hide Execute;
    ExecuteAccount(w.shards[s].accounts, w.shards[s].block[0], addr);
  }

  lemma ExecNet(b: Workload, w: World, s: nat, at: nat, addr: Bytes)
    requires s < |w.shards| && at < |w.shards| && w.shards[s].block != [] && Base(b) && Due(b, w, w.shards[s].block[0], s)
    ensures var v := AfterExec(w, s);
            BalanceAt(v, at, addr) - Sum(Net(b, v, at, addr)) == BalanceAt(w, at, addr) - Sum(Net(b, w, at, addr))
  {
    var v, id := AfterExec(w, s), w.shards[s].block[0].id;
    ExecBalance(b, w, s, at, addr);
    hide Arrived, Left, BalanceAt, Sum;
    NetSame(b, w, v, at, addr, {id});
    SumAt(Net(b, w, at, addr), id);
    SumAt(Net(b, v, at, addr), id);
  }

  /** Only executing a transaction touches accounts or the transfers' history. */
  lemma OtherStep(b: Workload, w: World, e: Event, v: World)
    requires Sent(w.clients) && Step(b, w, e, v) && !e.Exec?
    ensures |v.shards| == |w.shards| && v.executed == w.executed && v.credited == w.credited && v.returned == w.returned
    ensures forall s :: 0 <= s < |w.shards| ==> v.shards[s].accounts == w.shards[s].accounts
  {
    hide InStep, ProcessReplies, LearnAll, Lists, PastDeadlines, Expire, Confirmations, Firsts, Rollbacks;
  }

  lemma ExecDue(b: Workload, w: World, s: nat)
    requires WorldInv(b, w) && s < |w.shards| && w.shards[s].block != []
    ensures Base(b) && Due(b, w, w.shards[s].block[0], s)
  {
    hide WorldInv, Due, TxsOk, StagesOk;
    ExecFacts(b, w, s);
    FlowParts(b, w);
  }

  lemma StepNet(b: Workload, w: World, e: Event, v: World, at: nat, addr: Bytes)
    requires WorldInv(b, w) && Sent(w.clients) && Step(b, w, e, v) && at < |w.shards|
    ensures |v.shards| == |w.shards|
    ensures BalanceAt(v, at, addr) - Sum(Net(b, v, at, addr)) == BalanceAt(w, at, addr) - Sum(Net(b, w, at, addr))
  {
    hide WorldInv, Sum, Due;
    if e.Exec? {
      ExecDue(b, w, e.shard);
      hide BalanceAt;
      ExecNet(b, w, e.shard, at, addr);
    } else {
      hide Step;
      OtherStep(b, w, e, v);
      NetSame(b, w, v, at, addr, {});
      assert Net(b, v, at, addr) - {} == Net(b, v, at, addr) && Net(b, w, at, addr) - {} == Net(b, w, at, addr);
    }
  }

  // ---------- runs ----------

  /** Every balance is accounted for by the transfers, in every state of every timely run. */
  lemma {:induction false} AccountBalances(b: Workload, ws: seq<World>, es: seq<Event>, k: nat, s: nat, addr: Bytes)
    requires TimelyRun(b, ws, es) && k < |ws| && s < |ws[0].shards|
    ensures |ws[k].shards| == |ws[0].shards|
    ensures BalanceAt(ws[k], s, addr) == BalanceAt(ws[0], s, addr) + Sum(Net(b, ws[k], s, addr))
  {
    hide WorldInv, Step, InTime, BalanceAt;
    if k == 0 {
      SumPart(Net(b, ws[0], s, addr), map[]);
    } else {
      hide Sum;
      AccountBalances(b, ws, es, k - 1, s, addr);
      RunInv(b, ws, es, k - 1);
      StepNet(b, ws[k - 1], es[k - 1], ws[k], s, addr);
    }
  }

  /**
    Once everything is quiet every transfer that was not returned was paid by its
    sender and reached its recipient, and a returned one did nothing.
   */
  lemma QuietTransfer(b: Workload, ws: seq<World>, es: seq<Event>, k: nat, id: nat, s: nat, addr: Bytes)
    requires TimelyRun(b, ws, es) && k < |ws| && Quiet(ws[k]) && id in b
    ensures Arrived(b, ws[k], id, s, addr) - Left(b, ws[k], id, s, addr)
            == if id in ws[k].returned then 0 else Moved(b[id], s, addr)
  {
    hide TimelyRun, Quiet;
    QuietEnded(b, ws, es, k, id);
  }

  /** What a completed transfer means for an account. */
  function Moved(tx: Tx, s: nat, addr: Bytes): (n: int) {
    (if tx.recipientShard == s && tx.recipient == addr then tx.value else 0)
    - (if tx.senderShard == s && tx.sender == addr then tx.value else 0)
  }

  /** Then the balances depend on nothing but which transfers were returned. */
  lemma QuietBalances(b: Workload, ws: seq<World>, es: seq<Event>, k: nat, s: nat, addr: Bytes)
    requires TimelyRun(b, ws, es) && k < |ws| && Quiet(ws[k]) && s < |ws[0].shards|
    ensures |ws[k].shards| == |ws[0].shards|
    ensures BalanceAt(ws[k], s, addr) == BalanceAt(ws[0], s, addr)
            + Sum(map id | id in b && id !in ws[k].returned :: Moved(b[id], s, addr))
  {
    hide TimelyRun, Quiet, Sum, BalanceAt;
    AccountBalances(b, ws, es, k, s, addr);
    forall id | id in b
      ensures Net(b, ws[k], s, addr)[id] == if id in ws[k].returned then 0 else Moved(b[id], s, addr)
    {
      QuietTransfer(b, ws, es, k, id, s, addr);
    }
    SumPart(Net(b, ws[k], s, addr), map id | id in b && id !in ws[k].returned :: Moved(b[id], s, addr));
  }
}
