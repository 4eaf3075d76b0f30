/**
  committee/txpool.go: what the committee packs into its next block.
 */
module TxPool {
  import opened Bytes
  import opened Ledger

  datatype PoolState = PoolState(pending: seq<Tx>, rollback: seq<Tx>)

  function AddTx(p: PoolState, tx: Tx): (r: PoolState) {
    if tx.kind.Rollback? then p.(rollback := p.rollback + [tx]) else p.(pending := p.pending + [tx])
  }

  /** The next block would lie beyond the deadline of a credit. */
  predicate Expired(tx: Tx, parent: nat) {
    tx.kind.Cross2? && parent + 1 > tx.confirmHeight + tx.rollbackHeight
  }

  function Live(q: seq<Tx>, parent: nat): (r: seq<Tx>) {
    if q == [] then []
    else if Expired(q[|q| - 1], parent) then Live(q[..|q| - 1], parent)
    else Live(q[..|q| - 1], parent) + [q[|q| - 1]]
  }

  /** How many rollbacks fit; a negative size never stops the loop. */
  function RollbackCount(p: PoolState, maxBlockSize: int): (n: nat)
    ensures n <= |p.rollback|
  {
    if 0 <= maxBlockSize < |p.rollback| then maxBlockSize else |p.rollback|
  }

  /**
    `n` pending transactions leave the pool: the live ones among them fill the
    room, and no more are taken than needed for that.
   */
  ghost predicate Taken(p: PoolState, room: int, parent: nat, n: nat) {
    n <= |p.pending| &&
    (n == |p.pending| || |Live(p.pending[..n], parent)| == room) &&
    forall m :: 0 <= m < n ==> |Live(p.pending[..m], parent)| != room
  }

  /** A block packed from the pool, and the pool afterwards. */
  ghost predicate Packed(p: PoolState, maxBlockSize: int, parent: nat, txs: seq<Tx>, q: PoolState) {
    exists n: nat :: PackedAt(p, maxBlockSize, parent, txs, q, n)
  }

  ghost predicate PackedAt(p: PoolState, maxBlockSize: int, parent: nat, txs: seq<Tx>, q: PoolState, n: nat) {
    var i := RollbackCount(p, maxBlockSize);
    Taken(p, maxBlockSize - i, parent, n) &&
    txs == p.rollback[..i] + Live(p.pending[..n], parent) &&
    q == PoolState(p.pending[n..], p.rollback[i..])
  }

  /** Pool, size and height determine the block and what stays in the pool. */
  lemma PackedUnique(p: PoolState, maxBlockSize: int, parent: nat, txs: seq<Tx>, q: PoolState, other: seq<Tx>, rest: PoolState)
    requires Packed(p, maxBlockSize, parent, txs, q) && Packed(p, maxBlockSize, parent, other, rest)
    ensures txs == other && q == rest
  {
    var m: nat :| PackedAt(p, maxBlockSize, parent, txs, q, m);
    var n: nat :| PackedAt(p, maxBlockSize, parent, other, rest, n);
    assert m == n;
  }

  // ---------- what a block holds ----------

  lemma {:induction false} LiveElements(q: seq<Tx>, parent: nat)
    ensures forall tx :: tx in Live(q, parent) ==>
              tx in q && (tx.kind.Cross2? ==> parent + 1 <= tx.confirmHeight + tx.rollbackHeight)
    ensures multiset(Live(q, parent)) <= multiset(q)
    ensures forall tx: Tx :: !tx.kind.Cross2? || parent + 1 <= tx.confirmHeight + tx.rollbackHeight ==>
              multiset(Live(q, parent))[tx] == multiset(q)[tx]
  {
    if q != [] {
      var front, last := q[..|q| - 1], q[|q| - 1];
      LiveElements(front, parent);
      assert q == front + [last];
      assert multiset(q) == multiset(front) + multiset{last};
      assert Live(q, parent) == if Expired(last, parent) then Live(front, parent) else Live(front, parent) + [last];
      hide Live;
    }
  }

  /**
    Nothing is lost but credits past their deadline: a transaction that is no
    credit, or a credit whose deadline the next block still meets, is in the block
    or still in the pool; and no credit past its deadline is in the block.
   */
  lemma PackedConserves(p: PoolState, maxBlockSize: int, parent: nat, txs: seq<Tx>, q: PoolState)
    requires Packed(p, maxBlockSize, parent, txs, q)
    ensures multiset(txs) + multiset(q.pending) + multiset(q.rollback) <= multiset(p.pending) + multiset(p.rollback)
    ensures forall tx: Tx :: !tx.kind.Cross2? || parent + 1 <= tx.confirmHeight + tx.rollbackHeight ==>
              multiset(txs)[tx] + multiset(q.pending)[tx] + multiset(q.rollback)[tx]
              == multiset(p.pending)[tx] + multiset(p.rollback)[tx]
    ensures forall tx :: tx in txs && tx !in p.rollback ==>
              tx in p.pending && (tx.kind.Cross2? ==> parent + 1 <= tx.confirmHeight + tx.rollbackHeight)
  {
    hide Live, Taken;
    var n: nat :| PackedAt(p, maxBlockSize, parent, txs, q, n);
    var i := RollbackCount(p, maxBlockSize);
    TakenEnd(p, maxBlockSize - i, parent, n);
    LiveElements(p.pending[..n], parent);
    hide Packed, RollbackCount;
    var live := Live(p.pending[..n], parent);
    SplitCount(p.rollback, i);
    SplitCount(p.pending, n);
    assert multiset(txs) == multiset(p.rollback[..i]) + multiset(live);
    forall tx ensures multiset(txs)[tx] == multiset(p.rollback[..i])[tx] + multiset(live)[tx] {
    }
  }

  lemma SplitCount(q: seq<Tx>, n: nat)
    requires n <= |q|
    ensures multiset(q) == multiset(q[..n]) + multiset(q[n..])
  {
    assert q == q[..n] + q[n..];
  }

  lemma {:induction false} LiveGrows(q: seq<Tx>, parent: nat, n: nat)
    requires n < |q|
    ensures Live(q[..n + 1], parent) ==
            if Expired(q[n], parent) then Live(q[..n], parent) else Live(q[..n], parent) + [q[n]]
  {
    assert q[..n + 1][..n] == q[..n];
  }

  /** The live ones keep their order. */
  lemma {:induction false} LiveConcat(q: seq<Tx>, p: seq<Tx>, parent: nat)
    ensures Live(q + p, parent) == Live(q, parent) + Live(p, parent)
    decreases |p|
  {
    if p == [] {
      assert q + p == q;
    } else {
      var n := |p| - 1;
      assert (q + p)[..|q| + n] == q + p[..n] && (q + p)[|q| + n] == p[n];
      LiveConcat(q, p[..n], parent);
    }
  }

  /**
    Rollbacks go first, and a block that is not full leaves nothing behind; a
    negative size takes everything.
   */
  lemma PackedFull(p: PoolState, maxBlockSize: int, parent: nat, txs: seq<Tx>, q: PoolState)
    requires Packed(p, maxBlockSize, parent, txs, q)
    ensures q.rollback != [] ==> txs <= p.rollback && |txs| == maxBlockSize
    ensures q.rollback == [] ==> p.rollback <= txs
    ensures |txs| != maxBlockSize ==> q == PoolState([], [])
    ensures |q.pending| <= |p.pending| && q.pending == p.pending[|p.pending| - |q.pending|..]
    ensures |q.rollback| <= |p.rollback| && q.rollback == p.rollback[|p.rollback| - |q.rollback|..]
  {
    var n: nat :| PackedAt(p, maxBlockSize, parent, txs, q, n);
    var i := RollbackCount(p, maxBlockSize);
    TakenEnd(p, maxBlockSize - i, parent, n);
    hide Live, Taken, Packed;
    var live := Live(p.pending[..n], parent);
    assert |txs| == i + |live| && p.rollback[..i] <= txs;
    if i == |p.rollback| {
      assert p.rollback[..i] == p.rollback;
    } else {
      assert live == [] && txs == p.rollback[..i];
    }
  }

  lemma TakenEnd(p: PoolState, room: int, parent: nat, n: nat)
    requires Taken(p, room, parent, n)
    ensures n <= |p.pending| && (n < |p.pending| ==> |Live(p.pending[..n], parent)| == room)
    ensures room == 0 ==> Live(p.pending[..n], parent) == []
  {
    assert p.pending[..0] == [];
  }

  /** With a size that is not negative, the block is never larger than that. */
  lemma PackedSize(p: PoolState, maxBlockSize: nat, parent: nat, txs: seq<Tx>, q: PoolState)
    requires Packed(p, maxBlockSize, parent, txs, q)
    ensures |txs| <= maxBlockSize
  {
    var n: nat :| PackedAt(p, maxBlockSize, parent, txs, q, n);
    var i := RollbackCount(p, maxBlockSize);
    hide Live;
    LiveBelow(p, maxBlockSize - i, parent, n, n);
  }

  lemma {:induction false} LiveBelow(p: PoolState, room: int, parent: nat, n: nat, m: nat)
    requires Taken(p, room, parent, n) && m <= n && room >= 0
    ensures |Live(p.pending[..m], parent)| <= room
  {
    if m > 0 {
      LiveBelow(p, room, parent, n, m - 1);
      LiveGrows(p.pending, parent, m - 1);
    }
  }

  class TxPool {
    var pending: seq<Tx>
    var pendingRollback: seq<Tx>

    function State(): (s: PoolState)
      reads this
    {
      PoolState(pending, pendingRollback)
    }

    constructor ()
      ensures State() == PoolState([], [])
    {
      pending, pendingRollback := [], [];
    }

    method AddTxWithoutLock(tx: Tx)
      modifies this
      ensures State() == AddTx(old(State()), tx)
    {
      if tx.kind.Rollback? {
        pendingRollback := pendingRollback + [tx];
      } else {
        pending := pending + [tx];
      }
    }

    method Pending(size: int, parent: nat) returns (txs: seq<Tx>, addrs: seq<Bytes>)
      modifies this
      ensures Packed(old(State()), size, parent, txs, State())
      ensures (set a | a in addrs) == Related(txs) && |addrs| == |Related(txs)|
    {
      ghost var p := State();
      var maxBlockSize := size;
      txs := [];
      var i := 0;
      while true
        invariant 0 <= i <= |pendingRollback| && (0 <= size ==> i <= size) && txs == pendingRollback[..i]
        invariant State() == p && maxBlockSize == size
        decreases |pendingRollback| - i
      {
        if i == maxBlockSize || i >= |pendingRollback| {
          break;
        }
        txs := txs + [pendingRollback[i]];
        i := i + 1;
      }
      pendingRollback := pendingRollback[i..];
      ghost var rollbacks := txs;
      assert i == RollbackCount(p, size);
      maxBlockSize := maxBlockSize - i;
      ghost var room := maxBlockSize;
      i := 0;
      while true
        invariant 0 <= i <= |pending| && State() == PoolState(p.pending, p.rollback[|rollbacks|..])
        invariant txs == rollbacks + Live(pending[..i], parent)
        invariant maxBlockSize - i == room - |Live(pending[..i], parent)|
        invariant forall m :: 0 <= m < i ==> |Live(pending[..m], parent)| != room
        decreases |pending| - i
      {
        if i == maxBlockSize || i >= |pending| {
          break;
        }
        var tx := pending[i];
        LiveGrows(pending, parent, i);
        if tx.kind.Cross2? {
          if parent + 1 > tx.confirmHeight + tx.rollbackHeight {
            i := i + 1;
            maxBlockSize := maxBlockSize + 1;
            continue;
          }
        }
        txs := txs + [tx];
        i := i + 1;
      }
      pending := pending[i..];
      assert PackedAt(p, size, parent, txs, State(), i);
      addrs := RelatedAddrs(txs);
    }
  }

  // ---------- the accounts a block needs ----------

  function RelatedOf(tx: Tx): (s: set<Bytes>) {
    match tx.kind
    case Intra => {tx.sender, tx.recipient}
    case Cross2 => {tx.recipient}
    case _ => {tx.sender}
  }

  function Related(txs: seq<Tx>): (s: set<Bytes>) {
    if txs == [] then {} else Related(txs[..|txs| - 1]) + RelatedOf(txs[|txs| - 1])
  }

  /** `getTxRelatedAddrs`: the related addresses, each once. */
  method RelatedAddrs(txs: seq<Tx>) returns (addrs: seq<Bytes>)
    ensures (set a | a in addrs) == Related(txs) && |addrs| == |Related(txs)|
  {
    var found: set<Bytes>, i := {}, 0;
    while i < |txs|
      invariant 0 <= i <= |txs| && found == Related(txs[..i])
    {
      var tx := txs[i];
      assert txs[..i + 1][..i] == txs[..i];
      match tx.kind {
        case Cross1 => found := found + {tx.sender};
        case Rollback => found := found + {tx.sender};
        case Cross2 => found := found + {tx.recipient};
        case Intra =>
          found := found + {tx.sender};
          found := found + {tx.recipient};
      }
      i := i + 1;
    }
    assert txs[..|txs|] == txs;
    addrs := Listed(found);
  }

  /** A Go map is ranged over in no fixed order. */
  method Listed(all: set<Bytes>) returns (addrs: seq<Bytes>)
    ensures (set a | a in addrs) == all && |addrs| == |all|
  {
    addrs := [];
    var found := all;
    while found != {}
      invariant found <= all && (set a | a in addrs) == all - found && |addrs| + |found| == |all|
      decreases |found|
    {
      var a :| a in found;
      assert (set b | b in addrs + [a]) == (set b | b in addrs) + {a};
      addrs := addrs + [a];
      found := found - {a};
    }
  }
}
