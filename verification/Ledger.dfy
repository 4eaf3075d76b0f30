/**
  Transactions and what executing them does to a shard's accounts
  (shard/shard.go, `executeTransaction`).
 */
module Ledger {
  import opened Bytes

  const NONCES: nat := 0x1_0000_0000_0000_0000

  datatype Kind = Intra | Cross1 | Cross2 | Rollback

  datatype Tx = Tx(
    kind: Kind,
    id: nat,
    sender: Bytes,
    recipient: Bytes,
    value: int,
    senderShard: nat,
    recipientShard: nat,
    cid: nat,
    rollbackHeight: nat,
    confirmHeight: nat)  // `Cross1ConfirmHeight`, of a `Cross2` transaction

  /** Nonces have 64 bits. */
  type Nonce = n: nat | n < NONCES

  datatype Account = Account(nonce: Nonce, balance: int)

  type Accounts = map<Bytes, Account>

  /** An account that is not there reads as a new one. */
  function Fetch(a: Accounts, addr: Bytes): (r: Account) {
    if addr in a then a[addr] else Account(0, 0)
  }

  function Credit(a: Accounts, addr: Bytes, value: int): (r: Accounts) {
    a[addr := Fetch(a, addr).(balance := Fetch(a, addr).balance + value)]
  }

  /** Nonces wrap around. */
  function Bump(a: Accounts, addr: Bytes, delta: int): (r: Accounts) {
    a[addr := Fetch(a, addr).(nonce := (Fetch(a, addr).nonce + delta) % NONCES)]
  }

  function Execute(a: Accounts, tx: Tx): (r: Accounts) {
    match tx.kind
    case Intra => Credit(Credit(Bump(a, tx.sender, 1), tx.sender, -tx.value), tx.recipient, tx.value)
    case Cross1 => Credit(Bump(a, tx.sender, 1), tx.sender, -tx.value)
    case Cross2 => Credit(a, tx.recipient, tx.value)
    case Rollback => Credit(Bump(a, tx.sender, -1), tx.sender, tx.value)
  }

  function ExecuteAll(a: Accounts, txs: seq<Tx>): (r: Accounts)
    decreases txs
  {
    if txs == [] then a else ExecuteAll(Execute(a, txs[0]), txs[1..])
  }

  // ---------- who pays and who is paid ----------

  /** What the account pays in this transaction. */
  function Paid(tx: Tx, addr: Bytes): (n: int) {
    if addr == tx.sender && (tx.kind.Intra? || tx.kind.Cross1?) then tx.value else 0
  }

  /** What the account receives; a rollback gives the sender the money back. */
  function Received(tx: Tx, addr: Bytes): (n: int) {
    if (addr == tx.recipient && (tx.kind.Intra? || tx.kind.Cross2?)) || (addr == tx.sender && tx.kind.Rollback?)
    then tx.value else 0
  }

  /** Every account after a transaction; a transfer to oneself leaves the balance. */
  lemma ExecuteAccount(a: Accounts, tx: Tx, addr: Bytes)
    ensures var was, now := Fetch(a, addr), Fetch(Execute(a, tx), addr);
            now.balance == was.balance - Paid(tx, addr) + Received(tx, addr) &&
            now.nonce == if addr != tx.sender || tx.kind.Cross2? then was.nonce
                         else if tx.kind.Rollback? then (was.nonce - 1) % NONCES
                         else (was.nonce + 1) % NONCES
  {
  }

  /** The money leaves the sender and reaches the recipient, and nobody else is touched. */
  lemma TransferMoves(a: Accounts, tx: Tx, addr: Bytes)
    requires tx.kind.Intra? && tx.sender != tx.recipient
    ensures Fetch(Execute(a, tx), tx.sender).balance == Fetch(a, tx.sender).balance - tx.value
    ensures Fetch(Execute(a, tx), tx.recipient).balance == Fetch(a, tx.recipient).balance + tx.value
    ensures addr != tx.sender && addr != tx.recipient ==> Fetch(Execute(a, tx), addr) == Fetch(a, addr)
  {
    hide Execute;
    ExecuteAccount(a, tx, tx.sender);
    ExecuteAccount(a, tx, tx.recipient);
    ExecuteAccount(a, tx, addr);
  }

  /** A rollback undoes its debit: every account is as before, nonce included. */
  lemma RollbackRestores(a: Accounts, tx: Tx, addr: Bytes)
    requires tx.kind.Cross1?
    ensures Fetch(Execute(Execute(a, tx), tx.(kind := Rollback)), addr) == Fetch(a, addr)
  {
    hide Execute;
    var mid, back := Execute(a, tx), tx.(kind := Rollback);
    ExecuteAccount(a, tx, addr);
    ExecuteAccount(mid, back, addr);
  }

  // ---------- totals ----------

  ghost function Total(a: Accounts): (n: int)
    decreases a.Keys
  {
    if a == map[] then 0
    else
      var k :| k in a;
      a[k].balance + Total(a - {k})
  }

  lemma {:induction false} TotalRemove(a: Accounts, k: Bytes)
    requires k in a
    ensures Total(a) == a[k].balance + Total(a - {k})
    decreases a.Keys
  {
    var j :| j in a && Total(a) == a[j].balance + Total(a - {j});
    if j != k {
      TotalRemove(a - {j}, k);
      TotalRemove(a - {k}, j);
      assert a - {j} - {k} == a - {k} - {j};
    }
  }

  lemma TotalSet(a: Accounts, k: Bytes, acc: Account)
    ensures Total(a[k := acc]) == Total(a) - Fetch(a, k).balance + acc.balance
  {
    var r := a[k := acc];
    TotalRemove(r, k);
    assert r - {k} == a - {k};
    if k in a {
      TotalRemove(a, k);
    } else {
      assert a - {k} == a;
    }
  }

  function Change(tx: Tx): (n: int) {
    match tx.kind
    case Intra => 0
    case Cross1 => -tx.value
    case Cross2 => tx.value
    case Rollback => tx.value
  }

  /** A transaction changes a shard's total by its own amount, self-transfers included. */
  lemma ExecuteTotal(a: Accounts, tx: Tx)
    ensures Total(Execute(a, tx)) == Total(a) + Change(tx)
  {
    hide Total;
    BumpTotal(a, tx.sender, 1);
    BumpTotal(a, tx.sender, -1);
    CreditTotal(Bump(a, tx.sender, 1), tx.sender, -tx.value);
    CreditTotal(Credit(Bump(a, tx.sender, 1), tx.sender, -tx.value), tx.recipient, tx.value);
    CreditTotal(a, tx.recipient, tx.value);
    CreditTotal(Bump(a, tx.sender, -1), tx.sender, tx.value);
  }

  lemma CreditTotal(a: Accounts, addr: Bytes, value: int)
    ensures Total(Credit(a, addr, value)) == Total(a) + value
  {
    hide Total;
    TotalSet(a, addr, Fetch(a, addr).(balance := Fetch(a, addr).balance + value));
  }

  lemma BumpTotal(a: Accounts, addr: Bytes, delta: int)
    ensures Total(Bump(a, addr, delta)) == Total(a)
  {
    hide Total;
    TotalSet(a, addr, Fetch(a, addr).(nonce := (Fetch(a, addr).nonce + delta) % NONCES));
  }
}
