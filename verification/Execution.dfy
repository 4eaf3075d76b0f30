/**
  Executing a block twice: the committee on the few accounts it fetched
  (committee/worker.go), the shard on all of them (shard/shard.go). Both reach
  the same state root.
 */
module Execution {
  import opened Bytes
  import opened Keys
  import opened Rlp
  import opened Tree
  import opened TreeUnique
  import opened Codec
  import opened Nodes
  import opened Proof
  import opened Rebuild
  import opened RebuildRoot
  import opened Ledger
  import opened AccountEntry
  import opened TxPool

  // ---------- execution is local ----------

  /** Both states agree on these addresses. */
  ghost predicate Agree(a: Accounts, b: Accounts, addrs: set<Bytes>) {
    forall k :: k in addrs ==> k in a && k in b && a[k] == b[k]
  }

  lemma ExecuteLocal(a: Accounts, b: Accounts, tx: Tx, addrs: set<Bytes>)
    requires Agree(a, b, addrs) && RelatedOf(tx) <= addrs
    ensures Agree(Execute(a, tx), Execute(b, tx), addrs)
    ensures Execute(a, tx).Keys == a.Keys
    ensures forall k :: k in a && k !in RelatedOf(tx) ==> Execute(a, tx)[k] == a[k]
  {
  }

  /** Running on the fetched accounts alone gives each of them the value the full run gives it. */
  lemma {:induction false} ExecuteAllLocal(a: Accounts, b: Accounts, txs: seq<Tx>, addrs: set<Bytes>)
    requires Agree(a, b, addrs) && Related(txs) <= addrs
    ensures Agree(ExecuteAll(a, txs), ExecuteAll(b, txs), addrs)
    ensures ExecuteAll(a, txs).Keys == a.Keys
    ensures forall k :: k in a && k !in Related(txs) ==> ExecuteAll(a, txs)[k] == a[k]
    decreases txs
  {
    hide Execute, RelatedOf;
    if txs != [] {
      RelatedHead(txs);
      ExecuteLocal(a, b, txs[0], addrs);
      ExecuteAllLocal(Execute(a, txs[0]), Execute(b, txs[0]), txs[1..], addrs);
    }
  }

  lemma {:induction false} RelatedHead(txs: seq<Tx>)
    requires txs != []
    ensures Related(txs) == RelatedOf(txs[0]) + Related(txs[1..])
  {
    if |txs| > 1 {
      var n := |txs| - 1;
      RelatedHead(txs[..n]);
      assert txs[..n][1..] == txs[1..][..n - 1];
    }
  }

  // ---------- the committee's run ----------

  class StateAccount {
    var nonce: Nonce
    var balance: int
    const root: Hash
    const codeHash: Bytes

    constructor (e: Entry)
      ensures Value() == Account(e.nonce, e.balance) && root == e.root && codeHash == e.codeHash
    {
      nonce, balance, root, codeHash := e.nonce, e.balance, e.root, e.codeHash;
    }

    function Value(): (a: Account)
      reads this
    {
      Account(nonce, balance)
    }

    method AddBalance(value: int)
      modifies this
      ensures Value() == old(Value()).(balance := old(balance) + value)
    {
      balance := balance + value;
    }

    method AddNonce(delta: int)
      modifies this
      ensures Value() == old(Value()).(nonce := (old(nonce) + delta) % NONCES)
    {
      nonce := (nonce + delta) % NONCES;
    }
  }

  type StateMap = map<Bytes, StateAccount>

  ghost predicate OwnObjects(m: StateMap) {
    forall a, b :: a in m && b in m && a != b ==> m[a] != m[b]
  }

  ghost function View(m: StateMap): (r: Accounts)
    reads m.Values
    ensures r.Keys == m.Keys
  {
    map k | k in m :: m[k].Value()
  }

  /** The updated states are the very objects of the touched addresses, under the addresses' hashes. */
  ghost predicate Tracks(kec: Keccak, updated: map<Hash, StateAccount>, m: StateMap, touched: set<Bytes>) {
    (forall a :: a in touched ==> a in m && kec(a) in updated && updated[kec(a)] == m[a]) &&
    forall h :: h in updated ==> exists a :: a in touched && kec(a) == h
  }

  lemma TracksMore(kec: Keccak, updated: map<Hash, StateAccount>, m: StateMap, touched: set<Bytes>, a: Bytes)
    requires Tracks(kec, updated, m, touched) && a in m && NoClash(kec, m.Keys)
    ensures Tracks(kec, updated[kec(a) := m[a]], m, touched + {a})
  {
  }

  /** One account changes in place. */
  method Touch(kec: Keccak, m: StateMap, updated: map<Hash, StateAccount>, a: Bytes, delta: int, value: int,
               ghost touched: set<Bytes>)
    returns (r: map<Hash, StateAccount>)
    requires a in m && OwnObjects(m) && NoClash(kec, m.Keys) && Tracks(kec, updated, m, touched)
    modifies m.Values
    ensures View(m) == Credit(if delta == 0 then old(View(m)) else Bump(old(View(m)), a, delta), a, value)
    ensures Tracks(kec, r, m, touched + {a})
  {
    hide NoClash;
    ghost var was := View(m);
    var state := m[a];
    if delta != 0 {
      state.AddNonce(delta);
    }
    state.AddBalance(value);
    r := updated[kec(a) := state];
    TracksMore(kec, updated, m, touched, a);
    assert forall k :: k in m && k != a ==> m[k].Value() == was[k];
  }

  method ExecuteTransaction(kec: Keccak, tx: Tx, m: StateMap, updated: map<Hash, StateAccount>,
                            ghost touched: set<Bytes>)
    returns (r: map<Hash, StateAccount>)
    requires RelatedOf(tx) <= m.Keys && OwnObjects(m) && NoClash(kec, m.Keys) && Tracks(kec, updated, m, touched)
    modifies m.Values
    ensures View(m) == Execute(old(View(m)), tx) && Tracks(kec, r, m, touched + RelatedOf(tx))
  {
    hide OwnObjects, NoClash, Tracks, View, Credit, Bump;
    match tx.kind {
      case Intra =>
        r := Touch(kec, m, updated, tx.sender, 1, -tx.value, touched);
        r := Touch(kec, m, r, tx.recipient, 0, tx.value, touched + {tx.sender});
        assert touched + {tx.sender} + {tx.recipient} == touched + RelatedOf(tx);
      case Cross1 => r := Touch(kec, m, updated, tx.sender, 1, -tx.value, touched);
      case Cross2 => r := Touch(kec, m, updated, tx.recipient, 0, tx.value, touched);
      case Rollback => r := Touch(kec, m, updated, tx.sender, -1, tx.value, touched);
    }
  }

  method ExecuteTransactions(kec: Keccak, txs: seq<Tx>, m: StateMap) returns (r: map<Hash, StateAccount>)
    requires Related(txs) <= m.Keys && OwnObjects(m) && NoClash(kec, m.Keys)
    modifies m.Values
    ensures View(m) == ExecuteAll(old(View(m)), txs) && Tracks(kec, r, m, Related(txs))
  {
    hide OwnObjects, NoClash, View, Execute, RelatedOf;
    r := map[];
    var i := 0;
    while i < |txs|
      invariant 0 <= i <= |txs| && Tracks(kec, r, m, Related(txs[..i]))
      invariant ExecuteAll(View(m), txs[i..]) == ExecuteAll(old(View(m)), txs)
    {
      hide Tracks;
      assert txs[..i + 1][..i] == txs[..i] && txs[i..][1..] == txs[i + 1..];
      RelatedMember(txs, i);
      r := ExecuteTransaction(kec, txs[i], m, r, Related(txs[..i]));
      i := i + 1;
    }
    assert txs[..|txs|] == txs;
  }

  lemma {:induction false} RelatedMember(txs: seq<Tx>, i: nat)
    requires i < |txs|
    ensures RelatedOf(txs[i]) <= Related(txs)
  {
    hide RelatedOf;
    if i < |txs| - 1 {
      RelatedMember(txs[..|txs| - 1], i);
    }
  }

  // ---------- the state trie's entries ----------

  predicate Solvent(a: Accounts) {
    forall k :: k in a ==> a[k].balance >= 0
  }

  /** The entries of the state trie: each account under the hash of its address. */
  ghost predicate IsState(kec: Keccak, a: Accounts, state: map<Bytes, Bytes>) {
    Solvent(a) &&
    (forall k :: k in a ==> kec(k) in state && state[kec(k)] == EncodeAccount(kec, a[k])) &&
    forall h :: h in state ==> exists k :: k in a && kec(k) == h
  }

  lemma StateUnique(kec: Keccak, a: Accounts, s: map<Bytes, Bytes>, r: map<Bytes, Bytes>)
    requires IsState(kec, a, s) && IsState(kec, a, r)
    ensures s == r
  {
    hide EncodeAccount;
    forall h | h in s ensures h in r && s[h] == r[h] {
      var k :| k in a && kec(k) == h;
    }
    forall h | h in r ensures h in s {
      var k :| k in a && kec(k) == h;
    }
  }

  lemma StateIsAccounts(kec: Keccak, a: Accounts, s: map<Bytes, Bytes>)
    requires IsState(kec, a, s)
    ensures AccountState(s)
  {
    hide EncodeAccount;
    forall h | h in s ensures |h| == 32 && |s[h]| >= 32 {
      var k :| k in a && kec(k) == h;
    }
  }

  /** The updated accounts as entries, or the exit when a balance cannot be encoded. */
  method EncodeUpdated(updated: map<Hash, StateAccount>) returns (r: Result<map<Bytes, Bytes>>)
    ensures r.Ok? ==> r.value.Keys == updated.Keys
    ensures r.Ok? ==> forall h :: h in updated ==> updated[h].balance >= 0 && r.value[h] == EncodeObject(updated[h])
    ensures r.Err? ==> exists h :: h in updated && updated[h].balance < 0
  {
    hide EncodeEntry;
    var upd: map<Bytes, Bytes>, todo := map[], updated.Keys;
    while todo != {}
      invariant todo <= updated.Keys && upd.Keys == updated.Keys - todo
      invariant forall h :: h in updated && h !in todo ==> updated[h].balance >= 0 && upd[h] == EncodeObject(updated[h])
      decreases |todo|
    {
      var h :| h in todo;
      if updated[h].balance < 0 {
        return Err(Panic);
      }
      upd := upd[h := EncodeObject(updated[h])];
      todo := todo - {h};
    }
    r := Ok(upd);
  }

  function EncodeObject(o: StateAccount): (r: Bytes)
    requires o.balance >= 0
    reads o
  {
    EncodeEntry(Entry(o.nonce, o.balance, o.root, o.codeHash))
  }

  /** One object for each fetched account, or the exit on bytes that are no account. */
  method DecodeAccounts(data: map<Bytes, Bytes>) returns (r: Result<StateMap>)
    ensures r.Ok? ==> fresh(r.value.Values) && OwnObjects(r.value) && r.value.Keys == data.Keys
    ensures r.Ok? ==> forall k :: k in data ==> DecodeEntry(data[k]).Ok? && Holding(r.value[k], DecodeEntry(data[k]).value)
    ensures r.Err? ==> exists k :: k in data && DecodeEntry(data[k]).Err?
  {
    hide DecodeEntry;
    var m: StateMap := map[];
    var todo := data.Keys;
    while todo != {}
      invariant todo <= data.Keys && m.Keys == data.Keys - todo && fresh(m.Values) && OwnObjects(m)
      invariant forall k :: k in m ==> DecodeEntry(data[k]).Ok? && Holding(m[k], DecodeEntry(data[k]).value)
      decreases |todo|
    {
      var k :| k in todo;
      var e := DecodeEntry(data[k]);
      if e.Err? {
        return Err(Panic);
      }
      var state := new StateAccount(e.value);
      ghost var was := m;
      m := m[k := state];
      forall v | v in m.Values ensures v == state || v in was.Values {
        var j :| j in m && m[j] == v;
        assert j != k ==> was[j] == v;
      }
      todo := todo - {k};
    }
    r := Ok(m);
  }

  /** The object holds what the entry says. */
  ghost predicate Holding(o: StateAccount, e: Entry)
    reads o
  {
    o.Value() == Account(e.nonce, e.balance) && o.root == e.root && o.codeHash == e.codeHash
  }

  /** Accounts without code and storage. */
  ghost predicate Plain(kec: Keccak, m: StateMap) {
    forall k :: k in m ==> m[k].root == kec(EncodeString([])) && m[k].codeHash == kec([])
  }

  /** These are accounts of the state that the entries make up. */
  ghost predicate Based(kec: Keccak, full: Accounts, some: Accounts, state: map<Bytes, Bytes>) {
    IsState(kec, full, state) && NoClash(kec, full.Keys) && Agree(full, some, some.Keys)
  }

  /** What the committee relies on: the shard answered for the requested addresses with entries of this state. */
  ghost predicate Answered(kec: Keccak, full: Accounts, data: map<Bytes, Bytes>, state: map<Bytes, Bytes>) {
    IsState(kec, full, state) && NoClash(kec, full.Keys) &&
    forall k :: k in data ==> k in full && data[k] == EncodeAccount(kec, full[k]) && |data[k]| < SIZE_LIMIT
  }

  /** The answer decodes to the accounts it was made from. */
  lemma AnswerDecodes(kec: Keccak, full: Accounts, data: map<Bytes, Bytes>, state: map<Bytes, Bytes>, k: Bytes)
    requires Answered(kec, full, data, state) && k in data
    ensures k in full && full[k].balance >= 0 && DecodeEntry(data[k]) == Ok(EntryOf(kec, full[k]))
  {
    hide DecodeEntry, EncodeEntry;
    EntryRoundTrip(EntryOf(kec, full[k]));
  }

  lemma AnswerFetched(kec: Keccak, full: Accounts, data: map<Bytes, Bytes>, state: map<Bytes, Bytes>, m: StateMap)
    requires Answered(kec, full, data, state) && m.Keys == data.Keys
    requires forall k :: k in data ==> DecodeEntry(data[k]).Ok? && Holding(m[k], DecodeEntry(data[k]).value)
    ensures Based(kec, full, View(m), state) && Plain(kec, m)
  {
    hide DecodeEntry, EncodeAccount, NoClash;
    forall k | k in data
      ensures k in full && View(m)[k] == full[k] && m[k].root == kec(EncodeString([])) && m[k].codeHash == kec([])
    {
      AnswerDecodes(kec, full, data, state, k);
    }
  }

  /** The proofs hold the path of every one of these addresses. */
  ghost predicate AllProven(kec: Keccak, proofs: seq<Bytes>, t: Tree, addrs: set<Bytes>) {
    forall a, p :: a in addrs && p in Path(t, KeybytesToHex(kec(a))) ==> IsNode(p) && Enc(kec, p) in proofs
  }

  /** The entries of the touched accounts and no others. */
  ghost predicate Entries(kec: Keccak, upd: map<Bytes, Bytes>, fin: Accounts, touched: set<Bytes>) {
    (forall a :: a in touched ==> a in fin && fin[a].balance >= 0 &&
                                  kec(a) in upd && upd[kec(a)] == EncodeAccount(kec, fin[a])) &&
    forall h :: h in upd ==> exists a :: a in touched && kec(a) == h
  }

  lemma EntriesProven(kec: Keccak, proofs: seq<Bytes>, t: Tree, upd: map<Bytes, Bytes>, fin: Accounts,
                      touched: set<Bytes>, addrs: set<Bytes>)
    requires AllProven(kec, proofs, t, addrs) && Entries(kec, upd, fin, touched) && touched <= addrs
    ensures Proven(kec, proofs, t, upd)
  {
    hide Enc, Path, KeybytesToHex, EncodeAccount;
    forall k, p | k in upd && p in Path(t, KeybytesToHex(k)) ensures IsNode(p) && Enc(kec, p) in proofs {
      var a :| a in touched && kec(a) == k;
    }
  }

  lemma OverlayEntry(kec: Keccak, full: Accounts, data: Accounts, txs: seq<Tx>, state: map<Bytes, Bytes>,
                     upd: map<Bytes, Bytes>, k: Bytes)
    requires Based(kec, full, data, state) && Related(txs) <= data.Keys && k in ExecuteAll(full, txs)
    requires Entries(kec, upd, ExecuteAll(data, txs), Related(txs))
    ensures var fin := ExecuteAll(full, txs);
            fin[k].balance >= 0 && kec(k) in state + upd && (state + upd)[kec(k)] == EncodeAccount(kec, fin[k])
  {
    hide EncodeAccount, ExecuteAll, Related;
    ExecuteAllLocal(full, data, txs, data.Keys);
    if k !in Related(txs) {
      assert forall a :: a in Related(txs) ==> a in full && kec(a) != kec(k);
    }
  }

  /** Overlaying the entries of the touched accounts gives the entries after the full run. */
  lemma OverlayState(kec: Keccak, full: Accounts, data: Accounts, txs: seq<Tx>, state: map<Bytes, Bytes>,
                     upd: map<Bytes, Bytes>)
    requires Based(kec, full, data, state) && Related(txs) <= data.Keys
    requires Entries(kec, upd, ExecuteAll(data, txs), Related(txs))
    ensures upd.Keys <= state.Keys && LongValues(upd) && IsState(kec, ExecuteAll(full, txs), state + upd)
  {
    hide EncodeAccount, ExecuteAll, Related;
    EntryKeys(kec, full, state, upd, ExecuteAll(data, txs), Related(txs));
    ExecuteAllLocal(full, data, txs, data.Keys);
    var fin := ExecuteAll(full, txs);
    hide Entries;
    forall k | k in fin
      ensures fin[k].balance >= 0 && kec(k) in state + upd && (state + upd)[kec(k)] == EncodeAccount(kec, fin[k])
    {
      OverlayEntry(kec, full, data, txs, state, upd, k);
    }
  }

  lemma EntryKeys(kec: Keccak, full: Accounts, state: map<Bytes, Bytes>, upd: map<Bytes, Bytes>, fin: Accounts,
                  touched: set<Bytes>)
    requires IsState(kec, full, state) && Entries(kec, upd, fin, touched) && touched <= full.Keys
    ensures upd.Keys <= state.Keys && LongValues(upd)
  {
    hide EncodeAccount;
    forall h | h in upd ensures h in state && |upd[h]| >= 32 {
      var a :| a in touched && kec(a) == h;
    }
  }

  lemma EntriesOf(kec: Keccak, updated: map<Hash, StateAccount>, m: StateMap, touched: set<Bytes>, upd: map<Bytes,
                  Bytes>)
    requires Tracks(kec, updated, m, touched) && upd.Keys == updated.Keys && Plain(kec, m)
    requires forall h :: h in updated ==> updated[h].balance >= 0 && upd[h] == EncodeObject(updated[h])
    ensures Entries(kec, upd, View(m), touched)
  {
    hide EncodeEntry;
  }

  /** A negative balance among the updated accounts is one of the full run. */
  lemma NegativeAfter(kec: Keccak, updated: map<Hash, StateAccount>, m: StateMap, full: Accounts, data: Accounts,
                      txs: seq<Tx>)
    requires Agree(full, data, data.Keys) && Related(txs) <= data.Keys && View(m) == ExecuteAll(data, txs)
    requires Tracks(kec, updated, m, Related(txs)) && exists h :: h in updated && updated[h].balance < 0
    ensures !Solvent(ExecuteAll(full, txs))
  {
    hide ExecuteAll, Related;
    ExecuteAllLocal(full, data, txs, data.Keys);
    var h :| h in updated && updated[h].balance < 0;
    var a :| a in Related(txs) && kec(a) == h;
    assert View(m)[a].balance < 0;
  }

  /** An answer is always read without failure. */
  method FetchAccounts(kec: Keccak, data: map<Bytes, Bytes>, ghost full: Accounts, ghost state: map<Bytes, Bytes>)
    returns (m: StateMap)
    requires Answered(kec, full, data, state)
    ensures fresh(m.Values) && OwnObjects(m) && m.Keys == data.Keys
    ensures Based(kec, full, View(m), state) && Plain(kec, m) && data.Keys <= full.Keys
  {
    forall k | k in data ensures DecodeEntry(data[k]).Ok? {
      AnswerDecodes(kec, full, data, state, k);
    }
    hide Answered, Based, Plain, OwnObjects, View, DecodeEntry, Holding;
    var decoded := DecodeAccounts(data);
    m := decoded.value;
    AnswerFetched(kec, full, data, state, m);
  }

  /**
    For every block whose related accounts were fetched, the committee's root is
    the root of every trie that holds the shard's state after its own run of the
    block. The other outcomes are an element that is no trie node and a
    balance below zero.
   */
  method BlockRoot(kec: Keccak, root: Hash, proofs: seq<Bytes>, data: map<Bytes, Bytes>, txs: seq<Tx>,
                   ghost full: Accounts, ghost state: map<Bytes, Bytes>, ghost t: Tree)
    returns (r: Result<Hash>)
    requires Related(txs) <= data.Keys && Answered(kec, full, data, state)
    requires Holds(t, state) && root == RootHash(kec, t)
    requires AllProven(kec, proofs, t, data.Keys)
    requires Fits(kec, t) && NoClash(kec, Strings(kec, proofs, t)) && Distinct(kec, Hashes(kec, proofs), t)
    ensures r.Ok? ==> forall after, u :: IsState(kec, ExecuteAll(full, txs), after) && Holds(u, after) ==>
                        r == Ok(RootHash(kec, u))
    ensures r.Err? ==> (exists p :: p in proofs && DecodeNode(Some(kec(p)), p).Err?) ||
                       !Solvent(ExecuteAll(full, txs))
  {
    hide Get, Enc, Canonical, Child, Fits, NoClash, Distinct, Proven, Hashes, Strings, RootHash, DecodeNode,
         Tracks, View, Entries, IsState, AllProven, EncodeAccount, Related, ExecuteAll, AccountState, Solvent, Plain,
         Answered;
    var m := FetchAccounts(kec, data, full, state);
    ghost var got := View(m);
    NoClashWithin(kec, full.Keys, data.Keys);
    var updated := ExecuteTransactions(kec, txs, m);
    var upd := EncodeUpdated(updated);
    if upd.Err? {
      NegativeAfter(kec, updated, m, full, got, txs);
      return Err(Panic);
    }
    EntriesOf(kec, updated, m, Related(txs), upd.value);
    OverlayState(kec, full, got, txs, state, upd.value);
    EntriesProven(kec, proofs, t, upd.value, View(m), Related(txs), data.Keys);
    StateIsAccounts(kec, full, state);
    r := NewStateRoot(kec, root, proofs, upd.value, t, state);
    forall after, u | IsState(kec, ExecuteAll(full, txs), after) && Holds(u, after) && r.Ok?
      ensures r == Ok(RootHash(kec, u))
    {
      StateUnique(kec, ExecuteAll(full, txs), after, state + upd.value);
    }
  }

  lemma NoClashWithin(kec: Keccak, s: set<Bytes>, r: set<Bytes>)
    requires NoClash(kec, s) && r <= s
    ensures NoClash(kec, r)
  {
  }
}
