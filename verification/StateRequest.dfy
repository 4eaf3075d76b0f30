/**
  What a shard answers when a committee asks for accounts
  (shard/msgHandler.go): the proofs of all of them. With that answer the
  committee's block root needs no further hypothesis about the proofs.
 */
module StateRequest {
  import opened Bytes
  import opened Keys
  import opened Rlp
  import opened Tree
  import opened TreeUnique
  import opened Codec
  import opened Nodes
  import opened TrieObject
  import opened Proof
  import opened Rebuild
  import opened RebuildRoot
  import opened Ledger
  import opened TxPool
  import opened Execution

  // ---------- one proof ----------

  /** In a state trie every node is hashed, so `Prove` puts every node of a path. */
  lemma {:induction false} PathLong(kec: Keccak, t: Tree, n: int, k: Bytes)
    requires Canonical(t) && StateTrie(t, n)
    ensures forall p :: p in Path(t, k) ==> IsNode(p) && |Enc(kec, p)| >= 32
    decreases t
  {
    match t
    case Nil =>
    case Short(key, c) =>
      NotEmbedded(kec, t, n);
      hide Enc;
      if key <= k && !HasTerm(key) {
        PathLong(kec, c, n - |key|, k[|key|..]);
      }
    case Full(cs) =>
      NotEmbedded(kec, t, n);
      hide Enc;
      if k != [] && k[0] < 16 {
        PathLong(kec, cs[k[0]], n - 1, k[1..]);
      }
  }

  lemma PutWhole(kec: Keccak, t: Tree, path: seq<Tree>)
    requires Child(t) && NoClash(kec, Encs(kec, t))
    requires forall p :: p in path ==> IsNode(p) && Enc(kec, p) in Encs(kec, t) && |Enc(kec, p)| >= 32
    ensures var db := PutPath(kec, path, 0, 0, map[]);
            (forall p :: p in path ==> Enc(kec, p) in db.Values) && forall e :: e in db.Values ==> e in Encs(kec, t)
  {
    hide Enc, Encs;
    var db := PutPath(kec, path, 0, 0, map[]);
    PutPathKeeps(kec, path, 0, 0, map[]);
    forall p | p in path ensures Enc(kec, p) in db.Values {
      var j :| 0 <= j < |path| && path[j] == p;
      assert Proved(kec, path[j], j, 0);
      var h := kec(Enc(kec, p));
      assert h in db && db[h] in db.Values;
    }
  }

  /** A memory database, listed in some order. */
  method Elements(db: Store) returns (es: seq<Bytes>)
    ensures forall e :: e in es <==> e in db.Values
  {
    es := [];
    var todo := db.Keys;
    while todo != {}
      invariant todo <= db.Keys
      invariant forall e :: e in es <==> exists h :: h in db && h !in todo && db[h] == e
      decreases |todo|
    {
      var h :| h in todo;
      es := es + [db[h]];
      todo := todo - {h};
    }
  }

  // ---------- the answer ----------

  ghost function Asked(addrs: seq<Bytes>): (s: set<Bytes>) {
    set a | a in addrs
  }

  /**
    `HandleComGetState`, as far as proofs go: each address' proof in a database
    of its own. Together they hold the path of every address, and nothing but
    nodes of the trie.
   */
  method AnswerRequest(trie: Trie, addrs: seq<Bytes>, ghost state: map<Bytes, Bytes>) returns (r: Result<seq<Bytes>>)
    requires trie.Valid() && Holds(trie.tree, state) && AccountState(state)
    requires NoClash(trie.kec, Encs(trie.kec, trie.tree))
    ensures r.Err? ==> r.error.MissingNode? && r.error.hash !in trie.db
    ensures r.Ok? ==> AllProven(trie.kec, r.value, trie.tree, Asked(addrs))
    ensures r.Ok? ==> forall e :: e in r.value ==> e in Encs(trie.kec, trie.tree)
  {
    hide Holds, Path, Enc, Encs, NoClash, AllProven;
    var proofs := [];
    NoneAsked(trie.kec, trie.tree, addrs[..0]);
    for i := 0 to |addrs|
      invariant AllProven(trie.kec, proofs, trie.tree, Asked(addrs[..i]))
      invariant forall e :: e in proofs ==> e in Encs(trie.kec, trie.tree)
    {
      var db := Prove(trie, trie.kec(addrs[i]), 0, map[]);
      if db.Err? {
        return Err(db.error);
      }
      PathPut(trie.kec, trie.tree, state, trie.kec(addrs[i]));
      var es := Elements(db.value);
      OneMoreAsked(trie.kec, trie.tree, proofs, es, addrs, i);
      proofs := proofs + es;
    }
    assert addrs[..|addrs|] == addrs;
    r := Ok(proofs);
  }

  lemma NoneAsked(kec: Keccak, t: Tree, none: seq<Bytes>)
    requires none == []
    ensures AllProven(kec, [], t, Asked(none))
  {
  }

  lemma OneMoreAsked(kec: Keccak, t: Tree, proofs: seq<Bytes>, es: seq<Bytes>, addrs: seq<Bytes>, i: nat)
    requires i < |addrs| && AllProven(kec, proofs, t, Asked(addrs[..i]))
    requires forall p :: p in Path(t, KeybytesToHex(kec(addrs[i]))) ==> IsNode(p) && Enc(kec, p) in es
    ensures AllProven(kec, proofs + es, t, Asked(addrs[..i + 1]))
  {
    hide Enc, Path, IsNode, KeybytesToHex;
    assert addrs[..i + 1] == addrs[..i] + [addrs[i]];
  }

  lemma PathPut(kec: Keccak, t: Tree, state: map<Bytes, Bytes>, key: Bytes)
    requires Holds(t, state) && AccountState(state) && Canonical(t) && NoClash(kec, Encs(kec, t))
    ensures var path := Path(t, KeybytesToHex(key));
            (forall p :: p in path ==> IsNode(p)) &&
            var db := PutPath(kec, path, 0, 0, map[]);
            (forall p :: p in path ==> Enc(kec, p) in db.Values) && forall e :: e in db.Values ==> e in Encs(kec, t)
  {
    hide Enc, Encs, NoClash, Path, Get;
    PathNodes(kec, t, KeybytesToHex(key));
    if state == map[] {
      NilOrNode(kec, t, state);
      EmptyPath(kec, KeybytesToHex(key));
    } else {
      StateShape(t, state, map[]);
      PathLong(kec, t, 65, KeybytesToHex(key));
      PutWhole(kec, t, Path(t, KeybytesToHex(key)));
    }
  }

  // ---------- what the committee makes of it ----------

  /** Every node of a trie decodes, under any hash. */
  lemma {:induction false} NodesDecode(kec: Keccak, t: Tree, e: Bytes, h: Hash)
    requires Canonical(t) && Fits(kec, t) && e in Encs(kec, t)
    ensures DecodeNode(Some(h), e).Ok?
    decreases t
  {
    hide DecodeNode, Enc;
    if t != Nil && e == Enc(kec, t) {
      DecodeEnc(kec, t, Some(h), []);
      assert e + [] == e;
    } else {
      match t
      case Short(key, c) => NodesDecode(kec, c, e, h);
      case Full(cs) =>
        var i :| 0 <= i < |cs| && e in Encs(kec, cs[i]);
        NodesDecode(kec, cs[i], e, h);
    }
  }

  ghost function NodeHashes(kec: Keccak, t: Tree): (s: set<Hash>)
    requires Child(t)
  {
    set e | e in Encs(kec, t) :: kec(e)
  }

  lemma {:induction false} VisitedLess(kec: Keccak, dom: set<Hash>, more: set<Hash>, t: Tree)
    requires Child(t) && dom <= more
    ensures Visited(kec, dom, t) <= Visited(kec, more, t)
    decreases t, 1, 0
  {
    hide Enc;
    if IsNode(t) && kec(Enc(kec, t)) in dom {
      if t.Short? {
        VisitedLess(kec, dom, more, t.child);
      } else {
        VisitedUpToLess(kec, dom, more, t, 17);
      }
    }
  }

  lemma {:induction false} VisitedUpToLess(kec: Keccak, dom: set<Hash>, more: set<Hash>, t: Tree, n: nat)
    requires t.Full? && IsNode(t) && dom <= more && n <= |t.children|
    requires forall i :: 0 <= i < |t.children| ==> Child(t.children[i])
    ensures VisitedUpTo(kec, dom, t.children, n) <= VisitedUpTo(kec, more, t.children, n)
    decreases t, 0, n
  {
    hide Visited;
    if n > 0 {
      VisitedUpToLess(kec, dom, more, t, n - 1);
      VisitedLess(kec, dom, more, t.children[n - 1]);
    }
  }

  /** With fewer nodes recorded, fewer can be met twice. */
  lemma {:induction false} DistinctLess(kec: Keccak, dom: set<Hash>, more: set<Hash>, t: Tree)
    requires Child(t) && dom <= more && Distinct(kec, more, t)
    ensures Distinct(kec, dom, t)
    decreases t
  {
    hide Enc;
    if IsNode(t) && kec(Enc(kec, t)) in dom {
      if t.Short? {
        VisitedLess(kec, dom, more, t.child);
        DistinctLess(kec, dom, more, t.child);
      } else {
        VisitedUpToLess(kec, dom, more, t, 17);
        forall i | 0 <= i < 17
          ensures Distinct(kec, dom, t.children[i]) &&
                  VisitedUpTo(kec, dom, t.children, i) !! Visited(kec, dom, t.children[i])
        {
          DistinctLess(kec, dom, more, t.children[i]);
          VisitedUpToLess(kec, dom, more, t, i);
          VisitedLess(kec, dom, more, t.children[i]);
        }
      }
    }
  }

  lemma AnswerStrings(kec: Keccak, t: Tree, proofs: seq<Bytes>)
    requires Child(t) && forall e :: e in proofs ==> e in Encs(kec, t)
    ensures Strings(kec, proofs, t) == Encs(kec, t) + {EncodeString([])} && Hashes(kec, proofs) <= NodeHashes(kec, t)
  {
    hide Encs;
  }

  /**
    A block from end to end: the committee asks for the related accounts, the
    shard answers from its trie, the committee executes and rebuilds the root.
    The root is that of the shard's own run; apart from a node missing in the
    shard's store, a negative balance is all that can go wrong.
   */
  method RequestAndExecute(trie: Trie, txs: seq<Tx>, data: map<Bytes, Bytes>, ghost full: Accounts,
                           ghost state: map<Bytes, Bytes>)
    returns (r: Result<Hash>)
    requires trie.Valid() && Holds(trie.tree, state) && Fits(trie.kec, trie.tree)
    requires data.Keys == Related(txs) && Answered(trie.kec, full, data, state)
    requires NoClash(trie.kec, Encs(trie.kec, trie.tree) + {EncodeString([])})
    requires Distinct(trie.kec, NodeHashes(trie.kec, trie.tree), trie.tree)
    modifies trie
    ensures r.Ok? ==> forall after, u :: IsState(trie.kec, ExecuteAll(full, txs), after) && Holds(u, after) ==>
                        r == Ok(RootHash(trie.kec, u))
    ensures r.Err? ==> (r.error.MissingNode? && r.error.hash !in trie.db) || !Solvent(ExecuteAll(full, txs))
  {
    ghost var t := trie.tree;
    StateIsAccounts(trie.kec, full, state);
    NoClashWithin(trie.kec, Encs(trie.kec, t) + {EncodeString([])}, Encs(trie.kec, t));
    hide Holds, Fits, Encs, NoClash, Distinct, Answered, AllProven, IsState, Related, ExecuteAll, RootHash, Strings,
         Hashes, NodeHashes, DecodeNode, AccountState, Solvent;
    var root := trie.Hash();
    var addrs := RelatedAddrs(txs);
    var proofs := AnswerRequest(trie, addrs, state);
    if proofs.Err? {
      return Err(proofs.error);
    }
    AnswerStrings(trie.kec, t, proofs.value);
    DistinctLess(trie.kec, Hashes(trie.kec, proofs.value), NodeHashes(trie.kec, t), t);
    forall p | p in proofs.value ensures DecodeNode(Some(trie.kec(p)), p).Ok? {
      NodesDecode(trie.kec, t, p, trie.kec(p));
    }
    r := BlockRoot(trie.kec, root, proofs.value, data, txs, full, state, t);
  }
}
