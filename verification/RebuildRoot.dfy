/**
  From the shard's reply to the new state root: decoding the proofs
  (`analyseStates`), and the theorem that the rebuilt root is the root of the
  full trie after the same updates.
 */
module RebuildRoot {
  import opened Bytes
  import opened Keys
  import opened Rlp
  import opened Tree
  import opened TreeMap
  import opened TreeUnique
  import opened Codec
  import opened Nodes
  import opened Proof
  import opened Rebuild

  // ---------- decoding the proofs ----------

  ghost function Hashes(kec: Keccak, proofs: seq<Bytes>): (s: set<Hash>) {
    set p | p in proofs :: kec(p)
  }

  /** A proof node is the decoding of some proof element that has its hash. */
  ghost predicate EntryOk(kec: Keccak, proofs: seq<Bytes>, h: Hash, n: Node) {
    exists p :: p in proofs && kec(p) == h && DecodesTo(h, p, n)
  }

  ghost predicate DecodesTo(h: Hash, p: Bytes, n: Node) {
    var r := DecodeNode(Some(h), p);
    r.Ok? && (r.value.ShortNode? || r.value.FullNode?) && n == r.value.(flags := NO_FLAG)
  }

  ghost predicate FromProofs(kec: Keccak, proofs: seq<Bytes>, s: map<Hash, Node>) {
    forall h :: h in s ==> EntryOk(kec, proofs, h, s[h])
  }

  /** `analyseStates`, as far as proofs go: one object for each hash, made from the first element that has it. */
  method AnalyseStates(kec: Keccak, proofs: seq<Bytes>) returns (r: Result<NodeMap>)
    ensures r.Ok? ==> fresh(r.value.Values) && Separate(r.value)
    ensures r.Ok? ==> r.value.Keys == Hashes(kec, proofs) && FromProofs(kec, proofs, Snapshot(r.value))
    ensures r.Err? ==> exists p :: p in proofs && DecodeNode(Some(kec(p)), p).Err?
  {
    hide DecodesTo, EntryOk, Hashes, DecodeNode;
    var m: NodeMap, i := map[], 0;
    HashesStep(kec, proofs, 0);
    while i < |proofs|
      invariant 0 <= i <= |proofs|
      invariant fresh(m.Values)
      invariant Separate(m)
      invariant m.Keys == Hashes(kec, proofs[..i])
      invariant FromProofs(kec, proofs, Snapshot(m))
    {
      var p := proofs[i];
      var hash := kec(p);
      HashesStep(kec, proofs, i);
      if hash !in m {
        var n := DecodeNode(Some(hash), p);
        if n.Err? {
          return Err(Panic);
        }
        DecodeNodeShape(Some(hash), p);
        EntryMade(kec, proofs, p, n.value);
        ghost var was, had := Snapshot(m), m;
        var node := new ProofNode(n.value);
        m := m[hash := node];
        ValuesAfter(had, hash, node);
        FromProofsAfter(kec, proofs, was, Snapshot(m), hash);
      }
      i := i + 1;
    }
    assert proofs[..|proofs|] == proofs;
    r := Ok(m);
  }

  lemma ValuesAfter(m: NodeMap, hash: Hash, node: ProofNode)
    requires hash !in m
    ensures m[hash := node].Values == m.Values + {node}
    ensures Separate(m) && node !in m.Values ==> Separate(m[hash := node])
  {
    var r := m[hash := node];
    forall v | v in m.Values + {node} ensures v in r.Values {
      if v != node {
        var h :| h in m && m[h] == v;
        assert r[h] == v;
      } else {
        assert r[hash] == node;
      }
    }
  }

  lemma FromProofsAfter(kec: Keccak, proofs: seq<Bytes>, s: map<Hash, Node>, r: map<Hash, Node>, hash: Hash)
    requires FromProofs(kec, proofs, s) && r.Keys == s.Keys + {hash}
    requires forall h :: h in s ==> r[h] == s[h]
    requires EntryOk(kec, proofs, hash, r[hash])
    ensures FromProofs(kec, proofs, r)
  {
    hide EntryOk;
  }

  lemma HashesStep(kec: Keccak, proofs: seq<Bytes>, i: nat)
    requires i <= |proofs|
    ensures i == 0 ==> Hashes(kec, proofs[..i]) == {}
    ensures i < |proofs| ==> Hashes(kec, proofs[..i + 1]) == Hashes(kec, proofs[..i]) + {kec(proofs[i])}
  {
    if i < |proofs| {
      assert proofs[..i + 1] == proofs[..i] + [proofs[i]];
    }
  }

  lemma EntryMade(kec: Keccak, proofs: seq<Bytes>, p: Bytes, n: Node)
    requires p in proofs && DecodeNode(Some(kec(p)), p) == Ok(n) && (n.ShortNode? || n.FullNode?)
    ensures EntryOk(kec, proofs, kec(p), n.(flags := NO_FLAG))
  {
    hide DecodeNode;
    assert DecodesTo(kec(p), p, n.(flags := NO_FLAG));
  }

  // ---------- the proof nodes match the trie ----------

  lemma {:induction false} ProofsPristine(kec: Keccak, proofs: seq<Bytes>, s: map<Hash, Node>, t: Tree, all: set<Bytes>)
    requires Child(t) && Fits(kec, t) && FromProofs(kec, proofs, s) && NoClash(kec, all)
    requires Encs(kec, t) <= all && forall p :: p in proofs ==> p in all
    ensures Pristine(kec, s, t)
    decreases t
  {
    hide Enc, Fits, Shallow, FromProofs, NoClash;
    if IsNode(t) {
      EncsBelow(kec, t);
      FitsBelow(kec, t);
      if kec(Enc(kec, t)) in s {
        PristineHere(kec, proofs, s, t, all);
        if t.Short? {
          ProofsPristine(kec, proofs, s, t.child, all);
        } else {
          forall i | 0 <= i < 17 ensures Pristine(kec, s, t.children[i]) {
            ProofsPristine(kec, proofs, s, t.children[i], all);
          }
        }
      }
    }
  }

  lemma EncsBelow(kec: Keccak, t: Tree)
    requires IsNode(t)
    ensures Enc(kec, t) in Encs(kec, t)
    ensures t.Short? ==> Encs(kec, t.child) <= Encs(kec, t)
    ensures t.Full? ==> |t.children| == 17 && forall i :: 0 <= i < 17 ==> Encs(kec, t.children[i]) <= Encs(kec, t)
  {
    hide Enc;
    if t.Full? {
      forall i, e | 0 <= i < 17 && e in Encs(kec, t.children[i]) ensures e in Encs(kec, t) {
      }
    }
  }

  lemma FitsBelow(kec: Keccak, t: Tree)
    requires IsNode(t) && Fits(kec, t)
    ensures t.Short? ==> Fits(kec, t.child)
    ensures t.Full? ==> |t.children| == 17 && forall i :: 0 <= i < 17 ==> Fits(kec, t.children[i])
  {
    hide Enc;
  }

  lemma PristineHere(kec: Keccak, proofs: seq<Bytes>, s: map<Hash, Node>, t: Tree, all: set<Bytes>)
    requires IsNode(t) && Fits(kec, t) && FromProofs(kec, proofs, s) && NoClash(kec, all)
    requires Enc(kec, t) in all && forall p :: p in proofs ==> p in all
    requires kec(Enc(kec, t)) in s
    ensures s[kec(Enc(kec, t))] == Shallow(kec, t, None)
  {
    hide Enc, Fits, DecodeNode;
    var h := kec(Enc(kec, t));
    assert EntryOk(kec, proofs, h, s[h]);
    var p :| p in proofs && kec(p) == h && DecodesTo(h, p, s[h]);
    assert p == Enc(kec, t);
    DecodeEnc(kec, t, Some(h), []);
    assert Enc(kec, t) + [] == Enc(kec, t);
  }

  // ---------- the proof nodes reach every update ----------

  /** Every proof node that an updated key needs below this point is there. */
  ghost predicate Covering(kec: Keccak, dom: set<Hash>, t: Tree, prefix: Bytes, upd: map<Bytes, Bytes>)
    requires Child(t)
  {
    forall k, q :: k in upd && HexKey(q) && KeybytesToHex(k) == prefix + q ==> PathIn(kec, dom, t, q)
  }

  ghost predicate PathIn(kec: Keccak, dom: set<Hash>, t: Tree, q: Bytes) {
    forall p :: p in Path(t, q) ==> IsNode(p) && kec(Enc(kec, p)) in dom
  }

  lemma {:induction false} CoveringReached(kec: Keccak, dom: set<Hash>, t: Tree, prefix: Bytes, upd: map<Bytes,
                                           Bytes>, n: int)
    requires Child(t) && StateTrie(t, n) && Nibbles(prefix) && Covering(kec, dom, t, prefix, upd)
    ensures Reached(kec, dom, t, prefix, upd)
    decreases t
  {
    hide Enc, Covering, StateTrie, Replace;
    if IsNode(t) {
      if kec(Enc(kec, t)) !in dom {
        NothingBelow(kec, dom, t, prefix, upd, n);
      } else if t.Short? {
        CoveringShort(kec, dom, t, prefix, upd, n);
        if !HasTerm(t.key) {
          CoveringReached(kec, dom, t.child, prefix + t.key, upd, n - |t.key|);
        }
      } else {
        forall i: byte | i < 17 ensures Reached(kec, dom, t.children[i], prefix + [i], upd) {
          CoveringFull(kec, dom, t, prefix, upd, n, i);
          if i < 16 {
            CoveringReached(kec, dom, t.children[i], prefix + [i], upd, n - 1);
          }
        }
      }
    }
  }

  lemma CoveringShort(kec: Keccak, dom: set<Hash>, t: Tree, prefix: Bytes, upd: map<Bytes, Bytes>, n: int)
    requires t.Short? && IsNode(t) && StateTrie(t, n) && Nibbles(prefix) && Covering(kec, dom, t, prefix, upd)
    ensures HasTerm(t.key) ==> t.child.Value?
    ensures !HasTerm(t.key) ==>
              StateTrie(t.child, n - |t.key|) && Nibbles(prefix + t.key) &&
              Covering(kec, dom, t.child, prefix + t.key, upd)
  {
    hide Enc, PathIn, KeybytesToHex;
    if !HasTerm(t.key) {
      forall k, q | k in upd && HexKey(q) && KeybytesToHex(k) == prefix + t.key + q
        ensures PathIn(kec, dom, t.child, q)
      {
        ConcatPath(t.key, q);
        assert prefix + t.key + q == prefix + (t.key + q);
        PathBelow(kec, dom, t, q);
      }
    }
  }

  lemma PathBelow(kec: Keccak, dom: set<Hash>, t: Tree, q: Bytes)
    requires t.Short? && PathIn(kec, dom, t, t.key + q)
    ensures PathIn(kec, dom, t.child, q)
  {
    hide Enc;
    assert (t.key + q)[|t.key|..] == q;
    assert Path(t, t.key + q) == [t] + Path(t.child, q);
  }

  lemma CoveringFull(kec: Keccak, dom: set<Hash>, t: Tree, prefix: Bytes, upd: map<Bytes, Bytes>, n: int, i: byte)
    requires t.Full? && IsNode(t) && StateTrie(t, n) && Nibbles(prefix) && Covering(kec, dom, t, prefix, upd) && i < 17
    ensures |t.children| == 17 && Child(t.children[i]) && (i == 16 ==> t.children[i] == Nil)
    ensures i < 16 ==> StateTrie(t.children[i], n - 1) && Nibbles(prefix + [i]) &&
                       Covering(kec, dom, t.children[i], prefix + [i], upd)
  {
    hide Enc, KeybytesToHex;
    if i < 16 {
      hide StateTrie, Canonical;
      forall k, q | k in upd && HexKey(q) && KeybytesToHex(k) == prefix + [i] + q
        ensures PathIn(kec, dom, t.children[i], q)
      {
        ConcatPath([i], q);
        assert prefix + [i] + q == prefix + ([i] + q);
        assert PathIn(kec, dom, t, [i] + q);
        assert ([i] + q)[1..] == q;
      }
    }
  }

  /** Below a node that is in no proof, no value changes. */
  lemma NothingBelow(kec: Keccak, dom: set<Hash>, t: Tree, prefix: Bytes, upd: map<Bytes, Bytes>, n: int)
    requires IsNode(t) && StateTrie(t, n) && Nibbles(prefix) && Covering(kec, dom, t, prefix, upd)
    requires kec(Enc(kec, t)) !in dom
    ensures Replace(t, prefix, upd) == t
  {
    hide Enc, Replace, StateTrie, Covering, Updated;
    forall q | HexKey(q) ensures !Updated(prefix + q, upd) {
      NotUpdated(kec, dom, t, prefix, upd, q);
    }
    ReplaceNone(t, prefix, upd, n);
  }

  lemma NotUpdated(kec: Keccak, dom: set<Hash>, t: Tree, prefix: Bytes, upd: map<Bytes, Bytes>, q: Bytes)
    requires IsNode(t) && Nibbles(prefix) && Covering(kec, dom, t, prefix, upd) && HexKey(q)
    requires kec(Enc(kec, t)) !in dom
    ensures !Updated(prefix + q, upd)
  {
    hide Enc;
    assert Path(t, q)[0] == t;
    assert !PathIn(kec, dom, t, q);
    hide Path, PathIn, KeybytesToHex, Updated;
    ConcatPath(prefix, q);
    UpdatedKey(prefix + q, upd);
  }

  lemma UpdatedKey(path: Bytes, upd: map<Bytes, Bytes>)
    requires HexKey(path)
    ensures Updated(path, upd) ==> exists k :: k in upd && KeybytesToHex(k) == path
  {
    hide KeybytesToHex, Pack;
    if |path| % 2 == 1 {
      HexRoundTrip(path);
    }
  }

  ghost predicate Updated(path: Bytes, upd: map<Bytes, Bytes>) {
    HexPath(path) && HexToKeybytes(path).Ok? && HexToKeybytes(path).value in upd
  }

  /** No updated key starts with this prefix. */
  ghost predicate NoneBelow(prefix: Bytes, upd: map<Bytes, Bytes>) {
    forall q :: HexKey(q) ==> !Updated(prefix + q, upd)
  }

  lemma NoneBelowMore(prefix: Bytes, k: Bytes, upd: map<Bytes, Bytes>)
    requires NoneBelow(prefix, upd) && Nibbles(k)
    ensures NoneBelow(prefix + k, upd)
  {
    hide Updated;
    forall q | HexKey(q) ensures !Updated(prefix + k + q, upd) {
      ConcatPath(k, q);
      assert prefix + k + q == prefix + (k + q);
    }
  }

  lemma {:induction false} ReplaceNone(t: Tree, prefix: Bytes, upd: map<Bytes, Bytes>, n: int)
    requires Canonical(t) && StateTrie(t, n) && NoneBelow(prefix, upd)
    ensures Replace(t, prefix, upd) == t
    decreases t
  {
    match t
    case Nil =>
    case Short(k, c) =>
      if HasTerm(k) {
        assert !Updated(prefix + k, upd);
        NewValueNone(prefix + k, c.v, upd);
      } else {
        hide NoneBelow;
        NoneBelowMore(prefix, k, upd);
        ReplaceNone(c, prefix + k, upd, n - |k|);
      }
    case Full(cs) =>
      hide NoneBelow;
      forall i: byte | i < 16 ensures Replace(cs[i], prefix + [i], upd) == cs[i] {
        NoneBelowMore(prefix, [i], upd);
        ReplaceNone(cs[i], prefix + [i], upd, n - 1);
      }
      assert Replace(t, prefix, upd).children == cs;
  }

  lemma NewValueNone(path: Bytes, v: Bytes, upd: map<Bytes, Bytes>)
    requires !Updated(path, upd)
    ensures NewValue(path, v, upd) == v
  {
  }

  // ---------- the committee's new root ----------

  /** A state map as the shards keep it: 32-byte keys (address hashes) and values of at least 32 bytes. */
  predicate AccountState(state: map<Bytes, Bytes>) {
    forall k :: k in state ==> |k| == 32 && |state[k]| >= 32
  }

  /** The elements hold the whole path of every updated key. */
  ghost predicate Proven(kec: Keccak, proofs: seq<Bytes>, t: Tree, upd: map<Bytes, Bytes>) {
    forall k, p :: k in upd && p in Path(t, KeybytesToHex(k)) ==> IsNode(p) && Enc(kec, p) in proofs
  }

  /** The strings that must not collide: the node encodings of the trie, the empty one, and the proof elements. */
  ghost function Strings(kec: Keccak, proofs: seq<Bytes>, t: Tree): (s: set<Bytes>)
    requires Child(t)
  {
    Encs(kec, t) + {EncodeString([])} + set p | p in proofs
  }

  /**
    The committee never sees the trie: from the old root, the proof elements
    and the updated accounts it computes the root of every trie that holds the
    updated state. The only other outcome is the panic on an element that is
    no trie node.
   */
  method NewStateRoot(kec: Keccak, root: Hash, proofs: seq<Bytes>, upd: map<Bytes, Bytes>,
                      ghost t: Tree, ghost state: map<Bytes, Bytes>)
    returns (r: Result<Hash>)
    requires Holds(t, state) && AccountState(state) && root == RootHash(kec, t)
    requires upd.Keys <= state.Keys && LongValues(upd) && Proven(kec, proofs, t, upd)
    requires Fits(kec, t) && NoClash(kec, Strings(kec, proofs, t)) && Distinct(kec, Hashes(kec, proofs), t)
    ensures r.Ok? ==> forall u :: Holds(u, state + upd) ==> r == Ok(RootHash(kec, u))
    ensures r.Err? ==> exists p :: p in proofs && DecodeNode(Some(kec(p)), p).Err?
  {
    assert Child(t);
    hide Get, Enc, Canonical, Child, Fits, NoClash, Distinct, Proven, Matched, FromProofs, Hashes, Strings, RootHash,
         NewHash, DecodeNode, Shape;
    var m := AnalyseStates(kec, proofs);
    if m.Err? {
      return Err(m.error);
    }
    EmptyNotProven(kec, proofs, Snapshot(m.value), t);
    if root !in m.value {
      r := Ok(root);
      forall u | Holds(u, state + upd) ensures r == Ok(RootHash(kec, u)) {
        Untouched(kec, proofs, Snapshot(m.value), t, state, upd, u);
      }
    } else {
      NilOrNode(kec, t, state);
      StateShape(t, state, upd);
      ProofsMatch(kec, proofs, Snapshot(m.value), t, upd);
      r := RebuildHelper(kec, root, m.value, [], upd, t, 65);
      forall u | Holds(u, state + upd) ensures r == Ok(RootHash(kec, u)) {
        NewHashIsRoot(kec, t, state, upd, u);
      }
    }
  }

  /** The encoding of the empty trie is no node, so no proof node has its hash. */
  lemma EmptyNotProven(kec: Keccak, proofs: seq<Bytes>, s: map<Hash, Node>, t: Tree)
    requires Child(t) && FromProofs(kec, proofs, s) && NoClash(kec, Strings(kec, proofs, t))
    ensures kec(EncodeString([])) !in s
  {
    hide Encs;
    var e := EncodeString([]);
    forall x | x in s ensures x != kec(e) {
      assert EntryOk(kec, proofs, x, s[x]);
      var p :| p in proofs && kec(p) == x && DecodesTo(x, p, s[x]);
      assert DecodeNode(Some(x), e).Err?;
      assert p != e && p in Strings(kec, proofs, t) && e in Strings(kec, proofs, t);
    }
  }

  lemma NilOrNode(kec: Keccak, t: Tree, state: map<Bytes, Bytes>)
    requires Holds(t, state)
    ensures state == map[] ==> t == Nil && RootHash(kec, t) == kec(EncodeString([]))
  {
    if state == map[] && t != Nil {
      var k := SomeKey(t);
      if |k| % 2 == 1 {
        HexRoundTrip(k);
      }
      assert false;
    }
  }

  /** Without a proof node for the root, nothing is updated and the root stays. */
  lemma Untouched(kec: Keccak, proofs: seq<Bytes>, s: map<Hash, Node>, t: Tree, state: map<Bytes, Bytes>,
                  upd: map<Bytes, Bytes>, u: Tree)
    requires Holds(t, state) && AccountState(state) && RootHash(kec, t) !in s && s.Keys == Hashes(kec, proofs)
    requires upd.Keys <= state.Keys && LongValues(upd) && Proven(kec, proofs, t, upd) && Holds(u, state + upd)
    requires Fits(kec, t) && FromProofs(kec, proofs, s) && NoClash(kec, Strings(kec, proofs, t)) &&
             Distinct(kec, Hashes(kec, proofs), t)
    ensures Canonical(u) && RootHash(kec, u) == RootHash(kec, t)
  {
    hide Get, Enc, Fits, NoClash, Distinct, Proven, FromProofs, Hashes, Strings, Shape, Canonical, Pristine;
    if state == map[] {
      assert state + upd == state;
      HoldsUnique(t, u, state);
    } else {
      StateShape(t, state, upd);
      ProofsMatch(kec, proofs, s, t, upd);
      NewHashIsRoot(kec, t, state, upd, u);
      assert Replace(t, [], upd) == t;
    }
  }

  lemma StateShape(t: Tree, state: map<Bytes, Bytes>, upd: map<Bytes, Bytes>)
    requires Holds(t, state) && state != map[] && AccountState(state) && LongValues(upd)
    ensures IsNode(t) && Shape(t, [], upd, 65) && forall kec: Keccak :: RootHash(kec, t) == kec(Enc(kec, t))
  {
    hide Get, Enc, Canonical;
    CanonicalShape(t);
    forall q | HexKey(q) && Get(t, q).Some? ensures |q| == 65 && |Get(t, q).value| >= 32 {
      HexRoundTrip(q);
      var k := HexToKeybytes(q).value;
      assert Get(t, KeybytesToHex(k)) == Lookup(state, k);
    }
    StateTrieOfMap(t, 65);
    var k :| k in state;
    assert Get(t, KeybytesToHex(k)) == Lookup(state, k);
    NonEmpty(t, KeybytesToHex(k));
  }

  lemma NonEmpty(t: Tree, k: Bytes)
    requires Get(t, k).Some?
    ensures t != Nil
  {
  }

  lemma ProofsMatch(kec: Keccak, proofs: seq<Bytes>, s: map<Hash, Node>, t: Tree, upd: map<Bytes, Bytes>)
    requires IsNode(t) && Shape(t, [], upd, 65) && Fits(kec, t) && Proven(kec, proofs, t, upd)
    requires s.Keys == Hashes(kec, proofs) && FromProofs(kec, proofs, s)
    requires NoClash(kec, Strings(kec, proofs, t)) && Distinct(kec, Hashes(kec, proofs), t)
    ensures Matched(kec, s, t, [], upd)
  {
    hide Pristine, Distinct, Reached, Enc, Fits, NoClash, FromProofs, Path, Encs, StateTrie;
    ProofsPristine(kec, proofs, s, t, Strings(kec, proofs, t));
    ProvenCovering(kec, proofs, t, upd);
    hide Covering, Proven, Hashes, Strings;
    CoveringReached(kec, s.Keys, t, [], upd, 65);
  }

  lemma ProvenCovering(kec: Keccak, proofs: seq<Bytes>, t: Tree, upd: map<Bytes, Bytes>)
    requires Child(t) && Proven(kec, proofs, t, upd)
    ensures Covering(kec, Hashes(kec, proofs), t, [], upd)
  {
    hide Enc, Path, Child, IsNode, KeybytesToHex, HexKey, PathIn, Hashes;
    forall k, q | k in upd && HexKey(q) && KeybytesToHex(k) == [] + q
      ensures PathIn(kec, Hashes(kec, proofs), t, q)
    {
      assert [] + q == q;
      PathProven(kec, proofs, Path(t, q), t, q);
    }
  }

  lemma PathProven(kec: Keccak, proofs: seq<Bytes>, path: seq<Tree>, t: Tree, q: Bytes)
    requires path == Path(t, q) && forall p :: p in path ==> IsNode(p) && Enc(kec, p) in proofs
    ensures PathIn(kec, Hashes(kec, proofs), t, q)
  {
    hide Enc, Path, IsNode;
  }

  lemma NewHashIsRoot(kec: Keccak, t: Tree, state: map<Bytes, Bytes>, upd: map<Bytes, Bytes>, u: Tree)
    requires IsNode(t) && Shape(t, [], upd, 65) && Holds(t, state) && upd.Keys <= state.Keys
    requires Holds(u, state + upd)
    ensures Canonical(u) && NewHash(kec, t, [], upd, 65) == RootHash(kec, u)
  {
    hide Enc, Get, StateTrie, Replace;
    ReplaceHolds(t, state, upd, 65);
    ReplaceShape(t, [], upd, 65);
    HoldsUnique(Replace(t, [], upd), u, state + upd);
  }
}
