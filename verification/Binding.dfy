/**
  What a state root stands for: it determines the trie, the entries and the
  accounts, as long as no two of the node encodings involved collide.
 */
module Binding {
  import opened Bytes
  import opened Keys
  import opened Rlp
  import opened Tree
  import opened TreeUnique
  import opened Codec
  import opened Nodes
  import opened Proof
  import opened RebuildRoot
  import opened Ledger
  import opened AccountEntry
  import opened Execution

  // ---------- a node determines its trie ----------

  /** Tries with the same encoding are the same trie. */
  lemma {:induction false} EncInjective(kec: Keccak, s: Tree, t: Tree, all: set<Bytes>)
    requires Canonical(s) && Canonical(t) && s != Nil && t != Nil && Fits(kec, s) && Fits(kec, t)
    requires NoClash(kec, all) && Encs(kec, s) <= all && Encs(kec, t) <= all && Enc(kec, s) == Enc(kec, t)
    ensures s == t
    decreases s, 3
  {
    hide Enc, Shallow, NoClash, Encs, Fits;
    DecodeEnc(kec, s, None, []);
    DecodeEnc(kec, t, None, []);
    ShallowInjective(kec, s, t, all);
  }

  lemma ShallowInjective(kec: Keccak, s: Tree, t: Tree, all: set<Bytes>)
    requires Canonical(s) && Canonical(t) && s != Nil && t != Nil && Fits(kec, s) && Fits(kec, t)
    requires NoClash(kec, all) && Encs(kec, s) <= all && Encs(kec, t) <= all
    requires Shallow(kec, s, None) == Shallow(kec, t, None)
    ensures s == t
    decreases s, 2
  {
    hide Enc, NoClash, Encs, ShallowRef;
    EncsBelow(kec, s);
    EncsBelow(kec, t);
    FitsBelow(kec, s);
    FitsBelow(kec, t);
    hide Fits;
    if s.Short? {
      assert ShallowRef(kec, s.child) == ShallowRef(kec, t.child);
      RefInjective(kec, s.child, t.child, all);
    } else {
      FullChildren(s);
      FullChildren(t);
      forall i | 0 <= i < 17 ensures s.children[i] == t.children[i] {
        assert ShallowRefs(kec, s.children)[i] == ShallowRefs(kec, t.children)[i];
        RefInjective(kec, s.children[i], t.children[i], all);
      }
      assert s.children == t.children;
    }
  }

  lemma RefInjective(kec: Keccak, s: Tree, t: Tree, all: set<Bytes>)
    requires Child(s) && Child(t) && Fits(kec, s) && Fits(kec, t)
    requires NoClash(kec, all) && Encs(kec, s) <= all && Encs(kec, t) <= all
    requires ShallowRef(kec, s) == ShallowRef(kec, t)
    ensures s == t
    decreases s, 4
  {
    hide Enc, Shallow, Encs, Fits, Canonical;
    if s != Nil && !s.Value? {
      assert IsNode(s) && IsNode(t);
      EncsBelow(kec, s);
      EncsBelow(kec, t);
      if |Enc(kec, s)| < 32 {
        ShallowInjective(kec, s, t, all);
      } else {
        EncInjective(kec, s, t, all);
      }
    }
  }

  /** The root hash determines the trie. */
  lemma RootBinds(kec: Keccak, s: Tree, t: Tree)
    requires Canonical(s) && Canonical(t) && Fits(kec, s) && Fits(kec, t) && RootHash(kec, s) == RootHash(kec, t)
    requires NoClash(kec, Encs(kec, s) + Encs(kec, t) + {EncodeString([])})
    ensures s == t
  {
    hide Enc, Fits;
    var all := Encs(kec, s) + Encs(kec, t) + {EncodeString([])};
    if s != Nil && t != Nil {
      EncsBelow(kec, s);
      EncsBelow(kec, t);
      hide Encs;
      EncInjective(kec, s, t, all);
    } else if s != t {
      var u := if s == Nil then t else s;
      EncsBelow(kec, u);
      NotEmpty(kec, u);
      assert false;
    }
  }

  lemma NotEmpty(kec: Keccak, t: Tree)
    requires Canonical(t) && t != Nil
    ensures Enc(kec, t) != EncodeString([])
  {
  }

  // ---------- a root determines the accounts ----------

  /** The same entries come from the same accounts. */
  lemma EntriesBind(kec: Keccak, a: Accounts, b: Accounts, state: map<Bytes, Bytes>)
    requires IsState(kec, a, state) && IsState(kec, b, state) && NoClash(kec, a.Keys + b.Keys)
    requires forall h :: h in state ==> |state[h]| < SIZE_LIMIT
    ensures a == b
  {
    hide EncodeAccount;
    forall k | k in a ensures k in b && a[k] == b[k] {
      assert kec(k) in state;
      var j :| j in b && kec(j) == kec(k);
      assert j == k;
      AccountInjective(kec, a[k], b[k]);
    }
    forall k | k in b ensures k in a {
      assert kec(k) in state;
      var j :| j in a && kec(j) == kec(k);
      assert j == k;
    }
  }

  /**
    Two states with the same root have the same accounts: no nonce and no
    balance can differ behind equal roots.
   */
  lemma StateBinds(kec: Keccak, a: Accounts, s: map<Bytes, Bytes>, t: Tree, b: Accounts, r: map<Bytes, Bytes>, u: Tree)
    requires IsState(kec, a, s) && Holds(t, s) && IsState(kec, b, r) && Holds(u, r)
    requires Fits(kec, t) && Fits(kec, u) && RootHash(kec, t) == RootHash(kec, u)
    requires NoClash(kec, Encs(kec, t) + Encs(kec, u) + {EncodeString([])}) && NoClash(kec, a.Keys + b.Keys)
    requires forall h :: h in s ==> |s[h]| < SIZE_LIMIT
    ensures a == b
  {
    hide IsState, Fits, NoClash, RootHash, Encs;
    RootBinds(kec, t, u);
    MapOf(t, s, r);
    EntriesBind(kec, a, b, s);
  }

  /** A trie holds one map only. */
  lemma MapOf(t: Tree, s: map<Bytes, Bytes>, r: map<Bytes, Bytes>)
    requires Holds(t, s) && Holds(t, r)
    ensures s == r
  {
    hide Get, Canonical, KeybytesToHex;
    forall k ensures Lookup(s, k) == Lookup(r, k) {
      assert Get(t, KeybytesToHex(k)) == Lookup(s, k);
    }
    assert forall k :: k in s <==> Lookup(s, k).Some?;
    assert forall k :: k in r <==> Lookup(r, k).Some?;
  }
}
