/**
  The hasher of trie/hasher.go: it collapses a node to its hash, trusts hashes
  that are already cached, and returns a copy of the node with the new hashes
  cached. The result always equals hashing the trie from scratch.
 */
module Hashing {
  import opened Bytes
  import opened Keys
  import opened Rlp
  import opened Tree
  import opened Codec
  import opened Nodes

  datatype Hashed = Hashed(hashed: Node, cached: Node)

  /** `shortnodeToHash` and `fullnodeToHash`: small nodes stay as they are unless forced. */
  function ToHash(kec: Keccak, collapsed: Node, force: bool): (r: Node) {
    var enc := EncodeNode(collapsed);
    if |enc| < 32 && !force then collapsed else HashNode(kec(enc))
  }

  function CacheFlag(hashed: Node, f: Flag): (r: Flag) {
    Flag(if hashed.HashNode? then Some(hashed.h) else None, f.dirty)
  }

  /** `hashShortNodeChildren` and `hashFullNodeChildren`: the node with its children collapsed, and with their hashes cached. */
  function Collapse(kec: Keccak, n: Node, ghost db: Store, ghost t: Tree, ghost root: bool): (r: Hashed)
    requires Child(t) && Rep(kec, db, n, t, root) && (n.ShortNode? || n.FullNode?)
    ensures if n.ShortNode? then r.cached.ShortNode? && r.hashed.ShortNode?
            else r.cached.FullNode? && r.hashed.FullNode?
    decreases t, 0
  {
    match n
    case ShortNode(key, val, f) =>
      var v := if val.ShortNode? || val.FullNode? then HashOf(kec, val, false, db, t.child) else Hashed(val, val);
      Hashed(ShortNode(HexToCompact(key), v.hashed, f), ShortNode(key, v.cached, f))
    case FullNode(cs, f) =>
      var (hs, cached) := HashChildren(kec, cs[..16], db, t.children[..16]);
      Hashed(FullNode(hs + [cs[16]], f), FullNode(cached + [cs[16]], f))
  }

  function HashOf(kec: Keccak, n: Node, force: bool, ghost db: Store, ghost t: Tree): (r: Hashed)
    requires Child(t) && Rep(kec, db, n, t, force)
    decreases t, 1
  {
    if !(n.ShortNode? || n.FullNode?) then Hashed(n, n)
    else if n.flags.hash.Some? then Hashed(HashNode(n.flags.hash.value), n)
    else
      var c := Collapse(kec, n, db, t, force);
      var hashed := ToHash(kec, c.hashed, force);
      Hashed(hashed, c.cached.(flags := CacheFlag(hashed, n.flags)))
  }

  function HashChildren(kec: Keccak, cs: seq<Node>, ghost db: Store, ghost ts: seq<Tree>): (r: (seq<Node>, seq<Node>))
    requires |cs| == |ts| && forall i :: 0 <= i < |cs| ==> Child(ts[i]) && Rep(kec, db, cs[i], ts[i], false)
    ensures |r.0| == |cs| && |r.1| == |cs|
    decreases ts
  {
    if cs == [] then ([], [])
    else
      var more := HashChildren(kec, cs[1..], db, ts[1..]);
      if cs[0] == NilNode then ([ValueNode([])] + more.0, [NilNode] + more.1)
      else
        var h := HashOf(kec, cs[0], false, db, ts[0]);
        ([h.hashed] + more.0, [h.cached] + more.1)
  }

  /** The collapsed node encodes as its trie does inside a parent; a forced one is the hash of the encoding. */
  ghost predicate HashOk(kec: Keccak, db: Store, r: Hashed, t: Tree, force: bool)
    requires Child(t)
  {
    Rep(kec, db, r.cached, t, force) &&
    (if force && IsNode(t) then r.hashed == HashNode(kec(Enc(kec, t)))
     else EncodeNode(r.hashed) == Ref(kec, t))
  }

  lemma {:induction false} HashOfOk(kec: Keccak, db: Store, n: Node, t: Tree, force: bool)
    requires Child(t) && Rep(kec, db, n, t, force)
    ensures HashOk(kec, db, HashOf(kec, n, force, db, t), t, force)
    decreases t, 1
  {
    hide Collapse, ToHash, CacheFlag, Enc;
    if n.ShortNode? || n.FullNode? {
      NodeShape(kec, db, n, t, force);
      if n.flags.hash.Some? {
        CachedHashOk(kec, n.flags, t, force);
      } else {
        CollapseOk(kec, db, n, t, force);
        var c := Collapse(kec, n, db, t, force);
        ToHashOk(kec, c.hashed, n.flags, t, force);
        var f := CacheFlag(ToHash(kec, c.hashed, force), n.flags);
        ReflagRep(kec, db, c.cached, f, t, force);
      }
    }
  }

  lemma NodeShape(kec: Keccak, db: Store, n: Node, t: Tree, root: bool)
    requires Child(t) && Rep(kec, db, n, t, root) && (n.ShortNode? || n.FullNode?)
    ensures IsNode(t) && FlagOk(kec, n.flags, t, root) && (n.ShortNode? <==> t.Short?)
  {
  }

  lemma ReflagRep(kec: Keccak, db: Store, n: Node, f: Flag, t: Tree, root: bool)
    requires Child(t) && Rep(kec, db, n, t, root) && (n.ShortNode? || n.FullNode?)
    requires IsNode(t) && FlagOk(kec, f, t, root)
    ensures Rep(kec, db, n.(flags := f), t, root)
  {
  }

  /** The collapsed node encodes to the encoding computed from scratch. */
  lemma CollapseOk(kec: Keccak, db: Store, n: Node, t: Tree, root: bool)
    requires Child(t) && Rep(kec, db, n, t, root) && (n.ShortNode? || n.FullNode?)
    ensures var c := Collapse(kec, n, db, t, root);
            IsNode(t) && EncodeNode(c.hashed) == Enc(kec, t) && Rep(kec, db, c.cached, t, root)
    decreases t, 0
  {
    if n.ShortNode? {
      CollapseShortOk(kec, db, n, t, root);
    } else {
      CollapseFullOk(kec, db, n, t, root);
    }
  }

  /** From the collapsed node to the hash and the cached flag. */
  lemma ToHashOk(kec: Keccak, collapsed: Node, f: Flag, t: Tree, force: bool)
    requires IsNode(t) && EncodeNode(collapsed) == Enc(kec, t)
    requires !collapsed.HashNode?
    ensures var h := ToHash(kec, collapsed, force);
            FlagOk(kec, CacheFlag(h, f), t, force) &&
            (if force then h == HashNode(kec(Enc(kec, t))) else EncodeNode(h) == Ref(kec, t))
  {
    hide Enc;
  }

  lemma CollapseShortOk(kec: Keccak, db: Store, n: Node, t: Tree, root: bool)
    requires n.ShortNode? && Child(t) && Rep(kec, db, n, t, root)
    ensures var c := Collapse(kec, n, db, t, root);
            EncodeNode(c.hashed) == Enc(kec, t) && Rep(kec, db, c.cached, t, root)
    decreases t, 0, 0
  {
    hide HexToCompact, Ref, EncodeList, EncodeString;
    HashOfOk(kec, db, n.val, t.child, false);
  }

  lemma CachedHashOk(kec: Keccak, f: Flag, t: Tree, force: bool)
    requires IsNode(t) && FlagOk(kec, f, t, force) && f.hash.Some?
    ensures f.hash.value == kec(Enc(kec, t))
    ensures !force ==> EncodeNode(HashNode(f.hash.value)) == Ref(kec, t)
  {
  }

  lemma CollapseFullOk(kec: Keccak, db: Store, n: Node, t: Tree, root: bool)
    requires n.FullNode? && Child(t) && Rep(kec, db, n, t, root)
    ensures var c := Collapse(kec, n, db, t, root);
            EncodeNode(c.hashed) == Enc(kec, t) && Rep(kec, db, c.cached, t, root)
    decreases t, 0, 0
  {
    hide Ref, EncodeNode, Enc, Canonical, HashChildren;
    FullChildren(t);
    var r := HashChildren(kec, n.children[..16], db, t.children[..16]);
    HashChildrenOk(kec, db, n.children[..16], t.children[..16]);
    FullEncode(kec, db, r.0, n.children[16], n.flags, t);
  }

  lemma FullEncode(kec: Keccak, db: Store, hs: seq<Node>, last: Node, f: Flag, t: Tree)
    requires t.Full? && Canonical(t) && |hs| == 16
    requires forall i :: 0 <= i < 16 ==> EncodeNode(hs[i]) == Ref(kec, t.children[i])
    requires Rep(kec, db, last, t.children[16], false)
    ensures EncodeNode(FullNode(hs + [last], f)) == Enc(kec, t)
  {
    hide EncodeList, Concat, Ref, Rep, Canonical;
    FullChildren(t);
    LastSlot(kec, db, last, t);
    assert EncodeNodes(hs + [last]) == Refs(kec, t.children);
  }

  lemma LastSlot(kec: Keccak, db: Store, n: Node, t: Tree)
    requires t.Full? && Canonical(t) && Rep(kec, db, n, t.children[16], false)
    ensures EncodeNode(n) == Ref(kec, t.children[16])
  {
    hide EncodeString, Enc;
  }

  lemma {:induction false} HashChildrenOk(kec: Keccak, db: Store, cs: seq<Node>, ts: seq<Tree>)
    requires |cs| == |ts| && forall i :: 0 <= i < |cs| ==> Child(ts[i]) && Rep(kec, db, cs[i], ts[i], false)
    ensures var r := HashChildren(kec, cs, db, ts);
            forall i :: 0 <= i < |cs| ==>
              EncodeNode(r.0[i]) == Ref(kec, ts[i]) && Rep(kec, db, r.1[i], ts[i], false)
    decreases ts
  {
    hide Ref, Rep, EncodeNode;
    if cs != [] {
      HashChildrenOk(kec, db, cs[1..], ts[1..]);
      if cs[0] == NilNode {
        NilRef(kec, db, ts[0]);
      } else {
        HashOfOk(kec, db, cs[0], ts[0], false);
      }
    }
  }

  lemma NilRef(kec: Keccak, db: Store, t: Tree)
    requires Child(t) && Rep(kec, db, NilNode, t, false)
    ensures EncodeNode(ValueNode([])) == Ref(kec, t)
  {
  }
}
