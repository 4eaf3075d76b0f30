/**
  The trie as trie/trie.go keeps it in memory: sub-tries that are still only a
  hash are fetched from the node store when an operation reaches them, and
  nodes carry cached hashes. `Rep` says which trie such a node stands for;
  every operation is shown to do to that trie what module `Tree` does.
 */
module Nodes {
  import opened Bytes
  import opened Keys
  import opened Tree
  import opened TreeMap
  import opened TreeUnique
  import opened Codec

  type Store = map<Hash, Bytes>

  // ---------- which trie a node stands for ----------

  ghost predicate IsNode(t: Tree) {
    Canonical(t) && t != Nil
  }

  /** Where the store has an entry under the hash of one of the trie's nodes, it is that node. */
  ghost predicate Agrees(kec: Keccak, db: Store, t: Tree)
    requires Child(t)
  {
    match t
    case Nil => true
    case Value(_) => true
    case Short(_, c) => AgreesHere(kec, db, t) && Agrees(kec, db, c)
    case Full(cs) => AgreesHere(kec, db, t) && forall i :: 0 <= i < |cs| ==> Agrees(kec, db, cs[i])
  }

  ghost predicate AgreesHere(kec: Keccak, db: Store, t: Tree)
    requires IsNode(t)
  {
    kec(Enc(kec, t)) in db ==> db[kec(Enc(kec, t))] == Enc(kec, t)
  }

  /**
    A cached hash is the hash of the node's own encoding. Only the root may
    carry one while its encoding is shorter than 32 bytes (it is hashed by force).
   */
  ghost predicate FlagOk(kec: Keccak, f: Flag, t: Tree, root: bool)
    requires IsNode(t)
  {
    f.hash.Some? ==> f.hash.value == kec(Enc(kec, t)) && (root || |Enc(kec, t)| >= 32)
  }

  ghost predicate Rep(kec: Keccak, db: Store, n: Node, t: Tree, root: bool)
    requires Child(t)
    decreases t
  {
    match n
    case NilNode => t == Nil
    case ValueNode(v) => t == Value(v)
    case HashNode(h) =>
      IsNode(t) && h == kec(Enc(kec, t)) && (root || |Enc(kec, t)| >= 32) &&
      Fits(kec, t) && Agrees(kec, db, t)
    case ShortNode(k, v, f) =>
      t.Short? && t.key == k && FlagOk(kec, f, t, root) && Rep(kec, db, v, t.child, false)
    case FullNode(cs, f) =>
      t.Full? && |cs| == 17 && FlagOk(kec, f, t, root) &&
      forall i :: 0 <= i < 17 ==> Rep(kec, db, cs[i], t.children[i], false)
  }

  // ---------- loading a node ----------

  function Resolve(db: Store, h: Hash): (r: Result<Node>) {
    if h !in db then Err(MissingNode(h))
    else
      var n := DecodeNode(Some(h), db[h]);
      if n.Err? then Err(Panic) else n
  }

  lemma {:induction false} ShallowRep(kec: Keccak, db: Store, t: Tree, hash: Option<Hash>, root: bool)
    requires IsNode(t) && Fits(kec, t) && Agrees(kec, db, t)
    requires FlagOk(kec, Flag(hash, false), t, root)
    ensures Rep(kec, db, Shallow(kec, t, hash), t, root)
    decreases t, 0
  {
    match t
    case Short(k, c) => ShallowRefRep(kec, db, c);
    case Full(cs) =>
      forall i | 0 <= i < 17 ensures Rep(kec, db, ShallowRef(kec, cs[i]), cs[i], false) {
        ShallowRefRep(kec, db, cs[i]);
      }
  }

  lemma ShallowRefRep(kec: Keccak, db: Store, t: Tree)
    requires Child(t) && Fits(kec, t) && Agrees(kec, db, t)
    ensures Rep(kec, db, ShallowRef(kec, t), t, false)
    decreases t, 1
  {
    if IsNode(t) && |Enc(kec, t)| < 32 {
      ShallowRep(kec, db, t, None, false);
    }
  }

  /** Loading a hash either reports that the store lacks it or gives a node for the same trie. */
  lemma ResolveRep(kec: Keccak, db: Store, h: Hash, t: Tree, root: bool)
    requires Child(t) && Rep(kec, db, HashNode(h), t, root)
    ensures Resolve(db, h).Ok? <==> h in db
    ensures Resolve(db, h).Err? ==> Resolve(db, h).error == MissingNode(h)
    ensures Resolve(db, h).Ok? ==>
              var n := Resolve(db, h).value;
              (n.ShortNode? || n.FullNode?) && Rep(kec, db, n, t, root)
  {
    hide Enc, DecodeNode, Fits, Shallow;
    if h in db {
      assert AgreesHere(kec, db, t);
      DecodeEnc(kec, t, Some(h), []);
      assert Enc(kec, t) + [] == Enc(kec, t);
      ShallowRep(kec, db, t, Some(h), root);
    }
  }

  // ---------- get ----------

  /** What is left of a key when an operation stands at trie `t`. */
  ghost predicate KeyFor(t: Tree, k: Bytes) {
    if t.Value? then ValueOk(t) && k == []
    else Canonical(t) && (HexKey(k) || (t == Nil && k == []))
  }

  lemma KeyBelowShort(t: Tree, k: Bytes)
    requires t.Short? && KeyFor(t, k) && t.key <= k
    ensures KeyFor(t.child, k[|t.key|..])
  {
    if HasTerm(t.key) {
      HexKeyNotPrefix(t.key, k);
    } else {
      assert |t.key| < |k|;
      HexKeySplit(k, |t.key|);
    }
  }

  lemma KeyBelowFull(t: Tree, k: Bytes)
    requires t.Full? && KeyFor(t, k)
    ensures k != [] && k[0] < 17
    ensures KeyFor(t.children[k[0]], k[1..])
  {
    HexKeySplit(k, 0);
    if k[0] < 16 {
      assert Canonical(t.children[k[0]]);
    } else {
      assert k[1..] == [];
    }
  }

  datatype Found = Found(value: Option<Bytes>, node: Node, resolved: bool)

  /** `tryGet`: the value, and the node with whatever had to be loaded on the way. */
  function TryGet(ghost kec: Keccak, db: Store, n: Node, k: Bytes, ghost t: Tree, ghost root: bool): (r: Result<Found>)
    requires Child(t) && Rep(kec, db, n, t, root) && KeyFor(t, k)
    ensures r.Err? ==> r.error.MissingNode? && r.error.hash !in db
    ensures r.Ok? ==> r.value.value == Get(t, k) && Rep(kec, db, r.value.node, t, root)
    decreases t, if n.HashNode? then 1 else 0
  {
    match n
    case NilNode => Ok(Found(None, n, false))
    case ValueNode(v) => Ok(Found(Some(v), n, false))
    case ShortNode(key, val, f) =>
      if !(key <= k) then Ok(Found(None, n, false))
      else
        KeyBelowShort(t, k);
        var r := TryGet(kec, db, val, k[|key|..], t.child, false);
        if r.Err? then r
        else if !r.value.resolved then Ok(Found(r.value.value, n, false))
        else Ok(Found(r.value.value, ShortNode(key, r.value.node, f), true))
    case FullNode(cs, f) =>
      KeyBelowFull(t, k);
      var r := TryGet(kec, db, cs[k[0]], k[1..], t.children[k[0]], false);
      if r.Err? then r
      else if !r.value.resolved then Ok(Found(r.value.value, n, false))
      else Ok(Found(r.value.value, FullNode(cs[k[0] := r.value.node], f), true))
    case HashNode(h) =>
      ResolveRep(kec, db, h, t, root);
      var child := Resolve(db, h);
      if child.Err? then Err(child.error)
      else
        var r := TryGet(kec, db, child.value, k, t, root);
        if r.Err? then r else Ok(Found(r.value.value, r.value.node, true))
  }

  // ---------- insert ----------

  const NewFlag: Flag := Flag(None, true)

  function LeadNode(key: Bytes, n: Node): (r: Node) {
    if key == [] then n else ShortNode(key, n, NewFlag)
  }

  function ForkNode(a: byte, left: Node, b: byte, right: Node): (r: Node)
    requires a < 17 && b < 17
  {
    FullNode(seq(17, i => if i == b then right else if i == a then left else NilNode), NewFlag)
  }

  lemma LeadRep(kec: Keccak, db: Store, key: Bytes, n: Node, t: Tree, root: bool)
    requires Child(t) && Rep(kec, db, n, t, false) && Child(Lead(key, t))
    ensures Rep(kec, db, LeadNode(key, n), Lead(key, t), root)
  {
  }

  lemma ForkRep(kec: Keccak, db: Store, a: byte, left: Node, b: byte, right: Node, lt: Tree, rt: Tree, root: bool)
    requires a < 17 && b < 17 && Canonical(Fork(a, lt, b, rt)) && Child(lt) && Child(rt)
    requires Rep(kec, db, left, lt, false) && Rep(kec, db, right, rt, false)
    ensures Rep(kec, db, ForkNode(a, left, b, right), Fork(a, lt, b, rt), root)
  {
  }

  datatype Changed = Changed(dirty: bool, node: Node)

  /** `insert`; `v` is the value as a node, `vt` the same value as a trie. */
  function TryInsert(ghost kec: Keccak, db: Store, n: Node, k: Bytes, v: Bytes, ghost t: Tree,
                     ghost root: bool): (r: Result<Changed>)
    requires Child(t) && Rep(kec, db, n, t, root) && KeyFor(t, k) && v != []
    decreases t, if n.HashNode? then 1 else 0
  {
    if k == [] then
      Ok(Changed(!(n.ValueNode? && n.v == v), ValueNode(v)))
    else
      match n
      case ShortNode(key, val, f) =>
        var m := PrefixLen(k, key);
        if m == |key| then
          KeyBelowShort(t, k);
          var r := TryInsert(kec, db, val, k[m..], v, t.child, false);
          if r.Err? then r
          else if !r.value.dirty then Ok(Changed(false, n))
          else Ok(Changed(true, ShortNode(key, r.value.node, NewFlag)))
        else
          ForkIndices(t, k);
          var fork := ForkNode(key[m], LeadNode(key[m + 1..], val), k[m], LeadNode(k[m + 1..], ValueNode(v)));
          Ok(Changed(true, LeadNode(k[..m], fork)))
      case FullNode(cs, f) =>
        KeyBelowFull(t, k);
        var r := TryInsert(kec, db, cs[k[0]], k[1..], v, t.children[k[0]], false);
        if r.Err? then r
        else if !r.value.dirty then Ok(Changed(false, n))
        else Ok(Changed(true, FullNode(cs[k[0] := r.value.node], NewFlag)))
      case NilNode => Ok(Changed(true, ShortNode(k, ValueNode(v), NewFlag)))
      case HashNode(h) =>
        ResolveRep(kec, db, h, t, root);
        var rn := Resolve(db, h);
        if rn.Err? then Err(rn.error)
        else
          var r := TryInsert(kec, db, rn.value, k, v, t, root);
          if r.Err? then r
          else if !r.value.dirty then Ok(Changed(false, rn.value))
          else r
      case ValueNode(_) => Err(Panic)
  }

  /** Where the keys part, both have a nibble (or the terminator) left. */
  lemma ForkIndices(t: Tree, k: Bytes)
    requires t.Short? && KeyFor(t, k)
    requires PrefixLen(k, t.key) < |t.key|
    ensures var m := PrefixLen(k, t.key);
            m < |k| && k[m] <= 16 && t.key[m] <= 16 && k[m] != t.key[m]
  {
    hide PrefixLen;
    var m := PrefixLen(k, t.key);
    if m == |k| {
      HexKeyNotPrefix(k, t.key);
    }
    HexKeySplit(k, m);
    HexPathSplit(t.key, m);
  }

  lemma InsertForkRep(kec: Keccak, db: Store, key: Bytes, val: Node, k: Bytes, v: Bytes, c: Tree, m: nat, root: bool)
    requires Canonical(Short(key, c)) && HexKey(k) && v != [] && Rep(kec, db, val, c, false)
    requires m < |k| && m < |key| && k[m] <= 16 && key[m] <= 16 && key[m] != k[m]
    ensures var node := ForkNode(key[m], LeadNode(key[m + 1..], val), k[m], LeadNode(k[m + 1..], ValueNode(v)));
            var tree := Fork(key[m], Lead(key[m + 1..], c), k[m], Lead(k[m + 1..], Value(v)));
            Canonical(tree) && Rep(kec, db, node, tree, root)
  {
    hide Lead, Fork, LeadNode, ForkNode;
    var vt := Value(v);
    ForkSideCanonical(key, m, c);
    ForkSideCanonical(k, m, vt);
    var left, right := Lead(key[m + 1..], c), Lead(k[m + 1..], vt);
    ForkCanonical(key[m], left, k[m], right);
    LeadRep(kec, db, key[m + 1..], val, c, false);
    LeadRep(kec, db, k[m + 1..], ValueNode(v), vt, false);
    ForkRep(kec, db, key[m], LeadNode(key[m + 1..], val), k[m], LeadNode(k[m + 1..], ValueNode(v)), left, right, root);
  }

  /** A node that was changed is marked so, and carries no hash. */
  predicate Marked(n: Node) {
    n.ShortNode? || n.FullNode? ==> n.flags == NewFlag
  }

  /** Inserting into a partly loaded trie does to it what `Insert` does, or reports a missing node. */
  ghost predicate InsertOk(kec: Keccak, db: Store, r: Result<Changed>, k: Bytes, v: Bytes, t: Tree, root: bool) {
    match r
    case Err(e) => e.MissingNode? && e.hash !in db
    case Ok(c) =>
      Child(Insert(t, k, Value(v))) && Rep(kec, db, c.node, Insert(t, k, Value(v)), root) &&
      (c.dirty <==> Insert(t, k, Value(v)) != t) && (c.dirty ==> Marked(c.node))
  }

  lemma {:induction false} TryInsertOk(kec: Keccak, db: Store, n: Node, k: Bytes, v: Bytes, t: Tree, root: bool)
    requires Child(t) && Rep(kec, db, n, t, root) && KeyFor(t, k) && v != []
    ensures InsertOk(kec, db, TryInsert(kec, db, n, k, v, t, root), k, v, t, root)
    decreases t, if n.HashNode? then 3 else 1
  {
    if n.ShortNode? {
      TryInsertShortOk(kec, db, n, k, v, t, root);
    } else if n.FullNode? {
      TryInsertFullOk(kec, db, n, k, v, t, root);
    } else if n.HashNode? {
      TryInsertHashOk(kec, db, n.h, k, v, t, root);
    } else if k != [] {
      InsertCanonical(t, k, Value(v));
    }
  }

  lemma TryInsertHashOk(kec: Keccak, db: Store, h: Hash, k: Bytes, v: Bytes, t: Tree, root: bool)
    requires Child(t) && Rep(kec, db, HashNode(h), t, root) && KeyFor(t, k) && v != []
    ensures InsertOk(kec, db, TryInsert(kec, db, HashNode(h), k, v, t, root), k, v, t, root)
    decreases t, 2
  {
    hide Insert;
    ResolveRep(kec, db, h, t, root);
    if h in db {
      TryInsertOk(kec, db, Resolve(db, h).value, k, v, t, root);
    }
  }

  lemma TryInsertShortOk(kec: Keccak, db: Store, n: Node, k: Bytes, v: Bytes, t: Tree, root: bool)
    requires n.ShortNode? && Child(t) && Rep(kec, db, n, t, root) && KeyFor(t, k) && v != []
    ensures InsertOk(kec, db, TryInsert(kec, db, n, k, v, t, root), k, v, t, root)
    decreases t, 0
  {
    hide PrefixLen, ForkNode, LeadNode, Lead, Fork, FlagOk, HexPath, HexKey;
    var m := PrefixLen(k, n.key);
    InsertCanonical(t, k, Value(v));
    if m == |n.key| {
      KeyBelowShort(t, k);
      hide Rep, Canonical;
      ShortRep(kec, db, n, t, root);
      TryInsertOk(kec, db, n.val, k[m..], v, t.child, false);
      NewFlagOk(kec, Insert(t, k, Value(v)), root);
      var r := TryInsert(kec, db, n.val, k[m..], v, t.child, false);
      if r.Ok? {
        ShortOver(kec, db, n.key, r.value.node, Insert(t.child, k[m..], Value(v)), root);
      }
    } else {
      TryInsertForkOk(kec, db, n, k, v, t, root);
    }
  }

  /** A short node over a changed child. */
  lemma ShortOver(kec: Keccak, db: Store, key: Bytes, c: Node, ct: Tree, root: bool)
    requires Child(ct) && Rep(kec, db, c, ct, false) && IsNode(Short(key, ct))
    ensures Rep(kec, db, ShortNode(key, c, NewFlag), Short(key, ct), root)
  {
  }

  lemma TryInsertForkOk(kec: Keccak, db: Store, n: Node, k: Bytes, v: Bytes, t: Tree, root: bool)
    requires n.ShortNode? && Child(t) && Rep(kec, db, n, t, root) && KeyFor(t, k) && v != []
    requires PrefixLen(k, n.key) < |n.key|
    ensures InsertOk(kec, db, TryInsert(kec, db, n, k, v, t, root), k, v, t, root)
  {
    hide PrefixLen, ForkNode, LeadNode, Lead, Fork, HexKey, Rep, Canonical;
    ShortRep(kec, db, n, t, root);
    var key, val, c := n.key, n.val, t.child;
    var m := PrefixLen(k, key);
    InsertCanonical(t, k, Value(v));
    ForkIndices(t, k);
    InsertForkRep(kec, db, key, val, k, v, c, m, false);
    LeadRep(kec, db, k[..m],
            ForkNode(key[m], LeadNode(key[m + 1..], val), k[m], LeadNode(k[m + 1..], ValueNode(v))),
            Fork(key[m], Lead(key[m + 1..], c), k[m], Lead(k[m + 1..], Value(v))), root);
    ForkIsNew(key, val, c, k, Value(v), ValueNode(v), m);
  }

  lemma ForkIsNew(key: Bytes, val: Node, c: Tree, k: Bytes, vt: Tree, vn: Node, m: nat)
    requires m < |k| && m < |key| && k[m] <= 16 && key[m] <= 16
    ensures Lead(k[..m], Fork(key[m], Lead(key[m + 1..], c), k[m], Lead(k[m + 1..], vt))) != Short(key, c)
    ensures Marked(LeadNode(k[..m], ForkNode(key[m], LeadNode(key[m + 1..], val), k[m], LeadNode(k[m + 1..], vn))))
  {
  }

  lemma ShortRep(kec: Keccak, db: Store, n: Node, t: Tree, root: bool)
    requires n.ShortNode? && Child(t) && Rep(kec, db, n, t, root)
    ensures t == Short(n.key, t.child) && Canonical(t) && Child(t.child) && Rep(kec, db, n.val, t.child, false)
  {
  }

  lemma NewFlagOk(kec: Keccak, t: Tree, root: bool)
    requires IsNode(t)
    ensures FlagOk(kec, NewFlag, t, root)
  {
  }

  lemma TryInsertFullOk(kec: Keccak, db: Store, n: Node, k: Bytes, v: Bytes, t: Tree, root: bool)
    requires n.FullNode? && Child(t) && Rep(kec, db, n, t, root) && KeyFor(t, k) && v != []
    ensures InsertOk(kec, db, TryInsert(kec, db, n, k, v, t, root), k, v, t, root)
    decreases t, 0
  {
    hide HexKey;
    KeyBelowFull(t, k);
    InsertCanonical(t, k, Value(v));
    var i := k[0];
    TryInsertOk(kec, db, n.children[i], k[1..], v, t.children[i], false);
    var r := TryInsert(kec, db, n.children[i], k[1..], v, t.children[i], false);
    if r.Ok? && r.value.dirty {
      FullUpdateRep(kec, db, n, t, i, r.value.node, Insert(t.children[i], k[1..], Value(v)), root);
    } else {
      assert r.Ok? ==> t.children[i := t.children[i]] == t.children;
    }
  }

  lemma FullUpdateRep(kec: Keccak, db: Store, n: Node, t: Tree, i: nat, c: Node, ct: Tree, root: bool)
    requires n.FullNode? && Child(t) && Rep(kec, db, n, t, root) && i < 17
    requires Child(ct) && Rep(kec, db, c, ct, false) && Canonical(Full(t.children[i := ct]))
    ensures Rep(kec, db, FullNode(n.children[i := c], NewFlag), Full(t.children[i := ct]), root)
  {
  }

  // ---------- delete ----------

  /** The index of the only child, by the loop of `delete`: -1 for none, -2 for several. */
  method FindOnlyChild(cs: seq<Node>) returns (pos: int)
    ensures pos == OnlyChildNode(cs)
  {
    pos := -1;
    var i := 0;
    while i < |cs|
      invariant 0 <= i <= |cs|
      invariant pos == OnlyChildNode(cs[..i]) && pos != -2
    {
      assert cs[..i + 1][..i] == cs[..i];
      if cs[i] != NilNode {
        if pos == -1 {
          pos := i;
        } else {
          pos := -2;
          OnlyChildSettled(cs, i + 1);
          return;
        }
      }
      i := i + 1;
    }
    assert cs[..|cs|] == cs;
  }

  /** Once two children were seen, the rest does not matter. */
  lemma {:induction false} OnlyChildSettled(cs: seq<Node>, i: nat)
    requires i <= |cs| && OnlyChildNode(cs[..i]) == -2
    ensures OnlyChildNode(cs) == -2
  {
    if i < |cs| {
      assert cs[..|cs| - 1][..i] == cs[..i];
      OnlyChildSettled(cs[..|cs| - 1], i);
    } else {
      assert cs[..i] == cs;
    }
  }

  /** The count of `OnlyChild` on nodes in memory. */
  function OnlyChildNode(cs: seq<Node>): (pos: int)
    ensures pos == -1 || pos == -2 || 0 <= pos < |cs|
  {
    if cs == [] then -1
    else
      var n := |cs| - 1;
      var p := OnlyChildNode(cs[..n]);
      if cs[n] == NilNode then p else if p == -1 then n else -2
  }

  lemma {:induction false} OnlyChildSame(kec: Keccak, db: Store, ns: seq<Node>, ts: seq<Tree>)
    requires |ns| == |ts| && forall i :: 0 <= i < |ns| ==> Child(ts[i]) && Rep(kec, db, ns[i], ts[i], false)
    ensures OnlyChildNode(ns) == OnlyChild(ts)
  {
    if ns != [] {
      var n := |ns| - 1;
      OnlyChildSame(kec, db, ns[..n], ts[..n]);
      assert Rep(kec, db, ns[n], ts[n], false);
    }
  }

  /** The end of `delete` on a full node whose child was removed; the last child left may have to be loaded. */
  function TryReduce(db: Store, cs: seq<Node>): (r: Result<Changed>)
  {
    var pos := OnlyChildNode(cs);
    if pos < 0 || pos > 16 then Ok(Changed(true, FullNode(cs, NewFlag)))
    else if pos == 16 then Ok(Changed(true, ShortNode([pos], cs[pos], NewFlag)))
    else
      var child := if cs[pos].HashNode? then Resolve(db, cs[pos].h) else Ok(cs[pos]);
      if child.Err? then Err(child.error)
      else if child.value.ShortNode? then
        Ok(Changed(true, ShortNode([pos] + child.value.key, child.value.val, NewFlag)))
      else Ok(Changed(true, ShortNode([pos], cs[pos], NewFlag)))
  }

  function TryDelete(ghost kec: Keccak, db: Store, n: Node, k: Bytes, ghost t: Tree,
                     ghost root: bool): (r: Result<Changed>)
    requires Child(t) && Rep(kec, db, n, t, root) && KeyFor(t, k)
    decreases t, if n.HashNode? then 1 else 0
  {
    match n
    case ShortNode(key, val, f) =>
      var m := PrefixLen(k, key);
      if m < |key| then Ok(Changed(false, n))
      else if m == |k| then Ok(Changed(true, NilNode))
      else
        KeyBelowShort(t, k);
        var r := TryDelete(kec, db, val, k[|key|..], t.child, false);
        if r.Err? then r
        else if !r.value.dirty then Ok(Changed(false, n))
        else if r.value.node.ShortNode? then
          Ok(Changed(true, ShortNode(key + r.value.node.key, r.value.node.val, NewFlag)))
        else Ok(Changed(true, ShortNode(key, r.value.node, NewFlag)))
    case FullNode(cs, f) =>
      KeyBelowFull(t, k);
      var r := TryDelete(kec, db, cs[k[0]], k[1..], t.children[k[0]], false);
      if r.Err? then r
      else if !r.value.dirty then Ok(Changed(false, n))
      else if r.value.node != NilNode then Ok(Changed(true, FullNode(cs[k[0] := r.value.node], NewFlag)))
      else TryReduce(db, cs[k[0] := NilNode])
    case ValueNode(_) => Ok(Changed(true, NilNode))
    case NilNode => Ok(Changed(false, NilNode))
    case HashNode(h) =>
      ResolveRep(kec, db, h, t, root);
      var rn := Resolve(db, h);
      if rn.Err? then Err(rn.error)
      else
        var r := TryDelete(kec, db, rn.value, k, t, root);
        if r.Err? then r
        else if !r.value.dirty then Ok(Changed(false, rn.value))
        else r
  }

  /** Deleting from a partly loaded trie does to it what `Delete` does, or reports a missing node. */
  ghost predicate DeleteOk(kec: Keccak, db: Store, r: Result<Changed>, k: Bytes, t: Tree, root: bool) {
    match r
    case Err(e) => e.MissingNode? && e.hash !in db
    case Ok(c) =>
      Child(Delete(t, k)) && Rep(kec, db, c.node, Delete(t, k), root) &&
      (c.dirty <==> Get(t, k).Some?) && (c.dirty ==> !c.node.HashNode?) &&
      (c.dirty <==> Delete(t, k) != t) && (c.dirty ==> Marked(c.node))
  }

  /** Deletion changes the trie exactly when the key is present. */
  lemma DeleteChanges(t: Tree, k: Bytes)
    requires KeyFor(t, k)
    ensures Delete(t, k) != t ==> Get(t, k).Some?
    ensures Get(t, k).Some? ==> Delete(t, k) != t
    ensures Child(Delete(t, k))
  {
    if Canonical(t) && HexKey(k) {
      DeleteGet(t, k, k);
      DeleteCanonical(t, k);
      if Get(t, k).None? {
        forall q | HexKey(q) ensures Get(Delete(t, k), q) == Get(t, q) {
          DeleteGet(t, k, q);
        }
        CanonicalUnique(Delete(t, k), t);
      }
    }
  }

  lemma {:induction false} TryDeleteOk(kec: Keccak, db: Store, n: Node, k: Bytes, t: Tree, root: bool)
    requires Child(t) && Rep(kec, db, n, t, root) && KeyFor(t, k)
    ensures DeleteOk(kec, db, TryDelete(kec, db, n, k, t, root), k, t, root)
    decreases t, if n.HashNode? then 3 else 1
  {
    if n.ShortNode? {
      TryDeleteShortOk(kec, db, n, k, t, root);
    } else if n.FullNode? {
      TryDeleteFullOk(kec, db, n, k, t, root);
    } else if n.HashNode? {
      TryDeleteHashOk(kec, db, n.h, k, t, root);
    }
  }

  lemma TryDeleteHashOk(kec: Keccak, db: Store, h: Hash, k: Bytes, t: Tree, root: bool)
    requires Child(t) && Rep(kec, db, HashNode(h), t, root) && KeyFor(t, k)
    ensures DeleteOk(kec, db, TryDelete(kec, db, HashNode(h), k, t, root), k, t, root)
    decreases t, 2
  {
    hide Delete;
    ResolveRep(kec, db, h, t, root);
    if h in db {
      TryDeleteOk(kec, db, Resolve(db, h).value, k, t, root);
    }
  }

  lemma TryDeleteShortOk(kec: Keccak, db: Store, n: Node, k: Bytes, t: Tree, root: bool)
    requires n.ShortNode? && Child(t) && Rep(kec, db, n, t, root) && KeyFor(t, k)
    ensures DeleteOk(kec, db, TryDelete(kec, db, n, k, t, root), k, t, root)
    decreases t, 0
  {
    hide PrefixLen, Get, HexKey;
    var m := PrefixLen(k, n.key);
    DeleteChanges(t, k);
    if m == |n.key| && m < |k| {
      KeyBelowShort(t, k);
      TryDeleteOk(kec, db, n.val, k[m..], t.child, false);
      DeleteMatchRep(kec, db, n, k, t, root);
    }
  }

  lemma DeleteMatchRep(kec: Keccak, db: Store, n: Node, k: Bytes, t: Tree, root: bool)
    requires n.ShortNode? && Child(t) && Rep(kec, db, n, t, root) && KeyFor(t, k)
    requires n.key < k && KeyFor(t.child, k[|n.key|..])
    requires DeleteOk(kec, db, TryDelete(kec, db, n.val, k[|n.key|..], t.child, false), k[|n.key|..], t.child, false)
    ensures DeleteOk(kec, db, TryDelete(kec, db, n, k, t, root), k, t, root)
  {
    hide PrefixLen, HexKey, HexPath, Rep;
    ShortRep(kec, db, n, t, root);
    PrefixLenUnique(k, n.key, |n.key|);
    DeleteChanges(t, k);
    var r := TryDelete(kec, db, n.val, k[|n.key|..], t.child, false);
    if r.Ok? && r.value.dirty {
      ShortMergeRep(kec, db, n.key, r.value.node, Delete(t.child, k[|n.key|..]), Delete(t, k), root);
    }
  }

  /** A short node above a changed child, merged with it when the child became a short node. */
  lemma ShortMergeRep(kec: Keccak, db: Store, key: Bytes, c: Node, ct: Tree, t: Tree, root: bool)
    requires Child(ct) && Rep(kec, db, c, ct, false) && !c.HashNode? && Child(t)
    requires t == if ct.Short? then Short(key + ct.key, ct.child) else Short(key, ct)
    ensures c.ShortNode? <==> ct.Short?
    ensures c.ShortNode? ==> Rep(kec, db, ShortNode(key + c.key, c.val, NewFlag), t, root)
    ensures !c.ShortNode? ==> Rep(kec, db, ShortNode(key, c, NewFlag), t, root)
  {
  }

  lemma TryDeleteFullOk(kec: Keccak, db: Store, n: Node, k: Bytes, t: Tree, root: bool)
    requires n.FullNode? && Child(t) && Rep(kec, db, n, t, root) && KeyFor(t, k)
    ensures DeleteOk(kec, db, TryDelete(kec, db, n, k, t, root), k, t, root)
    decreases t, 0
  {
    hide HexKey, Get, Reduce, TryReduce;
    KeyBelowFull(t, k);
    DeleteChanges(t, k);
    GetAtFull(t, k);
    var i := k[0];
    TryDeleteOk(kec, db, n.children[i], k[1..], t.children[i], false);
    var r := TryDelete(kec, db, n.children[i], k[1..], t.children[i], false);
    if r.Ok? && r.value.dirty {
      if r.value.node == NilNode {
        FullRemoveRep(kec, db, n, t, i, root);
      } else {
        FullUpdateRep(kec, db, n, t, i, r.value.node, Delete(t.children[i], k[1..]), root);
      }
    }
  }

  lemma GetAtFull(t: Tree, k: Bytes)
    requires t.Full? && k != [] && k[0] < |t.children|
    ensures Get(t, k) == Get(t.children[k[0]], k[1..])
  {
  }

  lemma FullRemoveRep(kec: Keccak, db: Store, n: Node, t: Tree, i: nat, root: bool)
    requires n.FullNode? && Canonical(t) && Rep(kec, db, n, t, root) && i <= 16
    ensures t.Full? && |t.children| == |n.children| == 17
    ensures var r, ts := TryReduce(db, n.children[i := NilNode]), t.children[i := Nil];
            Reducible(ts) && (r.Err? ==> r.error.MissingNode? && r.error.hash !in db) &&
            (r.Ok? ==> r.value.dirty && Marked(r.value.node) && !r.value.node.HashNode? && Child(Reduce(ts)) &&
                       Rep(kec, db, r.value.node, Reduce(ts), root))
  {
    hide Reduce, TryReduce;
    FullRemoveReducible(t.children, i);
    TryReduceRep(kec, db, n.children[i := NilNode], t.children[i := Nil], root);
  }

  lemma TryReduceRep(kec: Keccak, db: Store, ns: seq<Node>, ts: seq<Tree>, root: bool)
    requires Reducible(ts) && |ns| == 17
    requires forall i :: 0 <= i < 17 ==> Child(ts[i]) && Rep(kec, db, ns[i], ts[i], false)
    ensures var r := TryReduce(db, ns);
            (r.Err? ==> r.error.MissingNode? && r.error.hash !in db) &&
            (r.Ok? ==> r.value.dirty && Marked(r.value.node) && !r.value.node.HashNode? && Child(Reduce(ts)) &&
                       Rep(kec, db, r.value.node, Reduce(ts), root))
  {
    hide OnlyChild, OnlyChildNode, Resolve;
    OnlyChildSame(kec, db, ns, ts);
    ReduceCanonical(ts);
    var pos := OnlyChild(ts);
    if 0 <= pos < 16 && ns[pos].HashNode? {
      ResolveRep(kec, db, ns[pos].h, ts[pos], false);
    }
  }
}
