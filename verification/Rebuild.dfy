/**
  The committee's stateless root computation (committee/worker.go): from the
  proof nodes alone, with new values for some accounts, it rebuilds the root
  hash that the full trie would have after the same updates.
 */
module Rebuild {
  import opened Bytes
  import opened Keys
  import opened Rlp
  import opened Tree
  import opened TreeMap
  import opened TreeUnique
  import opened Codec
  import opened Nodes

  // ---------- state tries ----------

  /** Every key below has exactly `n` nibbles left, terminator included, and every value is at least 32 bytes long. */
  predicate StateTrie(t: Tree, n: int) {
    match t
    case Nil => true
    case Value(_) => false
    case Short(k, c) =>
      if HasTerm(k) then |k| == n && c.Value? && |c.v| >= 32
      else |k| < n && StateTrie(c, n - |k|)
    case Full(cs) => |cs| == 17 && cs[16] == Nil && forall i :: 0 <= i < 16 ==> StateTrie(cs[i], n - 1)
  }

  /** The semantic reading: all keys that are present have this length and a long value. */
  ghost predicate KeysAndValues(t: Tree, n: int) {
    forall q :: HexKey(q) && Get(t, q).Some? ==> |q| == n && |Get(t, q).value| >= 32
  }

  lemma {:induction false} StateTrieOfMap(t: Tree, n: int)
    requires Canonical(t) && KeysAndValues(t, n)
    ensures StateTrie(t, n)
    decreases t
  {
    hide Get, KeysAndValues;
    match t
    case Nil =>
    case Short(k, c) =>
      if HasTerm(k) {
        LeafSize(t, n);
      } else {
        KeysBelow(t, n);
        StateTrieOfMap(c, n - |k|);
      }
    case Full(cs) =>
      NoValueSlot(t, n);
      forall i | 0 <= i < 16 ensures StateTrie(cs[i], n - 1) {
        KeysInChild(t, n, i);
        StateTrieOfMap(cs[i], n - 1);
      }
  }

  lemma LeafSize(t: Tree, n: int)
    requires t.Short? && Canonical(t) && HasTerm(t.key) && KeysAndValues(t, n)
    ensures |t.key| == n && |t.child.v| >= 32
  {
    GetShortLeaf(t.key, t.child, t.key);
  }

  lemma KeysBelow(t: Tree, n: int)
    requires t.Short? && Canonical(t) && !HasTerm(t.key) && KeysAndValues(t, n)
    ensures |t.key| < n && KeysAndValues(t.child, n - |t.key|)
  {
    hide Get;
    var rest := SomeKey(t.child);
    GetBelow(t, rest);
    forall q | HexKey(q) && Get(t.child, q).Some?
      ensures |q| == n - |t.key| && |Get(t.child, q).value| >= 32
    {
      GetBelow(t, q);
    }
  }

  lemma KeysInChild(t: Tree, n: int, i: nat)
    requires t.Full? && Canonical(t) && KeysAndValues(t, n) && i < 16
    ensures KeysAndValues(t.children[i], n - 1)
  {
    hide Get;
    forall q | HexKey(q) && Get(t.children[i], q).Some?
      ensures |q| == n - 1 && |Get(t.children[i], q).value| >= 32
    {
      GetChild(t, i, q);
    }
  }

  lemma NoValueSlot(t: Tree, n: int)
    requires t.Full? && Canonical(t) && KeysAndValues(t, n)
    ensures t.children[16] == Nil
  {
    var i, j :| 0 <= i < j < |t.children| && t.children[i] != Nil && t.children[j] != Nil;
    var k := SomeKeyAt(t, i);
    HexKeySplit(k, 0);
    var end := [TERMINATOR];
    assert Get(t, end) == Get(t.children[16], []);
  }

  /** With values that long no node is embedded in its parent. */
  lemma {:induction false} NotEmbedded(kec: Keccak, t: Tree, n: int)
    requires IsNode(t) && StateTrie(t, n)
    ensures |Enc(kec, t)| >= 32
  {
    hide HexToCompact;
    match t
    case Short(k, c) =>
      if !HasTerm(k) {
        NotEmbedded(kec, c, n - |k|);
        assert Ref(kec, c) == EncodeString(kec(Enc(kec, c)));
      }
    case Full(cs) =>
      var i, j :| 0 <= i < j < |cs| && cs[i] != Nil && cs[j] != Nil;
      NotEmbedded(kec, cs[i], n - 1);
      assert Refs(kec, cs)[i] == EncodeString(kec(Enc(kec, cs[i])));
  }

  // ---------- replacing values ----------

  /** The value at the end of a path from the root, after the updates. */
  function NewValue(path: Bytes, v: Bytes, upd: map<Bytes, Bytes>): (r: Bytes) {
    if HexPath(path) && HexToKeybytes(path).Ok? && HexToKeybytes(path).value in upd
    then upd[HexToKeybytes(path).value] else v
  }

  /** The trie with the updated values in place and everything else as it was. */
  function Replace(t: Tree, prefix: Bytes, upd: map<Bytes, Bytes>): (r: Tree)
    decreases t
  {
    match t
    case Short(k, c) =>
      if c.Value? then Short(k, Value(NewValue(prefix + k, c.v, upd)))
      else Short(k, Replace(c, prefix + k, upd))
    case Full(cs) =>
      if |cs| != 17 then t
      else Full(seq(17, i requires 0 <= i < 17 => Replace(cs[i], prefix + [i], upd)))
    case _ => t
  }

  predicate LongValues(upd: map<Bytes, Bytes>) {
    forall k :: k in upd ==> |upd[k]| >= 32
  }

  lemma {:induction false} ReplaceShape(t: Tree, prefix: Bytes, upd: map<Bytes, Bytes>, n: int)
    requires Canonical(t) && StateTrie(t, n) && LongValues(upd)
    ensures Canonical(Replace(t, prefix, upd)) && StateTrie(Replace(t, prefix, upd), n)
    ensures Replace(t, prefix, upd) == Nil <==> t == Nil
    ensures Replace(t, prefix, upd).Full? <==> t.Full?
    decreases t
  {
    match t
    case Nil =>
    case Short(k, c) =>
      if !HasTerm(k) {
        ReplaceShape(c, prefix + k, upd, n - |k|);
      }
    case Full(cs) =>
      var rs := Replace(t, prefix, upd).children;
      forall i | 0 <= i < 16
        ensures Canonical(rs[i]) && StateTrie(rs[i], n - 1) && (rs[i] == Nil <==> cs[i] == Nil)
      {
        ReplaceShape(cs[i], prefix + [i], upd, n - 1);
      }
      var i, j :| 0 <= i < j < |cs| && cs[i] != Nil && cs[j] != Nil;
      assert rs[i] != Nil && rs[j] != Nil;
  }

  lemma {:induction false} ReplaceGet(t: Tree, prefix: Bytes, upd: map<Bytes, Bytes>, n: int, q: Bytes)
    requires Canonical(t) && StateTrie(t, n) && HexKey(q)
    ensures Get(Replace(t, prefix, upd), q) ==
            if Get(t, q).None? then None else Some(NewValue(prefix + q, Get(t, q).value, upd))
    decreases t
  {
    hide NewValue;
    match t
    case Nil =>
    case Short(k, c) =>
      if k <= q {
        if HasTerm(k) {
          HexKeyNotPrefix(k, q);
        } else {
          assert |k| < |q|;
          HexKeySplit(q, |k|);
          assert prefix + k + q[|k|..] == prefix + q;
          ReplaceGet(c, prefix + k, upd, n - |k|, q[|k|..]);
        }
      }
    case Full(cs) =>
      HexKeySplit(q, 0);
      if q[0] < 16 {
        assert prefix + [q[0]] + q[1..] == prefix + q;
        ReplaceGet(cs[q[0]], prefix + [q[0]], upd, n - 1, q[1..]);
      }
  }

  /** Replacing values in the trie of a map gives the trie of the updated map. */
  lemma ReplaceHolds(t: Tree, m: map<Bytes, Bytes>, upd: map<Bytes, Bytes>, n: int)
    requires Holds(t, m) && StateTrie(t, n) && LongValues(upd) && upd.Keys <= m.Keys
    ensures Holds(Replace(t, [], upd), m + upd)
  {
    hide Replace, Get;
    var r := Replace(t, [], upd);
    ReplaceShape(t, [], upd, n);
    forall k ensures Get(r, KeybytesToHex(k)) == Lookup(m + upd, k) {
      var q := KeybytesToHex(k);
      ReplaceGet(t, [], upd, n, q);
      KeybytesRoundTrip(k);
      assert [] + q == q;
      assert Get(t, q) == Lookup(m, k);
    }
    forall q | HexKey(q) && |q| % 2 == 0 ensures Get(r, q) == None {
      ReplaceGet(t, [], upd, n, q);
    }
  }

  // ---------- the proof nodes in memory ----------

  const NO_FLAG: Flag := Flag(None, false)

  /** A decoded proof node, shared through `hash2Node` and overwritten while the root is rebuilt. */
  class ProofNode {
    const full: bool
    var children: seq<Node>  // of a full node
    var key: Bytes           // of a short node
    var val: Node            // of a short node

    constructor (n: Node)
      requires n.FullNode? || n.ShortNode?
      ensures Content() == n.(flags := NO_FLAG)
    {
      full := n.FullNode?;
      children := if n.FullNode? then n.children else [];
      key := if n.FullNode? then [] else n.key;
      val := if n.FullNode? then NilNode else n.val;
    }

    function Content(): (n: Node)
      reads this
    {
      if full then FullNode(children, NO_FLAG) else ShortNode(key, val, NO_FLAG)
    }
  }

  type NodeMap = map<Hash, ProofNode>

  /** Two hashes never share an object. */
  ghost predicate Separate(m: NodeMap) {
    forall g, h :: g in m && h in m && g != h ==> m[g] != m[h]
  }

  ghost function Snapshot(m: NodeMap): (s: map<Hash, Node>)
    reads m.Values
    ensures s.Keys == m.Keys
  {
    map h | h in m :: m[h].Content()
  }

  /** The hashes the rebuilding of `t` looks up with success. */
  ghost function Visited(kec: Keccak, dom: set<Hash>, t: Tree): (s: set<Hash>)
    requires Child(t)
    decreases t, 0
  {
    if !IsNode(t) || kec(Enc(kec, t)) !in dom then {}
    else if t.Short? then {kec(Enc(kec, t))} + Visited(kec, dom, t.child)
    else {kec(Enc(kec, t))} + VisitedUpTo(kec, dom, t.children, 17)
  }

  ghost function VisitedUpTo(kec: Keccak, dom: set<Hash>, cs: seq<Tree>, n: nat): (s: set<Hash>)
    requires n <= |cs| && forall i :: 0 <= i < |cs| ==> Child(cs[i])
    decreases cs, n
  {
    if n == 0 then {} else VisitedUpTo(kec, dom, cs, n - 1) + Visited(kec, dom, cs[n - 1])
  }

  lemma {:induction false} VisitedIncluded(kec: Keccak, dom: set<Hash>, cs: seq<Tree>, n: nat, i: nat)
    requires i < n <= |cs| && forall j :: 0 <= j < |cs| ==> Child(cs[j])
    ensures Visited(kec, dom, cs[i]) <= VisitedUpTo(kec, dom, cs, n)
  {
    hide Visited, Child;
    if i < n - 1 {
      VisitedIncluded(kec, dom, cs, n - 1, i);
    }
  }

  /** No node hash is met at two different paths. */
  ghost predicate Distinct(kec: Keccak, dom: set<Hash>, t: Tree)
    requires Child(t)
    decreases t
  {
    IsNode(t) && kec(Enc(kec, t)) in dom ==>
      if t.Short? then kec(Enc(kec, t)) !in Visited(kec, dom, t.child) && Distinct(kec, dom, t.child)
      else
        kec(Enc(kec, t)) !in VisitedUpTo(kec, dom, t.children, 17) &&
        forall i :: 0 <= i < 17 ==>
          Distinct(kec, dom, t.children[i]) &&
          VisitedUpTo(kec, dom, t.children, i) !! Visited(kec, dom, t.children[i])
  }

  /** Every proof node that belongs to the trie still is as it was decoded. */
  ghost predicate Pristine(kec: Keccak, s: map<Hash, Node>, t: Tree)
    requires Child(t)
    decreases t
  {
    IsNode(t) && kec(Enc(kec, t)) in s ==>
      s[kec(Enc(kec, t))] == Shallow(kec, t, None) &&
      if t.Short? then Pristine(kec, s, t.child)
      else forall i :: 0 <= i < 17 ==> Pristine(kec, s, t.children[i])
  }

  /** Where there is no proof node, no updated value lies below. */
  ghost predicate Reached(kec: Keccak, dom: set<Hash>, t: Tree, prefix: Bytes, upd: map<Bytes, Bytes>)
    requires Child(t)
    decreases t
  {
    IsNode(t) ==>
      if kec(Enc(kec, t)) !in dom then Replace(t, prefix, upd) == t
      else if t.Short? then Reached(kec, dom, t.child, prefix + t.key, upd)
      else forall i :: 0 <= i < 17 ==> Reached(kec, dom, t.children[i], prefix + [i], upd)
  }

  lemma {:induction false} PristineFrame(kec: Keccak, s: map<Hash, Node>, r: map<Hash, Node>, t: Tree)
    requires Child(t) && s.Keys == r.Keys && Pristine(kec, s, t)
    requires forall h :: h in Visited(kec, s.Keys, t) && h in s ==> r[h] == s[h]
    ensures Pristine(kec, r, t)
    decreases t
  {
    hide Enc, Shallow;
    if IsNode(t) && kec(Enc(kec, t)) in s {
      if t.Short? {
        PristineFrame(kec, s, r, t.child);
      } else {
        forall i | 0 <= i < 17 ensures Pristine(kec, r, t.children[i]) {
          VisitedIncluded(kec, s.Keys, t.children, 17, i);
          PristineFrame(kec, s, r, t.children[i]);
        }
      }
    }
  }

  // ---------- what rebuilding a node needs from its children ----------

  ghost predicate SameOutside(s: map<Hash, Node>, r: map<Hash, Node>, v: set<Hash>) {
    s.Keys == r.Keys && forall h :: h in s && h !in v ==> r[h] == s[h]
  }

  /** The hash of a trie node after the updates. */
  ghost function NewHash(kec: Keccak, t: Tree, prefix: Bytes, upd: map<Bytes, Bytes>, n: int): (h: Hash)
    requires IsNode(t) && StateTrie(t, n) && LongValues(upd)
  {
    ReplaceShape(t, prefix, upd, n);
    kec(Enc(kec, Replace(t, prefix, upd)))
  }

  /** The first half of what rebuilding a node relies on: what concerns the trie alone. */
  ghost predicate Shape(t: Tree, prefix: Bytes, upd: map<Bytes, Bytes>, n: int) {
    IsNode(t) && StateTrie(t, n) && LongValues(upd) && Nibbles(prefix) && (|prefix| + n) % 2 == 1
  }

  /** The second half: what concerns the proof nodes. */
  ghost predicate Matched(kec: Keccak, s: map<Hash, Node>, t: Tree, prefix: Bytes, upd: map<Bytes, Bytes>)
    requires Child(t)
  {
    Pristine(kec, s, t) && Distinct(kec, s.Keys, t) && Reached(kec, s.Keys, t, prefix, upd)
  }

  lemma ShapeShort(t: Tree, prefix: Bytes, upd: map<Bytes, Bytes>, n: int)
    requires t.Short? && Shape(t, prefix, upd, n)
    ensures HasTerm(t.key) ==>
              ValueOk(t.child) && HexPath(prefix + t.key) && HexToKeybytes(prefix + t.key).Ok?
    ensures !HasTerm(t.key) ==> Shape(t.child, prefix + t.key, upd, n - |t.key|) && t.child.Full?
  {
    if HasTerm(t.key) {
      ConcatPath(prefix, t.key);
      assert |DropTerm(prefix + t.key)| == |prefix| + n - 1;
    }
  }

  lemma ShapeFull(t: Tree, prefix: Bytes, upd: map<Bytes, Bytes>, n: int)
    requires t.Full? && Shape(t, prefix, upd, n)
    ensures |t.children| == 17 && forall i :: 0 <= i < 17 ==> Child(t.children[i])
    ensures forall i :: 0 <= i < 17 ==> Canonical(t.children[i]) && StateTrie(t.children[i], n - 1)
    ensures forall i :: 0 <= i < 17 && t.children[i] != Nil ==> Shape(t.children[i], prefix + [i], upd, n - 1)
  {
    assert t.children[16] == Nil;
  }

  lemma MatchedShort(kec: Keccak, s: map<Hash, Node>, t: Tree, prefix: Bytes, upd: map<Bytes, Bytes>)
    requires t.Short? && IsNode(t) && Matched(kec, s, t, prefix, upd) && kec(Enc(kec, t)) in s
    ensures Child(t.child) && Matched(kec, s, t.child, prefix + t.key, upd)
    ensures s[kec(Enc(kec, t))] == ShortNode(t.key, ShallowRef(kec, t.child), NO_FLAG)
    ensures kec(Enc(kec, t)) !in Visited(kec, s.Keys, t.child)
    ensures Visited(kec, s.Keys, t) == {kec(Enc(kec, t))} + Visited(kec, s.Keys, t.child)
  {
    hide Enc, ShallowRef;
  }

  lemma MatchedFull(kec: Keccak, s: map<Hash, Node>, t: Tree, prefix: Bytes, upd: map<Bytes, Bytes>)
    requires t.Full? && IsNode(t) && Matched(kec, s, t, prefix, upd) && kec(Enc(kec, t)) in s
    ensures |t.children| == 17 && forall i :: 0 <= i < 17 ==> Child(t.children[i])
    ensures s[kec(Enc(kec, t))] == FullNode(ShallowRefs(kec, t.children), NO_FLAG)
    ensures Visited(kec, s.Keys, t) == {kec(Enc(kec, t))} + VisitedUpTo(kec, s.Keys, t.children, 17)
    ensures kec(Enc(kec, t)) !in VisitedUpTo(kec, s.Keys, t.children, 17)
  {
    hide Enc, ShallowRefs, VisitedUpTo, Reached;
  }

  predicate SeventeenChildren(cs: seq<Tree>) {
    |cs| == 17 && forall j :: 0 <= j < 17 ==> Child(cs[j])
  }

  ghost predicate MatchedAt(kec: Keccak, s: map<Hash, Node>, cs: seq<Tree>, prefix: Bytes, upd: map<Bytes, Bytes>,
                            i: nat)
    requires SeventeenChildren(cs) && i < 17
  {
    Matched(kec, s, cs[i], prefix + [i], upd) &&
    VisitedUpTo(kec, s.Keys, cs, i) !! Visited(kec, s.Keys, cs[i])
  }

  lemma MatchedChild(kec: Keccak, s: map<Hash, Node>, t: Tree, prefix: Bytes, upd: map<Bytes, Bytes>, i: nat)
    requires t.Full? && SeventeenChildren(t.children) && i < 17
    requires IsNode(t) && Matched(kec, s, t, prefix, upd) && kec(Enc(kec, t)) in s
    ensures MatchedAt(kec, s, t.children, prefix, upd, i)
  {
    hide Enc, Shallow, Visited, VisitedUpTo;
  }

  /** A child that is not empty is referred to by its hash. */
  lemma ChildRef(kec: Keccak, c: Tree, n: int)
    requires IsNode(c) && StateTrie(c, n)
    ensures ShallowRef(kec, c) == HashNode(kec(Enc(kec, c)))
  {
    hide Enc;
    NotEmbedded(kec, c, n);
  }

  lemma MatchedFrame(kec: Keccak, s: map<Hash, Node>, r: map<Hash, Node>, t: Tree, prefix: Bytes, upd: map<Bytes,
                     Bytes>, v: set<Hash>)
    requires Child(t) && Matched(kec, s, t, prefix, upd)
    requires SameOutside(s, r, v) && v !! Visited(kec, s.Keys, t)
    ensures Matched(kec, r, t, prefix, upd)
  {
    hide Enc, Pristine, Distinct, Reached, Visited;
    PristineFrame(kec, s, r, t);
  }

  // ---------- the new encodings ----------

  lemma ExtensionEncoding(kec: Keccak, k: Bytes, c: Tree, f: Flag)
    requires Canonical(Short(k, c)) && c.Full? && |Enc(kec, c)| >= 32
    ensures EncodeNode(ShortNode(HexToCompact(k), HashNode(kec(Enc(kec, c))), f)) == Enc(kec, Short(k, c))
  {
    hide HexToCompact, EncodeList, EncodeString;
  }

  lemma LeafEncoding(kec: Keccak, k: Bytes, v: Bytes, f: Flag)
    requires HexKey(k) && k != [] && v != []
    ensures Canonical(Short(k, Value(v)))
    ensures EncodeNode(ShortNode(HexToCompact(k), ValueNode(v), f)) == Enc(kec, Short(k, Value(v)))
  {
    hide HexToCompact, EncodeList, EncodeString;
  }

  /** The slots of a full node whose first `i` children were rebuilt. */
  ghost predicate SlotsDone(kec: Keccak, slots: seq<Node>, cs: seq<Tree>, prefix: Bytes, upd: map<Bytes, Bytes>,
                            n: int, i: nat)
    requires |cs| == 17 && LongValues(upd) && forall j :: 0 <= j < 17 ==> Canonical(cs[j]) && StateTrie(cs[j], n)
  {
    |slots| == 17 && i <= 17 &&
    forall j :: 0 <= j < 17 ==>
      slots[j] == if cs[j] == Nil then NilNode
                  else if j < i then HashNode(NewHash(kec, cs[j], prefix + [j], upd, n))
                  else HashNode(kec(Enc(kec, cs[j])))
  }

  lemma FullEncoding(kec: Keccak, slots: seq<Node>, t: Tree, prefix: Bytes, upd: map<Bytes, Bytes>, n: int, f: Flag)
    requires t.Full? && IsNode(t) && StateTrie(t, n) && LongValues(upd)
    requires forall j :: 0 <= j < 17 ==> Canonical(t.children[j]) && StateTrie(t.children[j], n - 1)
    requires SlotsDone(kec, slots, t.children, prefix, upd, n - 1, 17)
    ensures kec(EncodeNode(FullNode(slots, f))) == NewHash(kec, t, prefix, upd, n)
  {
    hide Enc, EncodeNode, Canonical, StateTrie, Ref;
    ReplaceShape(t, prefix, upd, n);
    var r := Replace(t, prefix, upd);
    FullChildren(r);
    forall j | 0 <= j < 17 ensures EncodeNode(slots[j]) == Ref(kec, r.children[j]) {
      SlotEncoding(kec, slots[j], t.children[j], prefix + [j], upd, n - 1);
      assert r.children[j] == Replace(t.children[j], prefix + [j], upd);
    }
    FullNodeEncoding(kec, slots, r, f);
  }

  lemma FullNodeEncoding(kec: Keccak, slots: seq<Node>, t: Tree, f: Flag)
    requires t.Full? && IsNode(t) && |slots| == 17 && SeventeenChildren(t.children)
    requires forall j :: 0 <= j < 17 ==> EncodeNode(slots[j]) == Ref(kec, t.children[j])
    ensures EncodeNode(FullNode(slots, f)) == Enc(kec, t)
  {
    hide EncodeList, Concat, Ref, Canonical;
    assert EncodeNodes(slots) == Refs(kec, t.children);
  }

  lemma SlotEncoding(kec: Keccak, slot: Node, c: Tree, prefix: Bytes, upd: map<Bytes, Bytes>, n: int)
    requires Canonical(c) && StateTrie(c, n) && LongValues(upd)
    requires slot == if c == Nil then NilNode else HashNode(NewHash(kec, c, prefix, upd, n))
    ensures Child(Replace(c, prefix, upd)) && EncodeNode(slot) == Ref(kec, Replace(c, prefix, upd))
  {
    hide Enc, EncodeString;
    ReplaceShape(c, prefix, upd, n);
    if c != Nil {
      NotEmbedded(kec, Replace(c, prefix, upd), n);
    }
  }

  // ---------- the recursion of rebuildHelper ----------

  /**
    `rebuildHelper`: rebuilds the sub-trie `t` found under `hash` at `prefix`,
    overwriting the proof nodes it visits, and returns its new hash.
   */
  method RebuildHelper(kec: Keccak, hash: Hash, m: NodeMap, prefix: Bytes, upd: map<Bytes, Bytes>, ghost t: Tree,
                       ghost n: int)
    returns (r: Result<Hash>)
    requires Shape(t, prefix, upd, n) && hash == kec(Enc(kec, t))
    requires Separate(m) && Matched(kec, Snapshot(m), t, prefix, upd)
    modifies m.Values
    ensures r == Ok(NewHash(kec, t, prefix, upd, n))
    ensures SameOutside(old(Snapshot(m)), Snapshot(m), Visited(kec, m.Keys, t))
    decreases t, 1
  {
    hide Enc, Replace, Pristine, Distinct, Visited, Canonical, StateTrie, Shallow;
    if hash !in m {
      return Ok(hash);
    }
    var node := m[hash];
    assert Snapshot(m)[hash] == node.Content();
    NodeKind(kec, Snapshot(m), t, prefix, upd, n);
    if node.full {
      r := RebuildFull(kec, hash, m, prefix, upd, t, n);
    } else if node.val.HashNode? {
      r := RebuildExtension(kec, hash, m, prefix, upd, t, n);
    } else if node.val.ValueNode? {
      r := RebuildLeaf(kec, hash, m, prefix, upd, t, n);
    } else {
      r := Err(Panic);
    }
  }

  lemma NodeKind(kec: Keccak, s: map<Hash, Node>, t: Tree, prefix: Bytes, upd: map<Bytes, Bytes>, n: int)
    requires Shape(t, prefix, upd, n) && Matched(kec, s, t, prefix, upd) && kec(Enc(kec, t)) in s
    ensures var node := s[kec(Enc(kec, t))];
            if t.Full? then node.FullNode?
            else t.Short? && node.ShortNode? && if HasTerm(t.key) then node.val.ValueNode? else node.val.HashNode?
  {
    hide Enc, Pristine, Distinct, Reached, Visited;
    if t.Short? {
      MatchedShort(kec, s, t, prefix, upd);
      ShapeShort(t, prefix, upd, n);
      if !HasTerm(t.key) {
        ChildRef(kec, t.child, n - |t.key|);
      }
    } else {
      MatchedFull(kec, s, t, prefix, upd);
    }
  }

  method RebuildLeaf(kec: Keccak, hash: Hash, m: NodeMap, prefix: Bytes, upd: map<Bytes, Bytes>, ghost t: Tree,
                     ghost n: int)
    returns (r: Result<Hash>)
    requires t.Short? && HasTerm(t.key) && Shape(t, prefix, upd, n) && hash == kec(Enc(kec, t)) && hash in m
    requires Separate(m) && Matched(kec, Snapshot(m), t, prefix, upd)
    modifies m.Values
    ensures r == Ok(NewHash(kec, t, prefix, upd, n))
    ensures SameOutside(old(Snapshot(m)), Snapshot(m), Visited(kec, m.Keys, t))
    decreases t, 0
  {
    hide Enc, Pristine, Distinct, Reached, HexToCompact, EncodeNode;
    MatchedShort(kec, Snapshot(m), t, prefix, upd);
    ShapeShort(t, prefix, upd, n);
    var node := m[hash];
    assert Snapshot(m)[hash] == node.Content();
    var address := HexToKeybytes(prefix + node.key);
    if address.Err? {
      return Err(Panic);
    }
    if address.value in upd {
      node.val := ValueNode(upd[address.value]);
    }
    LeafEncoding(kec, t.key, NewValue(prefix + t.key, t.child.v, upd), NO_FLAG);
    node.key := HexToCompact(node.key);
    r := Ok(kec(EncodeNode(node.Content())));
  }

  method RebuildExtension(kec: Keccak, hash: Hash, m: NodeMap, prefix: Bytes, upd: map<Bytes, Bytes>, ghost t: Tree,
                          ghost n: int)
    returns (r: Result<Hash>)
    requires t.Short? && !HasTerm(t.key) && Shape(t, prefix, upd, n) && hash == kec(Enc(kec, t)) && hash in m
    requires Separate(m) && Matched(kec, Snapshot(m), t, prefix, upd)
    modifies m.Values
    ensures r == Ok(NewHash(kec, t, prefix, upd, n))
    ensures SameOutside(old(Snapshot(m)), Snapshot(m), Visited(kec, m.Keys, t))
    decreases t, 0
  {
    hide Enc, Pristine, Distinct, Reached, Visited, HexToCompact, EncodeNode, ShallowRef;
    MatchedShort(kec, Snapshot(m), t, prefix, upd);
    ShapeShort(t, prefix, upd, n);
    ChildRef(kec, t.child, n - |t.key|);
    var node := m[hash];
    assert Snapshot(m)[hash] == node.Content();
    if !node.val.HashNode? {
      return Err(Panic);
    }
    var temp := RebuildHelper(kec, node.val.h, m, prefix + node.key, upd, t.child, n - |t.key|);
    assert Snapshot(m)[hash] == node.Content();
    ReplaceShape(t.child, prefix + t.key, upd, n - |t.key|);
    NotEmbedded(kec, Replace(t.child, prefix + t.key, upd), n - |t.key|);
    ExtensionEncoding(kec, t.key, Replace(t.child, prefix + t.key, upd), NO_FLAG);
    node.val := HashNode(temp.value);
    node.key := HexToCompact(node.key);
    r := Ok(kec(EncodeNode(node.Content())));
  }

  method RebuildFull(kec: Keccak, hash: Hash, m: NodeMap, prefix: Bytes, upd: map<Bytes, Bytes>, ghost t: Tree,
                     ghost n: int)
    returns (r: Result<Hash>)
    requires t.Full? && Shape(t, prefix, upd, n) && hash == kec(Enc(kec, t)) && hash in m
    requires Separate(m) && Matched(kec, Snapshot(m), t, prefix, upd)
    modifies m.Values
    ensures r == Ok(NewHash(kec, t, prefix, upd, n))
    ensures SameOutside(old(Snapshot(m)), Snapshot(m), Visited(kec, m.Keys, t))
    decreases t, 0
  {
    hide Enc, Pristine, Distinct, Reached, Visited, VisitedUpTo, EncodeNode, NewHash, Canonical, Matched, Replace;
    var node := m[hash];
    ghost var was := Snapshot(m);
    MatchedFull(kec, was, t, prefix, upd);
    ShapeFull(t, prefix, upd, n);
    FirstSlots(kec, t, prefix, upd, n);
    assert was[hash] == node.Content();
    var slots, i := node.children, 0;
    while i < 17
      invariant 0 <= i <= 17
      invariant FullProgress(kec, was, Snapshot(m), hash, t, prefix, upd, n, i)
    {
      assert SlotsDone(kec, slots, t.children, prefix, upd, n - 1, 0);
      r := RebuildSlot(kec, hash, slots[i], m, prefix, upd, t, n, i, was);
      i := i + 1;
    }
    FullEncoding(kec, node.children, t, prefix, upd, n, NO_FLAG);
    assert Snapshot(m)[hash] == node.Content();
    r := Ok(kec(EncodeNode(node.Content())));
  }

  /** The state of the loop over a full node's children before the `i`-th. */
  ghost predicate FullProgress(kec: Keccak, was: map<Hash, Node>, s: map<Hash, Node>, hash: Hash, t: Tree,
                               prefix: Bytes, upd: map<Bytes, Bytes>, n: int, i: nat)
    requires t.Full? && LongValues(upd) && SeventeenChildren(t.children)
    requires forall j :: 0 <= j < 17 ==> Canonical(t.children[j]) && StateTrie(t.children[j], n - 1)
  {
    i <= 17 && hash in s && s[hash].FullNode? && s[hash].flags == NO_FLAG &&
    SlotsDone(kec, s[hash].children, t.children, prefix, upd, n - 1, i) &&
    SameOutside(was, s, {hash} + VisitedUpTo(kec, was.Keys, t.children, i))
  }

  /** The body of the loop: rebuild one child and store its new hash in the full node. */
  method RebuildSlot(kec: Keccak, hash: Hash, child: Node, m: NodeMap, prefix: Bytes, upd: map<Bytes, Bytes>,
                     ghost t: Tree, ghost n: int, i: nat, ghost was: map<Hash, Node>)
    returns (r: Result<Hash>)
    requires t.Full? && Shape(t, prefix, upd, n) && hash == kec(Enc(kec, t)) && hash in m && i < 17 && Separate(m)
    requires was.Keys == m.Keys && Matched(kec, was, t, prefix, upd) && SeventeenChildren(t.children)
    requires forall j :: 0 <= j < 17 ==> Canonical(t.children[j]) && StateTrie(t.children[j], n - 1)
    requires FullProgress(kec, was, Snapshot(m), hash, t, prefix, upd, n, i)
    requires child == if t.children[i] == Nil then NilNode else HashNode(kec(Enc(kec, t.children[i])))
    modifies m.Values
    ensures r.Ok? && FullProgress(kec, was, Snapshot(m), hash, t, prefix, upd, n, i + 1)
    decreases t, 0, 0
  {
    hide Enc, Pristine, Distinct, Reached, Visited, VisitedUpTo, NewHash, Canonical, StateTrie, Matched, Replace;
    var node := m[hash];
    ghost var cs, before := t.children, Snapshot(m);
    assert before[hash] == node.Content();
    if child == NilNode {
      ProgressSkip(kec, was, before, hash, t, prefix, upd, n, i);
      return Ok(hash);
    }
    if !child.HashNode? {
      return Err(Panic);
    }
    SlotReady(kec, was, before, t, prefix, upd, n, i);
    r := RebuildHelper(kec, child.h, m, prefix + [i], upd, cs[i], n - 1);
    ghost var after := Snapshot(m);
    assert after[hash] == before[hash] == node.Content();
    node.children := node.children[i := HashNode(r.value)];
    assert Snapshot(m) == after[hash := node.Content()];
    ProgressStep(kec, was, before, after, hash, t, prefix, upd, n, i);
  }

  ghost predicate SlotOk(kec: Keccak, s: map<Hash, Node>, parent: Hash, c: Tree, prefix: Bytes, upd: map<Bytes,
                         Bytes>, n: int)
    requires Child(c)
  {
    Shape(c, prefix, upd, n) && Matched(kec, s, c, prefix, upd) && parent !in Visited(kec, s.Keys, c)
  }

  /** The next child can be rebuilt, and doing so leaves the full node itself alone. */
  lemma SlotReady(kec: Keccak, was: map<Hash, Node>, s: map<Hash, Node>, t: Tree, prefix: Bytes, upd: map<Bytes,
                  Bytes>, n: int, i: nat)
    requires t.Full? && SeventeenChildren(t.children) && i < 17 && t.children[i] != Nil
    requires Shape(t, prefix, upd, n) && kec(Enc(kec, t)) in was && Matched(kec, was, t, prefix, upd)
    requires SameOutside(was, s, {kec(Enc(kec, t))} + VisitedUpTo(kec, was.Keys, t.children, i))
    ensures SlotOk(kec, s, kec(Enc(kec, t)), t.children[i], prefix + [i], upd, n - 1)
  {
    hide Enc, Visited, VisitedUpTo, Matched, Canonical, StateTrie;
    MatchedFull(kec, was, t, prefix, upd);
    ShapeFull(t, prefix, upd, n);
    MatchedChild(kec, was, t, prefix, upd, i);
    VisitedStep(kec, was.Keys, t.children, i);
    MatchedFrame(kec, was, s, t.children[i], prefix + [i], upd, {kec(Enc(kec, t))} + VisitedUpTo(kec, was.Keys, t.children, i));
  }

  lemma ProgressSkip(kec: Keccak, was: map<Hash, Node>, s: map<Hash, Node>, hash: Hash, t: Tree, prefix: Bytes,
                     upd: map<Bytes, Bytes>, n: int, i: nat)
    requires t.Full? && LongValues(upd) && SeventeenChildren(t.children) && i < 17 && t.children[i] == Nil
    requires forall j :: 0 <= j < 17 ==> Canonical(t.children[j]) && StateTrie(t.children[j], n - 1)
    requires FullProgress(kec, was, s, hash, t, prefix, upd, n, i)
    ensures FullProgress(kec, was, s, hash, t, prefix, upd, n, i + 1)
  {
    hide NewHash, Canonical, StateTrie, Enc, Visited, VisitedUpTo;
    VisitedStep(kec, was.Keys, t.children, i);
  }

  lemma ProgressStep(kec: Keccak, was: map<Hash, Node>, before: map<Hash, Node>, after: map<Hash, Node>, hash: Hash,
                     t: Tree, prefix: Bytes, upd: map<Bytes, Bytes>, n: int, i: nat)
    requires t.Full? && LongValues(upd) && SeventeenChildren(t.children) && i < 17 && t.children[i] != Nil
    requires forall j :: 0 <= j < 17 ==> Canonical(t.children[j]) && StateTrie(t.children[j], n - 1)
    requires FullProgress(kec, was, before, hash, t, prefix, upd, n, i)
    requires SameOutside(before, after, Visited(kec, was.Keys, t.children[i]))
    ensures var slots := before[hash].children[i := HashNode(NewHash(kec, t.children[i], prefix + [i], upd, n - 1))];
            FullProgress(kec, was, after[hash := FullNode(slots, NO_FLAG)], hash, t, prefix, upd, n, i + 1)
  {
    hide Enc, Visited, VisitedUpTo, NewHash, Canonical, StateTrie;
    VisitedStep(kec, was.Keys, t.children, i);
  }

  lemma FirstSlots(kec: Keccak, t: Tree, prefix: Bytes, upd: map<Bytes, Bytes>, n: int)
    requires t.Full? && Shape(t, prefix, upd, n) && SeventeenChildren(t.children)
    requires forall i :: 0 <= i < 17 ==> Canonical(t.children[i]) && StateTrie(t.children[i], n - 1)
    ensures SlotsDone(kec, ShallowRefs(kec, t.children), t.children, prefix, upd, n - 1, 0)
  {
    hide Enc, Canonical, StateTrie, NewHash;
    forall i | 0 <= i < 17 && t.children[i] != Nil
      ensures ShallowRef(kec, t.children[i]) == HashNode(kec(Enc(kec, t.children[i])))
    {
      ChildRef(kec, t.children[i], n - 1);
    }
  }

  lemma VisitedStep(kec: Keccak, dom: set<Hash>, cs: seq<Tree>, i: nat)
    requires SeventeenChildren(cs) && i < 17
    ensures VisitedUpTo(kec, dom, cs, i + 1) == VisitedUpTo(kec, dom, cs, i) + Visited(kec, dom, cs[i])
    ensures Visited(kec, dom, cs[i]) <= VisitedUpTo(kec, dom, cs, 17)
  {
    hide Visited;
    VisitedIncluded(kec, dom, cs, 17, i);
  }
}
