/**
  Merkle proofs (trie/proof.go, committee/proof.go): walking a decoded node,
  checking a proof against a root hash, and what a verdict is worth.
 */
module Proof {
  import opened Bytes
  import opened Keys
  import opened Rlp
  import opened Tree
  import opened TreeMap
  import opened Codec
  import opened Nodes
  import opened Hashing
  import opened TrieObject

  // ---------- any decoded node is safe to walk ----------

  /** Values are reached exactly at terminators, in every node that decoding can produce. */
  predicate Decoded(n: Node) {
    match n
    case NilNode => true
    case HashNode(_) => true
    case ValueNode(_) => false
    case ShortNode(k, v, _) => HexPath(k) && if HasTerm(k) then v.ValueNode? else Decoded(v)
    case FullNode(cs, _) =>
      |cs| == 17 && (cs[16].NilNode? || cs[16].ValueNode?) && forall i :: 0 <= i < 16 ==> Decoded(cs[i])
  }

  lemma CompactToHexPath(c: Bytes)
    ensures HexPath(CompactToHex(c))
  {
    if c != [] {
      hide KeybytesToHex;
      var base := KeybytesToHex(c);
      assert Nibbles(base[..|base| - 1]);
      var r := ChopFlag(base);
      var start := 2 - base[0] % 2;
      if base[0] < 2 {
        assert r == base[start..|base| - 1];
      } else {
        assert r == base[start..];
        assert HasTerm(r) ==> r[..|r| - 1] == base[start..|base| - 1];
      }
    }
  }

  lemma {:induction false} DecodeNodeDecoded(hash: Option<Hash>, buf: Bytes)
    ensures DecodeNode(hash, buf).Ok? ==> Decoded(DecodeNode(hash, buf).value)
    decreases |buf|, 0
  {
    hide Split, CountValues, DecodeShort, DecodeFull;
    var item := Split(buf);
    if item.Ok? && item.value.kind.List? {
      DecodeShortDecoded(hash, item.value.content);
      DecodeFullDecoded(hash, item.value.content);
    }
  }

  lemma DecodeShortDecoded(hash: Option<Hash>, elems: Bytes)
    ensures DecodeShort(hash, elems).Ok? ==> Decoded(DecodeShort(hash, elems).value)
    decreases |elems|, 3
  {
    hide Split, CompactToHex;
    var item := Split(elems);
    if item.Ok? {
      CompactToHexPath(item.value.content);
      DecodeRefDecoded(item.value.rest);
    }
  }

  lemma DecodeFullDecoded(hash: Option<Hash>, elems: Bytes)
    ensures DecodeFull(hash, elems).Ok? ==> Decoded(DecodeFull(hash, elems).value)
    decreases |elems|, 3
  {
    hide Split, DecodeRefs;
    DecodeRefsDecoded(elems, 16);
  }

  lemma DecodeRefsDecoded(elems: Bytes, n: nat)
    ensures var r := DecodeRefs(elems, n);
            r.Ok? ==> |r.value.0| == n && forall i :: 0 <= i < n ==> Decoded(r.value.0[i])
    decreases |elems|, 2
  {
    hide Decoded, DecodeRef;
    if n > 0 {
      DecodeRefDecoded(elems);
      var ref := DecodeRef(elems);
      if ref.Ok? {
        DecodeRefsDecoded(ref.value.1, n - 1);
      }
    }
  }

  lemma DecodeRefDecoded(buf: Bytes)
    ensures DecodeRef(buf).Ok? ==> Decoded(DecodeRef(buf).value.0)
    decreases |buf|, 1
  {
    hide Split, DecodeNode;
    DecodeNodeDecoded(None, buf);
  }

  // ---------- walking inside one decoded node ----------

  /** What is left of a key in front of a node: nothing at a value, else a key that still ends in the terminator. */
  predicate KeyLeft(n: Node, k: Bytes) {
    if n.ValueNode? then true else Decoded(n) && (HexKey(k) || (n.NilNode? && k == []))
  }

  lemma KeyLeftShort(n: Node, k: Bytes)
    requires n.ShortNode? && KeyLeft(n, k) && n.key <= k
    ensures KeyLeft(n.val, k[|n.key|..])
  {
    if !HasTerm(n.key) {
      assert |n.key| < |k|;
      HexKeySplit(k, |n.key|);
    }
  }

  lemma KeyLeftFull(n: Node, k: Bytes)
    requires n.FullNode? && KeyLeft(n, k)
    ensures k != [] && k[0] < 17 && KeyLeft(n.children[k[0]], k[1..])
  {
    HexKeySplit(k, 0);
    if k[0] < 16 {
      assert Decoded(n.children[k[0]]);
    } else {
      assert k[1..] == [];
    }
  }

  /** `get` with resolved nodes skipped: the first hash, value or gap on the way down. */
  function Walk(n: Node, k: Bytes): (r: (Bytes, Node))
    requires KeyLeft(n, k)
    ensures r.1.NilNode? || r.1.HashNode? || r.1.ValueNode?
    ensures r.1.HashNode? ==> HexKey(r.0) && |r.0| <= |k|
  {
    match n
    case NilNode => (k, n)
    case HashNode(_) => (k, n)
    case ValueNode(_) => ([], n)
    case ShortNode(key, val, _) =>
      if key <= k then (KeyLeftShort(n, k); Walk(val, k[|key|..])) else ([], NilNode)
    case FullNode(cs, _) =>
      KeyLeftFull(n, k);
      Walk(cs[k[0]], k[1..])
  }

  method WalkLoop(n: Node, k: Bytes) returns (rest: Bytes, child: Node)
    requires KeyLeft(n, k)
    ensures (rest, child) == Walk(n, k)
  {
    rest, child := k, n;
    while child.ShortNode? || child.FullNode?
      invariant KeyLeft(child, rest) && Walk(child, rest) == Walk(n, k)
      decreases child
    {
      if child.ShortNode? {
        if !(child.key <= rest) {
          return [], NilNode;
        }
        KeyLeftShort(child, rest);
        rest, child := rest[|child.key|..], child.val;
      } else {
        KeyLeftFull(child, rest);
        rest, child := rest[1..], child.children[rest[0]];
      }
    }
    if child.ValueNode? {
      rest := [];
    }
  }

  // ---------- checking a proof ----------

  datatype Verdict =
    | Present(value: Bytes)
    | Absent
    | Refused(why: Error)  // a node is missing or does not decode
    | Unfinished           // more rounds are needed

  function LoadProofNode(store: Store, want: Hash): (r: Result<Node>)
    ensures r.Ok? ==> want in store && Decoded(r.value) && (r.value.ShortNode? || r.value.FullNode?)
  {
    if want !in store then Err(MissingNode(want))
    else
      DecodeNodeDecoded(Some(want), store[want]);
      DecodeNodeShape(Some(want), store[want]);
      hide DecodeNode, Decoded;
      DecodeNode(Some(want), store[want])
  }

  lemma DecodeNodeShape(hash: Option<Hash>, buf: Bytes)
    ensures var r := DecodeNode(hash, buf); r.Ok? ==> r.value.ShortNode? || r.value.FullNode?
  {
  }

  /** At most `rounds` turns of the loop of `VerifyProof`. */
  function Verify(store: Store, want: Hash, k: Bytes, rounds: nat): (r: Verdict)
    requires HexKey(k)
    decreases rounds
  {
    if rounds == 0 then Unfinished
    else
      hide LoadProofNode, Walk, Decoded;
      var n := LoadProofNode(store, want);
      if n.Err? then Refused(n.error)
      else
        var (rest, child) := Walk(n.value, k);
        match child
        case ValueNode(v) => Present(v)
        case HashNode(h) => Verify(store, h, rest, rounds - 1)
        case _ => Absent
  }

  /** `VerifyProof` never panics, whatever bytes the store holds. */
  method VerifyProof(store: Store, rootHash: Hash, key: Bytes, rounds: nat) returns (r: Verdict)
    ensures r == Verify(store, rootHash, KeybytesToHex(key), rounds)
  {
    hide LoadProofNode, Walk, Decoded, KeybytesToHex;
    var k, want, i := KeybytesToHex(key), rootHash, 0;
    while i < rounds
      invariant i <= rounds && HexKey(k)
      invariant Verify(store, want, k, rounds - i) == Verify(store, rootHash, KeybytesToHex(key), rounds)
    {
      var n := LoadProofNode(store, want);
      if n.Err? {
        return Refused(n.error);
      }
      var rest, child := WalkLoop(n.value, k);
      match child {
        case ValueNode(v) => return Present(v);
        case HashNode(h) => k, want := rest, h;
        case _ => return Absent;
      }
      i := i + 1;
    }
    r := Unfinished;
  }

  // ---------- what a verdict is worth ----------

  function Answer(v: Option<Bytes>): (r: Verdict) {
    if v.Some? then Present(v.value) else Absent
  }

  /** The store has every node on the way of `k` that is referred to by hash (a root always is). */
  ghost predicate Covers(kec: Keccak, db: Store, t: Tree, k: Bytes, root: bool)
    requires Child(t)
  {
    match t
    case Nil => true
    case Value(_) => true
    case Short(key, c) =>
      (root || |Enc(kec, t)| >= 32 ==> kec(Enc(kec, t)) in db) &&
      (key <= k ==> Covers(kec, db, c, k[|key|..], false))
    case Full(cs) =>
      (root || |Enc(kec, t)| >= 32 ==> kec(Enc(kec, t)) in db) &&
      (k != [] && k[0] < 17 ==> Covers(kec, db, cs[k[0]], k[1..], false))
  }

  /** A walk through trie `t`: the real answer, or a hash that commits to the sub-trie `sub` to go on in. */
  ghost predicate WalkOk(kec: Keccak, db: Store, w: (Bytes, Node), t: Tree, k: Bytes, sub: Tree)
    requires Child(t)
  {
    if w.1.HashNode? then
      IsNode(sub) && w.1.h == kec(Enc(kec, sub)) && Fits(kec, sub) && Agrees(kec, db, sub) &&
      |w.0| <= |k| && Get(t, k) == Get(sub, w.0) &&
      (Covers(kec, db, t, k, false) ==> Covers(kec, db, sub, w.0, true))
    else Answer(Get(t, k)) == if w.1.ValueNode? then Present(w.1.v) else Absent
  }

  lemma {:induction false} WalkShallow(kec: Keccak, db: Store, t: Tree, hash: Option<Hash>,
                                       k: Bytes) returns (sub: Tree)
    requires IsNode(t) && KeyFor(t, k) && Fits(kec, t) && Agrees(kec, db, t)
    ensures KeyLeft(Shallow(kec, t, hash), k)
    ensures WalkOk(kec, db, Walk(Shallow(kec, t, hash), k), t, k, sub)
    ensures Walk(Shallow(kec, t, hash), k).1.HashNode? ==> |Walk(Shallow(kec, t, hash), k).0| < |k|
    decreases t, 0
  {
    hide Enc, ShallowRef, HexKey;
    ShallowDecoded(kec, t, hash);
    sub := t;
    match t
    case Short(key, c) =>
      if key <= k {
        KeyBelowShort(t, k);
        sub := WalkRef(kec, db, c, k[|key|..]);
      }
    case Full(cs) =>
      KeyBelowFull(t, k);
      sub := WalkRef(kec, db, cs[k[0]], k[1..]);
  }

  lemma WalkRef(kec: Keccak, db: Store, t: Tree, k: Bytes) returns (sub: Tree)
    requires Child(t) && KeyFor(t, k) && Fits(kec, t) && Agrees(kec, db, t)
    ensures KeyLeft(ShallowRef(kec, t), k)
    ensures WalkOk(kec, db, Walk(ShallowRef(kec, t), k), t, k, sub)
    decreases t, 1
  {
    hide Enc, Shallow;
    sub := t;
    if IsNode(t) && |Enc(kec, t)| < 32 {
      sub := WalkShallow(kec, db, t, None, k);
    }
  }

  lemma {:induction false} ShallowDecoded(kec: Keccak, t: Tree, hash: Option<Hash>)
    requires IsNode(t)
    ensures Decoded(Shallow(kec, t, hash))
    decreases t, 0
  {
    hide Enc;
    match t
    case Short(k, c) => ShallowRefDecoded(kec, c);
    case Full(cs) =>
      forall i | 0 <= i < 16 ensures Decoded(ShallowRef(kec, cs[i])) {
        ShallowRefDecoded(kec, cs[i]);
      }
  }

  lemma ShallowRefDecoded(kec: Keccak, t: Tree)
    requires Child(t)
    ensures t.Value? || Decoded(ShallowRef(kec, t))
    decreases t, 1
  {
    hide Enc;
    if IsNode(t) {
      ShallowDecoded(kec, t, None);
    }
  }

  /** For every number of rounds the verdict on a faithful store is the truth, an honest refusal, or not there yet. */
  lemma {:induction false} VerifyTrue(kec: Keccak, db: Store, t: Tree, k: Bytes, rounds: nat)
    requires IsNode(t) && HexKey(k) && Fits(kec, t) && Agrees(kec, db, t)
    ensures var r := Verify(db, kec(Enc(kec, t)), k, rounds);
            (r == Answer(Get(t, k)) || r == Unfinished ||
             (r.Refused? && r.why.MissingNode? && r.why.hash !in db)) &&
            (rounds >= |k| ==> r != Unfinished) &&
            (Covers(kec, db, t, k, true) ==> !r.Refused?)
    decreases rounds
  {
    hide LoadProofNode, Walk, Get, Enc, Answer;
    assert |k| > 0;
    if rounds > 0 {
      LoadEnc(kec, db, t);
      if kec(Enc(kec, t)) in db {
        var h := kec(Enc(kec, t));
        var sub := WalkShallow(kec, db, t, Some(h), k);
        var w := Walk(Shallow(kec, t, Some(h)), k);
        CoversWeaken(kec, db, t, k);
        if w.1.HashNode? {
          VerifyTrue(kec, db, sub, w.0, rounds - 1);
        }
      }
    }
  }

  lemma CoversWeaken(kec: Keccak, db: Store, t: Tree, k: Bytes)
    requires Child(t)
    ensures Covers(kec, db, t, k, true) ==> Covers(kec, db, t, k, false)
  {
    hide Enc;
  }

  lemma LoadEnc(kec: Keccak, db: Store, t: Tree)
    requires IsNode(t) && Fits(kec, t) && Agrees(kec, db, t)
    ensures var h := kec(Enc(kec, t));
            LoadProofNode(db, h) == if h in db then Ok(Shallow(kec, t, Some(h))) else Err(MissingNode(h))
  {
    hide Enc, DecodeNode, Shallow;
    var h := kec(Enc(kec, t));
    if h in db {
      assert AgreesHere(kec, db, t);
      DecodeEnc(kec, t, Some(h), []);
      assert Enc(kec, t) + [] == Enc(kec, t);
    }
  }

  // ---------- proof stores that hold only preimages ----------

  ghost predicate ContentAddressed(kec: Keccak, db: Store) {
    forall h :: h in db ==> kec(db[h]) == h
  }

  /** `proofReader.Get`: the first proof element with this hash, so never anything but a preimage of it. */
  method ReadProof(kec: Keccak, proof: seq<Bytes>, key: Bytes) returns (r: Option<Bytes>)
    ensures r.Some? ==> r.value in proof && kec(r.value) == key
    ensures r.None? ==> forall p :: p in proof ==> kec(p) != key
  {
    for i := 0 to |proof|
      invariant forall p :: p in proof[..i] ==> kec(p) != key
    {
      if kec(proof[i]) == key {
        return Some(proof[i]);
      }
    }
    r := None;
  }

  /** The encodings of all nodes of a trie. */
  ghost function Encs(kec: Keccak, t: Tree): (s: set<Bytes>)
    requires Child(t)
  {
    match t
    case Nil => {}
    case Value(_) => {}
    case Short(_, c) => {Enc(kec, t)} + Encs(kec, c)
    case Full(cs) => {Enc(kec, t)} + set i, e | 0 <= i < |cs| && e in Encs(kec, cs[i]) :: e
  }

  /** No two different strings of this finite set have the same hash. */
  ghost predicate NoClash(kec: Keccak, s: set<Bytes>) {
    forall a, b :: a in s && b in s && kec(a) == kec(b) ==> a == b
  }

  lemma {:induction false} PreimagesAgree(kec: Keccak, db: Store, t: Tree, s: set<Bytes>)
    requires Child(t) && ContentAddressed(kec, db) && NoClash(kec, s)
    requires Encs(kec, t) <= s && db.Values <= s
    ensures Agrees(kec, db, t)
    decreases t
  {
    hide Enc;
    match t
    case Nil =>
    case Value(_) =>
    case Short(_, c) => PreimagesAgree(kec, db, c, s);
    case Full(cs) =>
      forall i | 0 <= i < |cs| ensures Agrees(kec, db, cs[i]) {
        forall e | e in Encs(kec, cs[i]) ensures e in s {
          assert e in Encs(kec, t);
        }
        PreimagesAgree(kec, db, cs[i], s);
      }
  }

  /**
    Soundness: against the root hash of a trie and any store that returns only
    preimages of the hash asked for, an answer is the trie's own answer. The
    checks end within as many rounds as the key has nibbles.
   */
  lemma VerifySound(kec: Keccak, db: Store, t: Tree, key: Bytes, rounds: nat)
    requires Canonical(t) && Fits(kec, t) && ContentAddressed(kec, db)
    requires NoClash(kec, Encs(kec, t) + {EncodeString([])} + db.Values)
    requires rounds > 2 * |key|
    ensures var r := Verify(db, RootHash(kec, t), KeybytesToHex(key), rounds);
            r.Refused? || r == Answer(Get(t, KeybytesToHex(key)))
  {
    hide Verify, Enc;
    if t == Nil {
      EmptyRefused(kec, db, KeybytesToHex(key), rounds);
    } else {
      PreimagesAgree(kec, db, t, Encs(kec, t) + {EncodeString([])} + db.Values);
      VerifyTrue(kec, db, t, KeybytesToHex(key), rounds);
    }
  }

  /** No store can prove anything about the empty trie, not even absence. */
  lemma EmptyRefused(kec: Keccak, db: Store, k: Bytes, rounds: nat)
    requires HexKey(k) && rounds > 0 && ContentAddressed(kec, db)
    requires NoClash(kec, {EncodeString([])} + db.Values)
    ensures Verify(db, kec(EncodeString([])), k, rounds).Refused?
  {
    var h := kec(EncodeString([]));
    if h in db {
      assert db[h] in db.Values;
      assert db[h] == [0x80];
      assert DecodeNode(Some(h), [0x80]).Err?;
    }
  }

  // ---------- building a proof ----------

  /** The nodes on the way of a key, from the root down to where it ends or leaves the trie. */
  function Path(t: Tree, k: Bytes): (r: seq<Tree>)
    decreases t
  {
    match t
    case Nil => []
    case Value(_) => []
    case Short(key, c) => [t] + if key <= k then Path(c, k[|key|..]) else []
    case Full(cs) => [t] + if k != [] && k[0] < |cs| then Path(cs[k[0]], k[1..]) else []
  }

  lemma {:induction false} PathNodes(kec: Keccak, t: Tree, k: Bytes)
    requires Child(t)
    ensures forall p :: p in Path(t, k) ==> IsNode(p) && Enc(kec, p) in Encs(kec, t)
    decreases t
  {
    hide Enc;
    match t
    case Nil =>
    case Value(_) =>
    case Short(key, c) =>
      if key <= k {
        PathNodes(kec, c, k[|key|..]);
      }
    case Full(cs) =>
      if k != [] && k[0] < |cs| {
        PathNodes(kec, cs[k[0]], k[1..]);
      }
  }

  /** A node becomes a proof element if it is referred to by hash or is the root. */
  predicate Proved(kec: Keccak, p: Tree, i: nat, from: nat)
    requires IsNode(p)
  {
    i >= from && (i == 0 || |Enc(kec, p)| >= 32)
  }

  /** The proof store after the nodes of a path from the `i`-th on were added. */
  function PutPath(kec: Keccak, path: seq<Tree>, i: nat, from: nat, db: Store): (r: Store)
    requires i <= |path| && forall p :: p in path ==> IsNode(p)
    decreases |path| - i
  {
    if i == |path| then db
    else
      PutPath(kec, path, i + 1, from,
              if Proved(kec, path[i], i, from) then db[kec(Enc(kec, path[i])) := Enc(kec, path[i])] else db)
  }

  /** One step down from a node in memory keeps standing for the sub-trie the key leads to. */
  lemma StepShort(kec: Keccak, db: Store, n: Node, t: Tree, k: Bytes) returns (c: Tree)
    requires n.ShortNode? && Child(t) && Rep(kec, db, n, t, true) && KeyFor(t, k)
    ensures IsNode(t) && Child(c)
    ensures n.key <= k ==> c < t && Path(t, k) == [t] + Path(c, k[|n.key|..]) &&
                           Rep(kec, db, n.val, c, true) && KeyFor(c, k[|n.key|..])
    ensures !(n.key <= k) ==> c == Nil && Path(t, k) == [t]
  {
    if n.key <= k {
      c := t.child;
      KeyBelowShort(t, k);
      RootRep(kec, db, n.val, c);
    } else {
      c := Nil;
    }
  }

  lemma StepFull(kec: Keccak, db: Store, n: Node, t: Tree, k: Bytes) returns (c: Tree)
    requires n.FullNode? && Child(t) && Rep(kec, db, n, t, true) && KeyFor(t, k)
    ensures IsNode(t) && Child(c) && k != [] && k[0] < 17 && |n.children| == 17
    ensures c < t && Path(t, k) == [t] + Path(c, k[1..])
    ensures Rep(kec, db, n.children[k[0]], c, true) && KeyFor(c, k[1..])
  {
    KeyBelowFull(t, k);
    c := t.children[k[0]];
    RootRep(kec, db, n.children[k[0]], c);
  }

  /** The first loop of `Prove`: collect the nodes on the way, loading what is not in memory. */
  method CollectPath(kec: Keccak, db: Store, root: Node, key: Bytes, ghost t: Tree)
    returns (r: Result<seq<Node>>)
    requires Canonical(t) && Rep(kec, db, root, t, true) && HexKey(key)
    ensures r.Err? ==> r.error.MissingNode? && r.error.hash !in db
    ensures r.Ok? ==> Collected(kec, db, r.value, Path(t, key))
  {
    hide Rep, Path, Canonical, HexKey, Resolve;
    var nodes: seq<Node>, tn, k := [], root, key;
    ghost var tt, done: seq<Tree> := t, [];
    CanonicalShape(t);
    while |k| > 0 && tn != NilNode
      invariant Child(tt) && Rep(kec, db, tn, tt, true) && KeyFor(tt, k)
      invariant Path(t, key) == done + Path(tt, k)
      invariant Collected(kec, db, nodes, done)
      decreases tn != NilNode, tt, tn.HashNode?
    {
      if tn.ShortNode? {
        ghost var c := StepShort(kec, db, tn, tt, k);
        nodes, done := nodes + [tn], done + [tt];
        if tn.key <= k {
          tn, k, tt := tn.val, k[|tn.key|..], c;
        } else {
          NilRep(kec, db, k);
          tn, tt := NilNode, Nil;
        }
      } else if tn.FullNode? {
        ghost var c := StepFull(kec, db, tn, tt, k);
        nodes, done := nodes + [tn], done + [tt];
        tn, k, tt := tn.children[k[0]], k[1..], c;
      } else if tn.HashNode? {
        ResolveRep(kec, db, tn.h, tt, true);
        var n := Resolve(db, tn.h);
        if n.Err? {
          return Err(n.error);
        }
        tn := n.value;
      } else {
        ValueRep(kec, db, tn, tt, k);
        return Err(Panic);
      }
    }
    PathEnd(kec, db, tn, tt, k);
    r := Ok(nodes);
  }

  ghost predicate Collected(kec: Keccak, db: Store, nodes: seq<Node>, path: seq<Tree>) {
    |nodes| == |path| &&
    forall i :: 0 <= i < |path| ==>
      IsNode(path[i]) && (nodes[i].ShortNode? || nodes[i].FullNode?) && Rep(kec, db, nodes[i], path[i], true)
  }

  lemma NilRep(kec: Keccak, db: Store, k: Bytes)
    ensures Rep(kec, db, NilNode, Nil, true) && Path(Nil, k) == [] && Canonical(Nil)
  {
  }

  lemma ValueRep(kec: Keccak, db: Store, n: Node, t: Tree, k: Bytes)
    requires Child(t) && Rep(kec, db, n, t, true) && KeyFor(t, k) && n.ValueNode?
    ensures k == []
  {
  }

  lemma PathEnd(kec: Keccak, db: Store, n: Node, t: Tree, k: Bytes)
    requires Child(t) && Rep(kec, db, n, t, true) && KeyFor(t, k) && (k == [] || n == NilNode)
    ensures Path(t, k) == []
  {
  }

  lemma RootRep(kec: Keccak, db: Store, n: Node, t: Tree)
    requires Child(t) && Rep(kec, db, n, t, false)
    ensures Rep(kec, db, n, t, true)
  {
  }

  /** `Prove`: the proof store gains exactly the elements of the key's path from `fromLevel` on. */
  method Prove(trie: Trie, key: Bytes, fromLevel: nat, proofDb: Store) returns (r: Result<Store>)
    requires trie.Valid()
    ensures r.Err? ==> r.error.MissingNode? && r.error.hash !in trie.db
    ensures r.Ok? ==>
              var path := Path(trie.tree, KeybytesToHex(key));
              (forall p :: p in path ==> IsNode(p)) &&
              r.value == PutPath(trie.kec, path, 0, fromLevel, proofDb)
  {
    hide Path, Rep, EncodeNode, Enc;
    var nodes := CollectPath(trie.kec, trie.db, trie.root, KeybytesToHex(key), trie.tree);
    if nodes.Err? {
      return Err(nodes.error);
    }
    ghost var path := Path(trie.tree, KeybytesToHex(key));
    assert forall p :: p in path ==> IsNode(p);
    var db, i := proofDb, 0;
    while i < |nodes.value|
      invariant i <= |path|
      invariant PutPath(trie.kec, path, i, fromLevel, db) == PutPath(trie.kec, path, 0, fromLevel, proofDb)
    {
      if i >= fromLevel {
        db := PutNode(trie.kec, trie.db, nodes.value[i], i == 0, db, path[i]);
      }
      i := i + 1;
    }
    r := Ok(db);
  }

  /** The body of the second loop of `Prove`: `proofHash`, then `Put` if the node is hashed or the root. */
  method PutNode(kec: Keccak, ghost store: Store, n: Node, first: bool, db: Store, ghost t: Tree) returns (r: Store)
    requires IsNode(t) && Rep(kec, store, n, t, true) && (n.ShortNode? || n.FullNode?)
    ensures r == if first || |Enc(kec, t)| >= 32 then db[kec(Enc(kec, t)) := Enc(kec, t)] else db
  {
    hide Rep, EncodeNode, Enc;
    var collapsed := Collapse(kec, n, store, t, true).hashed;
    CollapseOk(kec, store, n, t, true);
    var hn := ToHash(kec, collapsed, false);
    r := db;
    if hn.HashNode? || first {
      var enc := EncodeNode(collapsed);
      r := db[kec(enc) := enc];
    }
  }

  // ---------- proofs that were built check out ----------

  lemma {:induction false} PutPathKeeps(kec: Keccak, path: seq<Tree>, i: nat, from: nat, db: Store)
    requires i <= |path| && forall p :: p in path ==> IsNode(p)
    requires ContentAddressed(kec, db)
    ensures var r := PutPath(kec, path, i, from, db);
            db.Keys <= r.Keys && ContentAddressed(kec, r) &&
            (forall j :: i <= j < |path| && Proved(kec, path[j], j, from) ==> kec(Enc(kec, path[j])) in r) &&
            (forall h :: h in r ==> (h in db && r[h] == db[h]) || exists p :: p in path && IsNode(p) && r[h] == Enc(kec, p))
    decreases |path| - i
  {
    hide Enc;
    if i < |path| {
      assert path[i] in path;
      var e := Enc(kec, path[i]);
      var next := if Proved(kec, path[i], i, from) then db[kec(e) := e] else db;
      PutPathKeeps(kec, path, i + 1, from, next);
    }
  }

  /** The store has the long nodes of a path, and its first one if that is a root. */
  ghost predicate HasPath(kec: Keccak, db: Store, path: seq<Tree>, root: bool) {
    forall i :: 0 <= i < |path| ==>
      IsNode(path[i]) && ((root && i == 0) || |Enc(kec, path[i])| >= 32 ==> kec(Enc(kec, path[i])) in db)
  }

  lemma HasPathTail(kec: Keccak, db: Store, t: Tree, rest: seq<Tree>, root: bool)
    requires HasPath(kec, db, [t] + rest, root)
    ensures IsNode(t) && (root || |Enc(kec, t)| >= 32 ==> kec(Enc(kec, t)) in db)
    ensures HasPath(kec, db, rest, false)
  {
    hide Enc, IsNode;
    assert ([t] + rest)[0] == t;
    assert forall i :: 0 <= i < |rest| ==> rest[i] == ([t] + rest)[i + 1];
  }

  lemma {:induction false} PathCovers(kec: Keccak, db: Store, t: Tree, k: Bytes, root: bool)
    requires Child(t) && KeyFor(t, k) && HasPath(kec, db, Path(t, k), root)
    ensures Covers(kec, db, t, k, root)
    decreases t
  {
    hide Enc, HexKey, HasPath;
    match t
    case Nil =>
    case Value(_) =>
    case Short(key, c) =>
      var rest := if key <= k then Path(c, k[|key|..]) else [];
      HasPathTail(kec, db, t, rest, root);
      if key <= k {
        KeyBelowShort(t, k);
        PathCovers(kec, db, c, k[|key|..], false);
      }
    case Full(cs) =>
      KeyBelowFull(t, k);
      HasPathTail(kec, db, t, Path(cs[k[0]], k[1..]), root);
      PathCovers(kec, db, cs[k[0]], k[1..], false);
  }

  /**
    Completeness: the proof that `Prove` builds is accepted exactly when the trie
    is not empty, and then gives the trie's answer, be it a value or absence.
   */
  lemma ProofAccepted(kec: Keccak, t: Tree, key: Bytes, rounds: nat)
    requires Canonical(t) && Fits(kec, t) && NoClash(kec, Encs(kec, t)) && rounds > 2 * |key|
    ensures forall p :: p in Path(t, KeybytesToHex(key)) ==> IsNode(p)
    ensures var db := PutPath(kec, Path(t, KeybytesToHex(key)), 0, 0, map[]);
            var r := Verify(db, RootHash(kec, t), KeybytesToHex(key), rounds);
            (!r.Refused? <==> t != Nil) && (t != Nil ==> r == Answer(Get(t, KeybytesToHex(key))))
  {
    hide Enc, Path, Get, PutPath, Covers, KeybytesToHex;
    var k := KeybytesToHex(key);
    var path := Path(t, k);
    PathNodes(kec, t, k);
    if t == Nil {
      EmptyPath(kec, k);
    } else {
      hide Verify;
      var db := PutPath(kec, path, 0, 0, map[]);
      PutPathKeeps(kec, path, 0, 0, map[]);
      assert HasPath(kec, db, path, true);
      PathCovers(kec, db, t, k, true);
      assert db.Values <= Encs(kec, t);
      PreimagesAgree(kec, db, t, Encs(kec, t));
      VerifyTrue(kec, db, t, k, rounds);
    }
  }

  lemma EmptyPath(kec: Keccak, k: Bytes)
    ensures Path(Nil, k) == [] && PutPath(kec, [], 0, 0, map[]) == map[]
  {
  }
}
