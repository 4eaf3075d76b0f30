/**
  How a trie becomes bytes and hashes (trie/node_enc.go, trie/hasher.go) and
  how bytes become nodes again (trie/node.go).

  `Enc` is the encoding computed from scratch: every child is embedded when its
  own encoding is shorter than 32 bytes and replaced by its hash otherwise
  (Appendix D of the Ethereum Yellow Paper).
 */
module Codec {
  import opened Bytes
  import opened Keys
  import opened Rlp
  import opened Tree

  // ---------- encoding a trie from scratch ----------

  function Enc(kec: Keccak, t: Tree): (r: Bytes)
    requires Canonical(t) && t != Nil
    ensures |r| >= 1
    decreases t, 0
  {
    match t
    case Short(k, c) => EncodeList(EncodeString(HexToCompact(k)) + Ref(kec, c))
    case Full(cs) => EncodeList(Concat(Refs(kec, cs)))
  }

  /** A child as it appears inside its parent's encoding. */
  function Ref(kec: Keccak, t: Tree): (r: Bytes)
    requires Child(t)
    ensures |r| >= 1
    decreases t, 1
  {
    match t
    case Nil => EncodeString([])
    case Value(v) => EncodeString(v)
    case _ => if |Enc(kec, t)| < 32 then Enc(kec, t) else EncodeString(kec(Enc(kec, t)))
  }

  function Refs(kec: Keccak, cs: seq<Tree>): (r: seq<Bytes>)
    requires forall i :: 0 <= i < |cs| ==> Child(cs[i])
    ensures |r| == |cs|
    ensures forall i :: 0 <= i < |cs| ==> r[i] == Ref(kec, cs[i])
    decreases cs
  {
    if cs == [] then [] else [Ref(kec, cs[0])] + Refs(kec, cs[1..])
  }

  function RootHash(kec: Keccak, t: Tree): (h: Hash)
    requires Canonical(t)
  {
    if t == Nil then kec(EncodeString([])) else kec(Enc(kec, t))
  }

  /** Every encoding in the trie is short enough for the eight length bytes, as any Go slice is. */
  predicate Fits(kec: Keccak, t: Tree)
    requires Child(t)
  {
    match t
    case Nil => true
    case Value(v) => |v| < SIZE_LIMIT
    case Short(k, c) => |Enc(kec, t)| < SIZE_LIMIT && Fits(kec, c)
    case Full(cs) =>
      |Enc(kec, t)| < SIZE_LIMIT && forall i :: 0 <= i < |cs| ==> Fits(kec, cs[i])
  }

  // ---------- nodes in memory ----------

  datatype Flag = Flag(hash: Option<Hash>, dirty: bool)

  datatype Node =
    | NilNode
    | ValueNode(v: Bytes)
    | ShortNode(key: Bytes, val: Node, flags: Flag)
    | FullNode(children: seq<Node>, flags: Flag)
    | HashNode(h: Hash)

  function EncodeNode(n: Node): (r: Bytes) {
    match n
    case NilNode => EncodeString([])
    case ValueNode(v) => EncodeString(v)
    case HashNode(h) => EncodeString(h)
    case ShortNode(key, val, _) => EncodeList(EncodeString(key) + EncodeNode(val))
    case FullNode(cs, _) => EncodeList(Concat(EncodeNodes(cs)))
  }

  function EncodeNodes(cs: seq<Node>): (r: seq<Bytes>)
    ensures |r| == |cs|
    ensures forall i :: 0 <= i < |cs| ==> r[i] == EncodeNode(cs[i])
    decreases cs
  {
    if cs == [] then [] else [EncodeNode(cs[0])] + EncodeNodes(cs[1..])
  }

  // ---------- decoding ----------

  function DecodeNode(hash: Option<Hash>, buf: Bytes): (r: Result<Node>)
    decreases |buf|, 0
  {
    var item := Split(buf);
    if item.Err? || !item.value.kind.List? then Err(Malformed)
    else
      var elems := item.value.content;
      var count := CountValues(elems);
      if count == Ok(2) then DecodeShort(hash, elems)
      else if count == Ok(17) then DecodeFull(hash, elems)
      else Err(Malformed)
  }

  function DecodeShort(hash: Option<Hash>, elems: Bytes): (r: Result<Node>)
    decreases |elems|, 3
  {
    var item := Split(elems);
    if item.Err? || item.value.kind.List? then Err(Malformed)
    else
      var key := CompactToHex(item.value.content);
      if HasTerm(key) then
        var val := Split(item.value.rest);
        if val.Err? || val.value.kind.List? then Err(Malformed)
        else Ok(ShortNode(key, ValueNode(val.value.content), Flag(hash, false)))
      else
        var ref := DecodeRef(item.value.rest);
        if ref.Err? then Err(ref.error) else Ok(ShortNode(key, ref.value.0, Flag(hash, false)))
  }

  function DecodeFull(hash: Option<Hash>, elems: Bytes): (r: Result<Node>)
    decreases |elems|, 3
  {
    var refs := DecodeRefs(elems, 16);
    if refs.Err? then Err(refs.error)
    else
      var val := Split(refs.value.1);
      if val.Err? || val.value.kind.List? then Err(Malformed)
      else
        var last := if val.value.content == [] then NilNode else ValueNode(val.value.content);
        Ok(FullNode(refs.value.0 + [last], Flag(hash, false)))
  }

  function DecodeRefs(elems: Bytes, n: nat): (r: Result<(seq<Node>, Bytes)>)
    decreases |elems|, 2
  {
    if n == 0 then Ok(([], elems))
    else
      var ref := DecodeRef(elems);
      if ref.Err? then Err(ref.error)
      else
        var more := DecodeRefs(ref.value.1, n - 1);
        if more.Err? then more else Ok(([ref.value.0] + more.value.0, more.value.1))
  }

  function DecodeRef(buf: Bytes): (r: Result<(Node, Bytes)>)
    ensures r.Ok? ==> |r.value.1| < |buf|
    decreases |buf|, 1
  {
    var item := Split(buf);
    if item.Err? then Err(Malformed)
    else
      var Item(kind, val, rest) := item.value;
      if kind.List? then
        if |buf| - |rest| > 32 then Err(Malformed)
        else
          var n := DecodeNode(None, buf);
          if n.Err? then Err(n.error) else Ok((n.value, rest))
      else if kind.String? && |val| == 0 then Ok((NilNode, rest))
      else if kind.String? && |val| == 32 then Ok((HashNode(val), rest))
      else Err(Malformed)
  }

  // ---------- what decoding gives back ----------

  /** A trie node with its hashed children left as hashes: the node that a stored encoding stands for. */
  function Shallow(kec: Keccak, t: Tree, hash: Option<Hash>): (n: Node)
    requires Canonical(t) && t != Nil
    ensures n.ShortNode? || n.FullNode?
    decreases t, 0
  {
    match t
    case Short(k, c) => ShortNode(k, ShallowRef(kec, c), Flag(hash, false))
    case Full(cs) => FullNode(ShallowRefs(kec, cs), Flag(hash, false))
  }

  function ShallowRef(kec: Keccak, t: Tree): (n: Node)
    requires Child(t)
    decreases t, 1
  {
    match t
    case Nil => NilNode
    case Value(v) => ValueNode(v)
    case _ => if |Enc(kec, t)| < 32 then Shallow(kec, t, None) else HashNode(kec(Enc(kec, t)))
  }

  function ShallowRefs(kec: Keccak, cs: seq<Tree>): (r: seq<Node>)
    requires forall i :: 0 <= i < |cs| ==> Child(cs[i])
    ensures |r| == |cs|
    ensures forall i :: 0 <= i < |cs| ==> r[i] == ShallowRef(kec, cs[i])
    decreases cs
  {
    if cs == [] then [] else [ShallowRef(kec, cs[0])] + ShallowRefs(kec, cs[1..])
  }

  /** The payload of a node's encoding, with the sizes that reading it back relies on. */
  lemma EncIsList(kec: Keccak, t: Tree) returns (payload: Bytes)
    requires Canonical(t) && t != Nil && Fits(kec, t)
    ensures Enc(kec, t) == EncodeList(payload)
    ensures |payload| < |Enc(kec, t)| < SIZE_LIMIT
    ensures t.Short? ==> payload == EncodeString(HexToCompact(t.key)) + Ref(kec, t.child)
    ensures t.Short? ==> |HexToCompact(t.key)| < SIZE_LIMIT
    ensures t.Full? ==> payload == Concat(Refs(kec, t.children))
  {
    hide HexToCompact, Refs, Ref;
    match t
    case Short(k, c) => payload := EncodeString(HexToCompact(k)) + Ref(kec, c);
    case Full(cs) => payload := Concat(Refs(kec, cs));
  }

  lemma RefIsItem(kec: Keccak, t: Tree)
    requires Child(t) && Fits(kec, t)
    ensures IsItem(Ref(kec, t))
  {
    hide EncodeString, EncodeList, Enc;
    match t
    case Nil => assert EncodeString([]) == Ref(kec, t);
    case Value(v) => assert Ref(kec, t) == EncodeString(v);
    case _ =>
      if |Enc(kec, t)| < 32 {
        var payload := EncIsList(kec, t);
      } else {
        assert Ref(kec, t) == EncodeString(kec(Enc(kec, t)));
      }
  }

  /** Reading a stored encoding gives the node it was written for, whatever follows it in the buffer. */
  lemma {:induction false} DecodeEnc(kec: Keccak, t: Tree, hash: Option<Hash>, rest: Bytes)
    requires Canonical(t) && t != Nil && Fits(kec, t)
    ensures DecodeNode(hash, Enc(kec, t) + rest) == Ok(Shallow(kec, t, hash))
    decreases t, 1
  {
    hide *;
    var payload := EncIsList(kec, t);
    SplitList(payload, rest);
    if t.Short? {
      DecodeShortEnc(kec, t, hash);
    } else {
      CanonicalShape(t);
      DecodeFullEnc(kec, t, hash);
    }
    DecodeNodeOfList(hash, payload, rest);
  }

  lemma CanonicalShape(t: Tree)
    requires Canonical(t)
    ensures t == Nil || t.Short? || t.Full?
  {
  }

  lemma DecodeNodeOfList(hash: Option<Hash>, payload: Bytes, rest: Bytes)
    requires Split(EncodeList(payload) + rest) == Ok(Item(List, payload, rest))
    ensures CountValues(payload) == Ok(2) ==>
              DecodeNode(hash, EncodeList(payload) + rest) == DecodeShort(hash, payload)
    ensures CountValues(payload) == Ok(17) ==>
              DecodeNode(hash, EncodeList(payload) + rest) == DecodeFull(hash, payload)
  {
    hide Split, CountValues, DecodeShort, DecodeFull, EncodeList;
  }

  lemma ShortCount(head: Bytes, ref: Bytes)
    requires |head| < SIZE_LIMIT && IsItem(ref)
    ensures CountValues(EncodeString(head) + ref) == Ok(2)
  {
    hide CountValues, EncodeString, EncodeList;
    var items := [EncodeString(head), ref];
    assert IsItem(items[0]);
    CountItems(items);
    var tail: seq<Bytes> := items[1..];
    assert tail == [ref] && tail[1..] == [];
    assert Concat(tail) == ref + Concat(tail[1..]);
    assert ref + [] == ref;
  }

  lemma FullCount(kec: Keccak, cs: seq<Tree>)
    requires Canonical(Full(cs)) && Fits(kec, Full(cs))
    ensures CountValues(Concat(Refs(kec, cs))) == Ok(17)
  {
    hide IsItem, Ref, CountValues, Concat, Enc;
    var items := Refs(kec, cs);
    forall i | 0 <= i < |items| ensures IsItem(items[i]) {
      RefIsItem(kec, cs[i]);
    }
    CountItems(items);
  }

  lemma DecodeShortEnc(kec: Keccak, t: Tree, hash: Option<Hash>)
    requires t.Short? && Canonical(t) && Fits(kec, t)
    ensures CountValues(EncodeString(HexToCompact(t.key)) + Ref(kec, t.child)) == Ok(2)
    ensures DecodeShort(hash, EncodeString(HexToCompact(t.key)) + Ref(kec, t.child)) ==
            Ok(Shallow(kec, t, hash))
    decreases t, 0
  {
    hide Split, HexToCompact, CompactToHex, CountValues, IsItem, Enc, EncodeString;
    var Short(k, c) := t;
    var payload := EncIsList(kec, t);
    RefIsItem(kec, c);
    ShortCount(HexToCompact(k), Ref(kec, c));
    SplitString(HexToCompact(k), Ref(kec, c));
    CompactRoundTrip(k);
    if HasTerm(k) {
      SplitString(c.v, []);
      assert Ref(kec, c) + [] == Ref(kec, c);
    } else {
      DecodeRefEnc(kec, c, []);
      assert Ref(kec, c) + [] == Ref(kec, c);
    }
  }

  lemma DecodeRefEnc(kec: Keccak, t: Tree, rest: Bytes)
    requires Canonical(t) && Fits(kec, t)
    ensures DecodeRef(Ref(kec, t) + rest) == Ok((ShallowRef(kec, t), rest))
    decreases t, 2
  {
    hide Split, DecodeNode, EncodeString, EncodeList, Enc, Fits, Shallow;
    if t == Nil {
      SplitString([], rest);
    } else if |Enc(kec, t)| < 32 {
      var payload := EncIsList(kec, t);
      SplitList(payload, rest);
      DecodeEnc(kec, t, None, rest);
    } else {
      SplitString(kec(Enc(kec, t)), rest);
    }
  }

  lemma {:induction false} DecodeRefsEnc(kec: Keccak, cs: seq<Tree>, rest: Bytes)
    requires forall i :: 0 <= i < |cs| ==> Canonical(cs[i]) && Fits(kec, cs[i])
    ensures DecodeRefs(Concat(Refs(kec, cs)) + rest, |cs|) == Ok((ShallowRefs(kec, cs), rest))
    decreases cs
  {
    hide DecodeRef;
    if cs == [] {
      assert Concat(Refs(kec, cs)) + rest == rest;
    } else {
      var more := Concat(Refs(kec, cs[1..])) + rest;
      assert Concat(Refs(kec, cs)) + rest == Ref(kec, cs[0]) + more;
      DecodeRefEnc(kec, cs[0], more);
      DecodeRefsEnc(kec, cs[1..], rest);
    }
  }

  lemma DecodeFullEnc(kec: Keccak, t: Tree, hash: Option<Hash>)
    requires t.Full? && Canonical(t) && Fits(kec, t)
    ensures CountValues(Concat(Refs(kec, t.children))) == Ok(17)
    ensures DecodeFull(hash, Concat(Refs(kec, t.children))) == Ok(Shallow(kec, t, hash))
    decreases t, 0
  {
    hide *;
    var cs := t.children;
    var v := FullSlots(kec, t);
    FullCount(kec, cs);
    RefsSplit(kec, cs);
    DecodeRefsEnc(kec, cs[..16], EncodeString(v));
    DecodeFullOf(hash, Concat(Refs(kec, cs[..16])), v, ShallowRefs(kec, cs[..16]));
    ShallowFull(kec, cs, hash);
  }

  /** What a canonical full node holds, slot by slot; `v` is the value in slot 16, empty if there is none. */
  lemma FullSlots(kec: Keccak, t: Tree) returns (v: Bytes)
    requires t.Full? && Canonical(t) && Fits(kec, t)
    ensures t == Full(t.children) && |t.children| == 17
    ensures forall i :: 0 <= i < 17 ==> Child(t.children[i])
    ensures forall i :: 0 <= i < 16 ==> Canonical(t.children[i]) && Fits(kec, t.children[i])
    ensures |v| < SIZE_LIMIT
    ensures Ref(kec, t.children[16]) == EncodeString(v)
    ensures ShallowRef(kec, t.children[16]) == if v == [] then NilNode else ValueNode(v)
  {
    hide Enc, EncodeString;
    v := if t.children[16] == Nil then [] else t.children[16].v;
  }

  lemma ShallowFull(kec: Keccak, cs: seq<Tree>, hash: Option<Hash>)
    requires Canonical(Full(cs))
    ensures Shallow(kec, Full(cs), hash) == FullNode(ShallowRefs(kec, cs), Flag(hash, false))
  {
  }

  lemma DecodeFullOf(hash: Option<Hash>, refs: Bytes, v: Bytes, nodes: seq<Node>)
    requires |v| < SIZE_LIMIT
    requires DecodeRefs(refs + EncodeString(v), 16) == Ok((nodes, EncodeString(v)))
    ensures DecodeFull(hash, refs + EncodeString(v)) ==
            Ok(FullNode(nodes + [if v == [] then NilNode else ValueNode(v)], Flag(hash, false)))
  {
    hide Split, DecodeRefs, EncodeString;
    SplitString(v, []);
    assert EncodeString(v) + [] == EncodeString(v);
  }

  lemma RefsSplit(kec: Keccak, cs: seq<Tree>)
    requires |cs| == 17 && forall i :: 0 <= i < |cs| ==> Child(cs[i])
    ensures Concat(Refs(kec, cs)) == Concat(Refs(kec, cs[..16])) + Ref(kec, cs[16])
    ensures ShallowRefs(kec, cs) == ShallowRefs(kec, cs[..16]) + [ShallowRef(kec, cs[16])]
  {
    hide *;
    assert Refs(kec, cs) == Refs(kec, cs[..16]) + [Ref(kec, cs[16])];
    ConcatSnoc(Refs(kec, cs[..16]), Ref(kec, cs[16]));
  }
}
