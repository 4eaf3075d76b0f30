/**
  The streaming trie of trie/stacktrie.go as a value. Keys come in increasing
  order, so a subtree left of the current key never changes again: it is
  replaced by its hash (or by its encoding, when that is shorter than 32 bytes).

  `Feed` takes the branches of `insert` and `Summary` those of `hashRec`; the
  theorem is that on ordered keys nothing panics and the root is the root of
  the ordinary trie.
 */
module StackValue {
  import opened Bytes
  import opened Keys
  import opened Rlp
  import opened Tree
  import opened TreeMap
  import opened TreeUnique
  import opened Codec

  datatype Stack =
    | Empty  // an empty node, and a slot without a child
    | Branch(children: seq<Stack>)
    | Ext(key: Bytes, child: Stack)
    | Leaf(key: Bytes, val: Bytes)
    | Hashed(val: Bytes)

  predicate Sound(s: Stack) {
    match s
    case Branch(cs) => |cs| == 16 && forall i :: 0 <= i < 16 ==> Sound(cs[i])
    case Ext(k, c) => k != [] && Nibbles(k) && Sound(c)
    case Leaf(k, _) => Nibbles(k)
    case _ => true
  }

  // ---------- hashing ----------

  function Squash(kec: Keccak, enc: Bytes): (r: Bytes) {
    if |enc| < 32 then enc else kec(enc)
  }

  function LeafEnc(k: Bytes, v: Bytes): (r: Bytes)
    requires Nibbles(k)
  {
    var path := k + [TERMINATOR];
    assert path[..|path| - 1] == k;
    EncodeList(EncodeString(HexToCompact(path)) + EncodeString(v))
  }

  /** What `hashRec` leaves in `val`. */
  function Summary(kec: Keccak, s: Stack): (r: Bytes)
    requires Sound(s)
    decreases s, 0
  {
    match s
    case Empty => kec(EncodeString([]))
    case Branch(cs) => Squash(kec, EncodeList(Concat(Slots(kec, cs) + [EncodeString([])])))
    case Ext(k, c) => Squash(kec, EncodeList(EncodeString(HexToCompact(k)) + Inner(Summary(kec, c))))
    case Leaf(k, v) => Squash(kec, LeafEnc(k, v))
    case Hashed(v) => v
  }

  /** A hashed child inside its parent: raw when short, a hash otherwise. */
  function Inner(val: Bytes): (r: Bytes) {
    if |val| < 32 then val else EncodeString(val)
  }

  function Slots(kec: Keccak, cs: seq<Stack>): (r: seq<Bytes>)
    requires forall i :: 0 <= i < |cs| ==> Sound(cs[i])
    ensures |r| == |cs|
    ensures forall i :: 0 <= i < |cs| ==>
              r[i] == if cs[i] == Empty then EncodeString([]) else Inner(Summary(kec, cs[i]))
    decreases cs
  {
    if cs == [] then []
    else [if cs[0] == Empty then EncodeString([]) else Inner(Summary(kec, cs[0]))] + Slots(kec, cs[1..])
  }

  /** `Hash` on the top node. */
  function StackRoot(kec: Keccak, s: Stack): (h: Hash)
    requires Sound(s)
  {
    var v := Summary(kec, s);
    if |v| == 32 then v else kec(v)
  }

  // ---------- inserting ----------

  /** Hashes the nearest child left of `idx`. */
  function Seal(kec: Keccak, cs: seq<Stack>, idx: nat): (r: seq<Stack>)
    requires idx <= |cs| && forall i :: 0 <= i < |cs| ==> Sound(cs[i])
    ensures |r| == |cs|
  {
    if idx == 0 then cs
    else if cs[idx - 1] != Empty then cs[idx - 1 := Hashed(Summary(kec, cs[idx - 1]))]
    else Seal(kec, cs, idx - 1)
  }

  /** The node left after a split: a hashed old part and a new leaf below what both keys share. */
  function Split2(shared: Bytes, a: byte, old_: Stack, b: byte, new_: Stack): (r: Stack)
    requires a < 16 && b < 16
  {
    var branch := Branch(seq(16, i => if i == b then new_ else if i == a then old_ else Empty));
    if shared == [] then branch else Ext(shared, branch)
  }

  function Feed(kec: Keccak, s: Stack, k: Bytes, v: Bytes): (r: Result<Stack>)
    requires Sound(s) && Nibbles(k)
    decreases s
  {
    match s
    case Empty => Ok(Leaf(k, v))
    case Hashed(_) => Err(Panic)
    case Branch(cs) =>
      if k == [] then Err(Panic)
      else
        var sealed := Seal(kec, cs, k[0]);
        if cs[k[0]] == Empty then Ok(Branch(sealed[k[0] := Leaf(k[1..], v)]))
        else
          var child := Feed(kec, cs[k[0]], k[1..], v);
          if child.Err? then child else Ok(Branch(sealed[k[0] := child.value]))
    case Ext(key, c) =>
      var d := PrefixLen(key, k);
      if d == |key| then
        var child := Feed(kec, c, k[d..], v);
        if child.Err? then child else Ok(Ext(key, child.value))
      else if d == |k| then Err(Panic)
      else
        var rest := if d + 1 < |key| then Ext(key[d + 1..], c) else c;
        Ok(Split2(key[..d], key[d], Hashed(Summary(kec, rest)), k[d], Leaf(k[d + 1..], v)))
    case Leaf(key, val) =>
      var d := PrefixLen(key, k);
      if d == |key| || d == |k| then Err(Panic)
      else Ok(Split2(key[..d], key[d], Hashed(Summary(kec, Leaf(key[d + 1..], val))), k[d], Leaf(k[d + 1..], v)))
  }

  // ---------- what a stack stands for ----------

  /** The stack stands for the trie: hashed parts by what `hashRec` makes of them. */
  ghost predicate Rel(kec: Keccak, s: Stack, t: Tree)
    requires Canonical(t)
    decreases s
  {
    match s
    case Empty => t == Nil
    case Hashed(v) => t != Nil && v == Squash(kec, Enc(kec, t))
    case Leaf(k, v) => Nibbles(k) && t == Short(k + [TERMINATOR], Value(v))
    case Ext(k, c) => t.Short? && t.key == k && Nibbles(k) && !c.Empty? && t.child.Full? && Rel(kec, c, t.child)
    case Branch(cs) =>
      |cs| == 16 && t.Full? && t.children[16] == Nil && forall i :: 0 <= i < 16 ==> Rel(kec, cs[i], t.children[i])
  }

  /** The path of the last key is not hashed, and nothing lies right of it. */
  predicate Open(s: Stack, last: Bytes) {
    match s
    case Leaf(k, _) => k == last
    case Ext(k, c) => k <= last && Open(c, last[|k|..])
    case Branch(cs) =>
      last != [] && last[0] < |cs| && Open(cs[last[0]], last[1..]) &&
      forall j :: last[0] < j < |cs| ==> cs[j] == Empty
    case _ => false
  }

  /** `a` comes before `b`, and neither is a prefix of the other. */
  ghost predicate Before(a: Bytes, b: Bytes) {
    exists d :: BeforeAt(a, b, d)
  }

  predicate BeforeAt(a: Bytes, b: Bytes, d: int) {
    0 <= d < |a| && d < |b| && a[..d] == b[..d] && a[d] < b[d]
  }

  lemma {:induction false} RelSound(kec: Keccak, s: Stack, t: Tree)
    requires Canonical(t) && Rel(kec, s, t)
    ensures Sound(s) && (s == Empty <==> t == Nil)
    decreases s
  {
    hide Enc;
    match s
    case Branch(cs) =>
      forall i | 0 <= i < 16 ensures Sound(cs[i]) {
        RelSound(kec, cs[i], t.children[i]);
      }
    case Ext(k, c) => RelSound(kec, c, t.child);
    case _ =>
  }

  // ---------- hashing is right ----------

  lemma {:induction false} SummaryOk(kec: Keccak, s: Stack, t: Tree)
    requires Canonical(t) && t != Nil && Rel(kec, s, t)
    ensures Sound(s) && Summary(kec, s) == Squash(kec, Enc(kec, t))
    decreases s
  {
    hide Enc, Summary, Squash;
    RelSound(kec, s, t);
    match s
    case Hashed(v) => assert Summary(kec, s) == v by { SummaryHashed(kec, v); }
    case Leaf(k, v) => SummaryLeaf(kec, k, v);
    case Ext(k, c) =>
      SummaryOk(kec, c, t.child);
      SummaryExt(kec, s, t);
    case Branch(cs) =>
      forall i | 0 <= i < 16 && cs[i] != Empty
        ensures t.children[i] != Nil && Sound(cs[i]) && Summary(kec, cs[i]) == Squash(kec, Enc(kec, t.children[i]))
      {
        RelSound(kec, cs[i], t.children[i]);
        SummaryOk(kec, cs[i], t.children[i]);
      }
      SummaryBranch(kec, s, t);
  }

  lemma SummaryHashed(kec: Keccak, v: Bytes)
    ensures Summary(kec, Hashed(v)) == v
  {
  }

  lemma SummaryLeaf(kec: Keccak, k: Bytes, v: Bytes)
    requires Nibbles(k) && Canonical(Short(k + [TERMINATOR], Value(v)))
    ensures Summary(kec, Leaf(k, v)) == Squash(kec, Enc(kec, Short(k + [TERMINATOR], Value(v))))
  {
    hide EncodeList, EncodeString, HexToCompact, Squash;
  }

  /** A child inside its parent's encoding. */
  lemma InnerRef(kec: Keccak, t: Tree)
    requires Canonical(t) && t != Nil
    ensures Inner(Squash(kec, Enc(kec, t))) == Ref(kec, t)
  {
    hide Enc, EncodeString;
    CanonicalShape(t);
  }

  lemma SummaryExt(kec: Keccak, s: Stack, t: Tree)
    requires s.Ext? && Sound(s) && Canonical(t) && t.Short? && t.key == s.key && t.child.Full? && Canonical(t.child)
    requires Summary(kec, s.child) == Squash(kec, Enc(kec, t.child))
    ensures Summary(kec, s) == Squash(kec, Enc(kec, t))
  {
    InnerRef(kec, t.child);
    hide EncodeList, EncodeString, HexToCompact, Inner, Ref;
  }

  lemma SummaryBranch(kec: Keccak, s: Stack, t: Tree)
    requires s.Branch? && Sound(s) && Canonical(t) && t.Full? && t.children[16] == Nil
    requires forall i :: 0 <= i < 16 ==> (s.children[i] == Empty <==> t.children[i] == Nil)
    requires forall i :: 0 <= i < 16 && s.children[i] != Empty ==>
               Summary(kec, s.children[i]) == Squash(kec, Enc(kec, t.children[i]))
    ensures Summary(kec, s) == Squash(kec, Enc(kec, t))
  {
    hide Enc, EncodeList, EncodeString, Inner, Ref, Concat, Squash, Canonical;
    var cs := t.children;
    FullChildren(t);
    forall i | 0 <= i < 16 ensures Slots(kec, s.children)[i] == Refs(kec, cs)[i] {
      SlotRef(kec, s.children[i], cs[i]);
    }
    SlotRef(kec, Empty, cs[16]);
    assert Slots(kec, s.children) + [EncodeString([])] == Refs(kec, cs);
    BranchEnc(kec, s, t);
  }

  lemma SlotRef(kec: Keccak, s: Stack, t: Tree)
    requires Sound(s) && Child(t) && (s == Empty <==> t == Nil)
    requires s != Empty ==> Canonical(t) && Summary(kec, s) == Squash(kec, Enc(kec, t))
    ensures (if s == Empty then EncodeString([]) else Inner(Summary(kec, s))) == Ref(kec, t)
  {
    hide Enc, EncodeString, Inner, Summary;
    if s != Empty {
      InnerRef(kec, t);
    }
  }

  lemma BranchEnc(kec: Keccak, s: Stack, t: Tree)
    requires s.Branch? && Sound(s) && Canonical(t) && t.Full?
    requires |t.children| == 17 && forall i :: 0 <= i < 17 ==> Child(t.children[i])
    requires Slots(kec, s.children) + [EncodeString([])] == Refs(kec, t.children)
    ensures Summary(kec, s) == Squash(kec, Enc(kec, t))
  {
    hide EncodeList, EncodeString, Inner, Ref, Concat, Squash, Slots, Refs;
  }

  lemma StackRootOk(kec: Keccak, s: Stack, t: Tree)
    requires Canonical(t) && Rel(kec, s, t)
    ensures Sound(s) && StackRoot(kec, s) == RootHash(kec, t)
  {
    RelSound(kec, s, t);
    if t != Nil {
      SummaryOk(kec, s, t);
    }
  }

  // ---------- inserting is right ----------

  lemma SamePrefix(a: Bytes, b: Bytes, m: nat)
    requires m <= |a| && m <= |b| && a[..m] == b[..m]
    ensures forall i :: 0 <= i < m ==> a[i] == b[i]
  {
    assert forall i :: 0 <= i < m ==> a[i] == a[..m][i];
  }

  lemma BeforeDrop(a: Bytes, b: Bytes, m: nat)
    requires Before(a, b) && m <= |a| && m <= |b| && a[..m] == b[..m]
    ensures Before(a[m..], b[m..])
  {
    var d :| BeforeAt(a, b, d);
    SamePrefix(a, b, m);
    assert a[m..][..d - m] == a[..d][m..] && b[m..][..d - m] == b[..d][m..];
    assert BeforeAt(a[m..], b[m..], d - m);
  }

  /** Where a key that extends `key` comes before `k`, it is at the first difference between `key` and `k`. */
  lemma BeforeAtSplit(key: Bytes, last: Bytes, k: Bytes)
    requires Before(last, k) && key <= last && PrefixLen(key, k) < |key|
    ensures var d := PrefixLen(key, k); d < |k| && key[d] < k[d]
  {
    hide PrefixLen;
    var d := PrefixLen(key, k);
    var e :| BeforeAt(last, k, e);
    assert key[d] == last[d];
    SamePrefix(key, k, d);
    SamePrefix(last, k, e);
  }

  /** The ordinary trie compares the same keys with the terminator attached. */
  lemma PrefixLenClosed(key: Bytes, tail: Bytes, k: Bytes, d: nat)
    requires d == PrefixLen(key, k) && (d < |key| ==> d < |k|) && (d == |key| ==> tail == [])
    ensures PrefixLen(k + [TERMINATOR], key + tail) == d
  {
    hide PrefixLen;
    var a, b := k + [TERMINATOR], key + tail;
    assert a[..d] == k[..d] && b[..d] == key[..d];
    PrefixLenUnique(a, b, d);
  }

  lemma SplitOk(kec: Keccak, shared: Bytes, a: byte, o: Tree, h: Stack, b: byte, rest: Bytes, v: Bytes)
    requires Nibbles(shared) && Nibbles(rest) && a < b < 16 && v != []
    requires Canonical(o) && o != Nil && h == Hashed(Squash(kec, Enc(kec, o)))
    ensures var s := Split2(shared, a, h, b, Leaf(rest, v));
            var t := Lead(shared, Fork(a, o, b, Short(rest + [TERMINATOR], Value(v))));
            Canonical(t) && Rel(kec, s, t) && Open(s, shared + [b] + rest)
  {
    hide Enc, Squash;
    var n := Short(rest + [TERMINATOR], Value(v));
    assert (rest + [TERMINATOR])[..|rest|] == rest;
    assert Canonical(n);
    var fork := Fork(a, o, b, n);
    ForkCanonical(a, o, b, n);
    var branch := Split2([], a, h, b, Leaf(rest, v));
    BranchSplit(kec, a, o, h, b, rest, v);
    if shared == [] {
      assert shared + [b] + rest == [b] + rest;
    } else {
      assert (shared + [b] + rest)[|shared|..] == [b] + rest;
      assert shared <= shared + [b] + rest;
    }
  }

  lemma BranchSplit(kec: Keccak, a: byte, o: Tree, h: Stack, b: byte, rest: Bytes, v: Bytes)
    requires Nibbles(rest) && a < b < 16 && v != [] && Canonical(o) && o != Nil
    requires h == Hashed(Squash(kec, Enc(kec, o)))
    requires Canonical(Short(rest + [TERMINATOR], Value(v)))
    requires Canonical(Fork(a, o, b, Short(rest + [TERMINATOR], Value(v))))
    ensures Rel(kec, Split2([], a, h, b, Leaf(rest, v)), Fork(a, o, b, Short(rest + [TERMINATOR], Value(v))))
    ensures Open(Split2([], a, h, b, Leaf(rest, v)), [b] + rest)
  {
    hide Enc, Squash;
    var cs := Fork(a, o, b, Short(rest + [TERMINATOR], Value(v))).children;
    var ss := Split2([], a, h, b, Leaf(rest, v)).children;
    forall i | 0 <= i < 16 ensures Canonical(cs[i]) && Rel(kec, ss[i], cs[i]) {
    }
    assert ([b] + rest)[1..] == rest;
  }

  lemma {:induction false} SealOk(kec: Keccak, cs: seq<Stack>, ts: seq<Tree>, idx: nat)
    requires |cs| == 16 && |ts| >= 16 && idx <= 16
    requires forall i :: 0 <= i < 16 ==> Canonical(ts[i]) && Rel(kec, cs[i], ts[i]) && Sound(cs[i])
    ensures var r := Seal(kec, cs, idx);
            |r| == 16 && (forall i :: idx <= i < 16 ==> r[i] == cs[i]) &&
            forall i :: 0 <= i < 16 ==> Rel(kec, r[i], ts[i])
  {
    hide Enc, Squash, Canonical, Sound, Summary;
    if idx > 0 {
      if cs[idx - 1] != Empty {
        RelSound(kec, cs[idx - 1], ts[idx - 1]);
        SummaryOk(kec, cs[idx - 1], ts[idx - 1]);
      } else {
        SealOk(kec, cs, ts, idx - 1);
      }
    }
  }

  /** One more key after `last`: nothing panics, and the stack stands for the trie with that key. */
  ghost predicate Fed(kec: Keccak, s: Stack, t: Tree, k: Bytes, v: Bytes)
    requires Sound(s) && Nibbles(k)
  {
    var r := Feed(kec, s, k, v);
    var u := Insert(t, k + [TERMINATOR], Value(v));
    r.Ok? && Canonical(u) && Rel(kec, r.value, u) && Open(r.value, k)
  }

  ghost predicate Ready(s: Stack, last: Bytes, k: Bytes) {
    s == Empty || (Open(s, last) && Before(last, k))
  }

  lemma {:induction false} FeedOk(kec: Keccak, s: Stack, t: Tree, last: Bytes, k: Bytes, v: Bytes)
    requires Canonical(t) && Rel(kec, s, t) && Nibbles(k) && v != [] && Ready(s, last, k)
    ensures Sound(s) && Fed(kec, s, t, k, v)
    decreases s
  {
    RelSound(kec, s, t);
    hide Enc, Fed, Summary, Before, Sound, Canonical, Seal;
    match s
    case Empty => FeedEmpty(kec, k, v);
    case Hashed(_) =>
    case Leaf(key, val) => FeedLeaf(kec, s, t, k, v);
    case Ext(key, c) =>
      if PrefixLen(key, k) == |key| {
        ExtBelow(kec, s, t, last, k);
        FeedOk(kec, c, t.child, last[|key|..], k[|key|..], v);
        FeedExt(kec, s, t, k, v);
      } else {
        FeedExtSplit(kec, s, t, last, k, v);
      }
    case Branch(cs) =>
      BranchBelow(kec, s, t, last, k);
      FeedOk(kec, cs[k[0]], t.children[k[0]], last[1..], k[1..], v);
      FeedBranch(kec, s, t, k, v);
  }

  lemma FeedEmpty(kec: Keccak, k: Bytes, v: Bytes)
    requires Nibbles(k) && v != []
    ensures Fed(kec, Empty, Nil, k, v)
  {
    assert (k + [TERMINATOR])[..|k|] == k;
  }

  /** What the ordinary trie does where its short node and the new key part. */
  lemma InsertSplit(key: Bytes, c: Tree, k: Bytes, v: Bytes, d: nat)
    requires PrefixLen(k + [TERMINATOR], key) == d && d < |key| && d < |k| && key[d] < 17 && k[d] < 16
    ensures Insert(Short(key, c), k + [TERMINATOR], Value(v)) ==
            Lead(k[..d], Fork(key[d], Lead(key[d + 1..], c), k[d], Short(k[d + 1..] + [TERMINATOR], Value(v))))
  {
    hide PrefixLen;
    assert (k + [TERMINATOR])[d + 1..] == k[d + 1..] + [TERMINATOR];
    assert (k + [TERMINATOR])[..d] == k[..d];
  }

  lemma FeedLeafUnfold(kec: Keccak, key: Bytes, val: Bytes, k: Bytes, v: Bytes, d: nat)
    requires Nibbles(key) && Nibbles(k) && d == PrefixLen(key, k) && d < |key| && d < |k|
    ensures Feed(kec, Leaf(key, val), k, v) ==
            Ok(Split2(k[..d], key[d], Hashed(Summary(kec, Leaf(key[d + 1..], val))), k[d], Leaf(k[d + 1..], v)))
  {
    hide PrefixLen, Summary;
  }

  lemma FeedLeaf(kec: Keccak, s: Stack, t: Tree, k: Bytes, v: Bytes)
    requires s.Leaf? && Sound(s) && Canonical(t) && Rel(kec, s, t) && Nibbles(k) && v != [] && Before(s.key, k)
    ensures Fed(kec, s, t, k, v)
  {
    hide Enc, Summary, Squash, PrefixLen, Insert, Feed, Fork, Split2;
    var key := s.key;
    var d := PrefixLen(key, k);
    SamePrefix(key, k, d);
    assert d < |key|;
    BeforeAtSplit(key, key, k);
    PrefixLenClosed(key, [TERMINATOR], k, d);
    var rest := key[d + 1..];
    var o := Short(rest + [TERMINATOR], Value(s.val));
    assert (rest + [TERMINATOR])[..|rest|] == rest;
    SummaryOk(kec, Leaf(rest, s.val), o);
    SplitOk(kec, k[..d], key[d], o, Hashed(Summary(kec, Leaf(rest, s.val))), k[d], k[d + 1..], v);
    hide Canonical, Rel, Open;
    assert k[..d] + [k[d]] + k[d + 1..] == k;
    assert (key + [TERMINATOR])[d + 1..] == rest + [TERMINATOR];
    InsertSplit(key + [TERMINATOR], Value(s.val), k, v, d);
    FeedLeafUnfold(kec, key, s.val, k, v, d);
  }

  lemma ExtBelow(kec: Keccak, s: Stack, t: Tree, last: Bytes, k: Bytes)
    requires s.Ext? && Canonical(t) && Rel(kec, s, t) && Nibbles(k) && Open(s, last) && Before(last, k)
    requires PrefixLen(s.key, k) == |s.key|
    ensures t.Short? && t.child.Full? && Canonical(t.child) && Rel(kec, s.child, t.child) && |s.key| <= |k|
    ensures s.key <= last && Ready(s.child, last[|s.key|..], k[|s.key|..]) && Nibbles(k[|s.key|..])
  {
    hide PrefixLen, Before;
    assert last[..|s.key|] == s.key && k[..|s.key|] == s.key[..|s.key|];
    BeforeDrop(last, k, |s.key|);
  }

  lemma FeedExt(kec: Keccak, s: Stack, t: Tree, k: Bytes, v: Bytes)
    requires s.Ext? && Sound(s) && Canonical(t) && Rel(kec, s, t) && Nibbles(k) && v != []
    requires PrefixLen(s.key, k) == |s.key| && t.Short? && Nibbles(k[|s.key|..])
    requires Fed(kec, s.child, t.child, k[|s.key|..], v)
    ensures Fed(kec, s, t, k, v)
  {
    hide Enc, PrefixLen, Feed;
    var m := |s.key|;
    PrefixLenClosed(s.key, [], k, m);
    assert s.key + [] == s.key;
    assert (k + [TERMINATOR])[m..] == k[m..] + [TERMINATOR];
    assert k[..m] == s.key[..m];
    FeedExtUnfold(kec, s, k, v);
    assert (k + [TERMINATOR])[..|k|] == k;
    InsertCanonical(t, k + [TERMINATOR], Value(v));
    InsertCanonical(t.child, k[m..] + [TERMINATOR], Value(v));
  }

  lemma FeedExtUnfold(kec: Keccak, s: Stack, k: Bytes, v: Bytes)
    requires s.Ext? && Sound(s) && Nibbles(k) && PrefixLen(s.key, k) == |s.key|
    ensures Nibbles(k[|s.key|..]) && Sound(s.child)
    ensures var child := Feed(kec, s.child, k[|s.key|..], v);
            Feed(kec, s, k, v) == if child.Err? then child else Ok(Ext(s.key, child.value))
  {
  }

  lemma FeedSplitUnfold(kec: Keccak, s: Stack, k: Bytes, v: Bytes, d: nat)
    requires s.Ext? && Sound(s) && Nibbles(k) && d == PrefixLen(s.key, k) && d < |s.key| && d < |k|
    ensures var rest := if d + 1 < |s.key| then Ext(s.key[d + 1..], s.child) else s.child;
            Sound(rest) && Feed(kec, s, k, v) ==
            Ok(Split2(k[..d], s.key[d], Hashed(Summary(kec, rest)), k[d], Leaf(k[d + 1..], v)))
  {
    hide PrefixLen, Summary;
  }

  lemma FeedExtSplit(kec: Keccak, s: Stack, t: Tree, last: Bytes, k: Bytes, v: Bytes)
    requires s.Ext? && Sound(s) && Canonical(t) && Rel(kec, s, t) && Nibbles(k) && v != []
    requires Open(s, last) && Before(last, k) && PrefixLen(s.key, k) < |s.key|
    ensures Fed(kec, s, t, k, v)
  {
    hide Enc, Summary, Squash, PrefixLen, Before, Insert, Feed, Fork, Split2;
    var key, c := s.key, s.child;
    var d := PrefixLen(key, k);
    BeforeAtSplit(key, last, k);
    PrefixLenClosed(key, [], k, d);
    assert key + [] == key;
    var rest := if d + 1 < |key| then Ext(key[d + 1..], c) else c;
    var o := Lead(key[d + 1..], t.child);
    ExtRest(kec, s, t, d);
    SummaryOk(kec, rest, o);
    SplitOk(kec, k[..d], key[d], o, Hashed(Summary(kec, rest)), k[d], k[d + 1..], v);
    hide Canonical, Rel, Open, Sound;
    assert k[..d] + [k[d]] + k[d + 1..] == k;
    InsertSplit(key, t.child, k, v, d);
    FeedSplitUnfold(kec, s, k, v, d);
  }

  /** What is left of an extension below the split. */
  lemma ExtRest(kec: Keccak, s: Stack, t: Tree, d: nat)
    requires s.Ext? && Sound(s) && Canonical(t) && Rel(kec, s, t) && d < |s.key|
    ensures var rest := if d + 1 < |s.key| then Ext(s.key[d + 1..], s.child) else s.child;
            t.Short? && var o := Lead(s.key[d + 1..], t.child);
            Sound(rest) && Canonical(o) && o != Nil && Rel(kec, rest, o)
  {
    hide Enc;
  }

  lemma BranchBelow(kec: Keccak, s: Stack, t: Tree, last: Bytes, k: Bytes)
    requires s.Branch? && Sound(s) && Canonical(t) && Rel(kec, s, t) && Nibbles(k) && Open(s, last) && Before(last, k)
    ensures k != [] && last != [] && t.Full? && |s.children| == 16 && Sound(s.children[k[0]])
    ensures Canonical(t.children[k[0]]) && Rel(kec, s.children[k[0]], t.children[k[0]])
    ensures Nibbles(k[1..]) && Ready(s.children[k[0]], last[1..], k[1..])
    ensures forall j :: k[0] < j < 16 ==> s.children[j] == Empty
  {
    hide Enc;
    var d :| BeforeAt(last, k, d);
    if d > 0 {
      assert last[0] == last[..d][0] && k[0] == k[..d][0];
      assert last[..1] == k[..1];
      BeforeDrop(last, k, 1);
    }
  }

  lemma FeedBranch(kec: Keccak, s: Stack, t: Tree, k: Bytes, v: Bytes)
    requires s.Branch? && Sound(s) && Canonical(t) && Rel(kec, s, t) && Nibbles(k) && v != [] && k != []
    requires Sound(s.children[k[0]]) && Nibbles(k[1..]) && t.Full? &&
             Fed(kec, s.children[k[0]], t.children[k[0]], k[1..], v)
    requires forall j :: k[0] < j < 16 ==> s.children[j] == Empty
    ensures Fed(kec, s, t, k, v)
  {
    var i := k[0];
    FullChildren(t);
    hide Enc, Seal, Feed, Insert, Canonical, Sound;
    FeedBranchUnfold(kec, s, k, v);
    var child := Feed(kec, s.children[i], k[1..], v).value;
    SealOk(kec, s.children, t.children, i);
    var ss := Seal(kec, s.children, i)[i := child];
    assert Feed(kec, s, k, v) == Ok(Branch(ss));
    InsertFull(t, k, v);
    assert (k + [TERMINATOR])[..|k|] == k;
    InsertCanonical(t, k + [TERMINATOR], Value(v));
    var u := Insert(t.children[i], k[1..] + [TERMINATOR], Value(v));
    BranchFed(kec, ss, t.children[i := u], k);
  }

  lemma BranchFed(kec: Keccak, ss: seq<Stack>, ts: seq<Tree>, k: Bytes)
    requires |ss| == 16 && |ts| == 17 && ts[16] == Nil && Canonical(Full(ts)) && k != [] && k[0] < 16
    requires forall i :: 0 <= i < 16 ==> Canonical(ts[i]) && Rel(kec, ss[i], ts[i])
    requires Open(ss[k[0]], k[1..]) && forall j :: k[0] < j < 16 ==> ss[j] == Empty
    ensures Rel(kec, Branch(ss), Full(ts)) && Open(Branch(ss), k)
  {
    hide Enc, Canonical;
  }

  lemma InsertFull(t: Tree, k: Bytes, v: Bytes)
    requires t.Full? && Canonical(t) && k != [] && k[0] < 16
    ensures Insert(t, k + [TERMINATOR], Value(v)) ==
            Full(t.children[k[0] := Insert(t.children[k[0]], k[1..] + [TERMINATOR], Value(v))])
  {
    assert (k + [TERMINATOR])[1..] == k[1..] + [TERMINATOR];
  }

  lemma FeedBranchUnfold(kec: Keccak, s: Stack, k: Bytes, v: Bytes)
    requires s.Branch? && Sound(s) && Nibbles(k) && k != [] && Nibbles(k[1..])
    ensures |s.children| == 16 && k[0] < 16
    ensures var child := Feed(kec, s.children[k[0]], k[1..], v);
            Feed(kec, s, k, v) ==
            if child.Err? then child else Ok(Branch(Seal(kec, s.children, k[0])[k[0] := child.value]))
  {
    hide Seal;
  }

  // ---------- whole streams ----------

  /** `TryUpdate`: deletion is not supported. */
  function StackUpdate(kec: Keccak, s: Stack, u: Update): (r: Result<Stack>)
    requires Sound(s)
  {
    if u.value == [] then Err(Panic) else Feed(kec, s, Unpack(u.key), u.value)
  }

  function Stream(kec: Keccak, us: seq<Update>): (r: Result<Stack>)
    ensures r.Ok? ==> Sound(r.value)
  {
    if us == [] then Ok(Empty)
    else
      var r := Stream(kec, us[..|us| - 1]);
      if r.Err? then r
      else
        var u := StackUpdate(kec, r.value, us[|us| - 1]);
        if u.Ok? then FeedSound(kec, r.value, Unpack(us[|us| - 1].key), us[|us| - 1].value); u else u
  }

  /** No value is empty, and each key comes before the next without being a prefix of it. */
  ghost predicate Increasing(us: seq<Update>) {
    (forall i :: 0 <= i < |us| ==> us[i].value != []) &&
    forall i :: 0 < i < |us| ==> Before(us[i - 1].key, us[i].key)
  }

  lemma {:induction false} FeedSound(kec: Keccak, s: Stack, k: Bytes, v: Bytes)
    requires Sound(s) && Nibbles(k)
    ensures Feed(kec, s, k, v).Ok? ==> Sound(Feed(kec, s, k, v).value)
    decreases s
  {
    hide Summary, PrefixLen, Seal;
    match s
    case Branch(cs) =>
      if k != [] {
        SealSound(kec, cs, k[0]);
        FeedSound(kec, cs[k[0]], k[1..], v);
        FeedBranchUnfold(kec, s, k, v);
      }
    case Ext(key, c) =>
      if PrefixLen(key, k) == |key| {
        FeedSound(kec, c, k[|key|..], v);
      } else if PrefixLen(key, k) < |k| {
        var d := PrefixLen(key, k);
        var rest := if d + 1 < |key| then Ext(key[d + 1..], c) else c;
        SplitSound(key[..d], key[d], Hashed(Summary(kec, rest)), k[d], Leaf(k[d + 1..], v));
      }
    case Leaf(key, val) =>
      var d := PrefixLen(key, k);
      if d < |key| && d < |k| {
        SplitSound(key[..d], key[d], Hashed(Summary(kec, Leaf(key[d + 1..], val))), k[d], Leaf(k[d + 1..], v));
      }
    case _ =>
  }

  lemma SplitSound(shared: Bytes, a: byte, o: Stack, b: byte, n: Stack)
    requires Nibbles(shared) && a < 16 && b < 16 && Sound(o) && Sound(n)
    ensures Sound(Split2(shared, a, o, b, n))
  {
  }

  lemma {:induction false} SealSound(kec: Keccak, cs: seq<Stack>, idx: nat)
    requires idx <= |cs| && forall i :: 0 <= i < |cs| ==> Sound(cs[i])
    ensures forall i :: 0 <= i < |cs| ==> Sound(Seal(kec, cs, idx)[i])
  {
    hide Summary;
    if idx > 0 && cs[idx - 1] == Empty {
      SealSound(kec, cs, idx - 1);
    }
  }

  lemma BeforeUnpacked(a: Bytes, b: Bytes)
    requires Before(a, b)
    ensures Before(Unpack(a), Unpack(b))
  {
    hide Unpack;
    var d :| BeforeAt(a, b, d);
    var x, y := Unpack(a), Unpack(b);
    SamePrefix(a, b, d);
    forall i | 0 <= i < 2 * d ensures x[i] == y[i] {
      UnpackAt(a, i / 2);
      UnpackAt(b, i / 2);
    }
    UnpackAt(a, d);
    UnpackAt(b, d);
    assert x[..2 * d] == y[..2 * d];
    if x[2 * d] < y[2 * d] {
      assert BeforeAt(x, y, 2 * d);
    } else {
      assert x[..2 * d + 1] == y[..2 * d + 1];
      assert BeforeAt(x, y, 2 * d + 1);
    }
  }

  /** The stack after an increasing stream stands for the trie after the same updates. */
  lemma {:induction false} StreamRel(kec: Keccak, us: seq<Update>)
    requires Increasing(us)
    ensures Canonical(Run(us)) && Stream(kec, us).Ok? && Rel(kec, Stream(kec, us).value, Run(us))
    ensures us != [] ==> Open(Stream(kec, us).value, Unpack(us[|us| - 1].key))
  {
    hide Feed, Rel, Open, Canonical, Insert, Before, Unpack;
    if us == [] {
      StreamEmpty(kec);
    } else {
      var n := |us| - 1;
      var init, u := us[..n], us[n];
      StreamRel(kec, init);
      var s, k := Stream(kec, init).value, Unpack(u.key);
      if n > 0 {
        BeforeUnpacked(us[n - 1].key, u.key);
        FeedOk(kec, s, Run(init), Unpack(us[n - 1].key), k, u.value);
      } else {
        FeedOk(kec, s, Run(init), [], k, u.value);
      }
      assert Run(us) == Insert(Run(init), k + [TERMINATOR], Value(u.value));
      assert Stream(kec, us) == Feed(kec, s, k, u.value);
    }
  }

  lemma StreamEmpty(kec: Keccak)
    ensures Canonical(Run([])) && Stream(kec, []).Ok? && Rel(kec, Stream(kec, []).value, Run([]))
  {
  }

  /**
    On every increasing, prefix-free stream of non-empty values the streaming
    trie never panics and its root is the root of any trie holding those pairs.
   */
  lemma StreamRoot(kec: Keccak, us: seq<Update>, t: Tree)
    requires Increasing(us) && Holds(t, RunMap(us))
    ensures Stream(kec, us).Ok? && StackRoot(kec, Stream(kec, us).value) == RootHash(kec, t)
  {
    hide Stream, Rel, Open, Run, RunMap;
    StreamRel(kec, us);
    StackRootOk(kec, Stream(kec, us).value, Run(us));
    RunRefinesMap(us);
    HoldsUnique(Run(us), t, RunMap(us));
  }
}
