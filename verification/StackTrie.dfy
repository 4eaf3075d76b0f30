/**
  trie/stacktrie.go as it runs: nodes are objects whose type, key, value and
  children are overwritten in place. Each node's ghost `view` is the value of
  module `StackValue` it stands for.
 */
module StackTrie {
  import opened Bytes
  import opened Keys
  import opened Rlp
  import opened StackValue
  import opened TreeUnique

  datatype NodeType = EmptyNode | BranchNode | ExtNode | LeafNode | HashedNode

  class StackTrie {
    var nodeType: NodeType
    var val: Bytes
    var key: Bytes
    var children: seq<StackTrie?>
    ghost var repr: set<StackTrie>
    ghost var view: Stack

    // ---------- representation ----------

    /** A child object with everything below it belongs to this node alone. */
    ghost predicate Owns(c: StackTrie)
      reads this, repr
      decreases repr, 0
    {
      c in repr && c.repr < repr && this !in c.repr && c.Valid()
    }

    ghost predicate Valid()
      reads this, repr
      ensures Valid() ==> this in repr
      decreases repr, 3
    {
      this in repr && |children| == 16 && Sound(view) &&
      match view
      case Empty => nodeType.EmptyNode? && NoChildren()
      case Hashed(v) => nodeType.HashedNode? && val == v && NoChildren()
      case Leaf(k, v) => nodeType.LeafNode? && key == k && val == v && NoChildren()
      case Ext(k, c) =>
        nodeType.ExtNode? && key == k && children[0] != null && Owns(children[0]) && children[0].view == c &&
        forall i :: 1 <= i < 16 ==> children[i] == null
      case Branch(cs) => nodeType.BranchNode? && Children(cs)
    }

    ghost predicate NoChildren()
      reads this
    {
      forall i :: 0 <= i < |children| ==> children[i] == null
    }

    ghost predicate Children(cs: seq<Stack>)
      requires |children| == 16 && |cs| == 16
      reads this, repr
      decreases repr, 2
    {
      (forall i :: 0 <= i < 16 ==> Slot(children[i], cs[i])) &&
      forall i, j :: 0 <= i < j < 16 && children[i] != null && children[j] != null ==> Apart(children[i], children[j])
    }

    ghost predicate Slot(c: StackTrie?, s: Stack)
      reads this, repr
      decreases repr, 1
    {
      if c == null then s == Empty else s != Empty && Owns(c) && c.view == s
    }

    ghost predicate Apart(a: StackTrie, b: StackTrie)
      reads this, repr
    {
      a in repr && b in repr && a.repr !! b.repr
    }

    // ---------- new nodes ----------

    constructor ()
      ensures Valid() && fresh(repr) && view == Empty
    {
      nodeType, val, key, children := EmptyNode, [], [], seq(16, _ => null);
      view, repr := Empty, {this};
    }

    constructor NewLeaf(k: Bytes, v: Bytes)
      requires Nibbles(k)
      ensures Valid() && fresh(repr) && view == Leaf(k, v)
    {
      nodeType, val, key, children := LeafNode, v, k, seq(16, _ => null);
      view, repr := Leaf(k, v), {this};
    }

    constructor NewExt(k: Bytes, c: StackTrie)
      requires Nibbles(k) && k != [] && c.Valid()
      ensures Valid() && view == Ext(k, c.view) && repr == {this} + c.repr && fresh(this)
    {
      nodeType, val, key, children := ExtNode, [], k, [c] + seq(15, _ => null);
      view, repr := Ext(k, c.view), {this} + c.repr;
    }

    // ---------- hashing ----------

    method HashRec(kec: Keccak)
      requires Valid()
      modifies repr
      ensures Valid() && repr == old(repr) && view == Hashed(Summary(kec, old(view)))
      decreases view
    {
      match nodeType {
        case HashedNode =>
        case EmptyNode =>
          val, key, nodeType := kec(EncodeString([])), [], HashedNode;
          view := Hashed(val);
        case BranchNode => HashBranch(kec);
        case ExtNode => HashExt(kec);
        case LeafNode =>
          var enc := LeafEnc(key, val);
          Finish(kec, enc);
      }
    }

    /** The end of `hashRec`: the encoding itself when it is short, else its hash. */
    method Finish(kec: Keccak, enc: Bytes)
      requires this in repr && |children| == 16 && NoChildren()
      modifies this
      ensures Valid() && repr == old(repr) && view == Hashed(Squash(kec, enc))
    {
      nodeType, key := HashedNode, [];
      val := if |enc| < 32 then enc else kec(enc);
      view := Hashed(val);
    }

    method HashExt(kec: Keccak)
      requires Valid() && view.Ext?
      modifies repr
      ensures Valid() && repr == old(repr) && view == Hashed(Summary(kec, old(view)))
      decreases view, 0
    {
      var child := children[0];
      ghost var was := view;
      child.HashRec(kec);
      var enc := EncodeList(EncodeString(HexToCompact(key)) + Inner(child.val));
      children := children[0 := null];
      assert Squash(kec, enc) == Summary(kec, was);
      Finish(kec, enc);
    }

    method HashBranch(kec: Keccak)
      requires Valid() && view.Branch?
      modifies repr
      ensures Valid() && repr == old(repr) && view == Hashed(Summary(kec, old(view)))
      decreases view, 1
    {
      ghost var cs, was := view.children, view;
      SoundChildren(was);
      hide Summary, Sound, Slots, Slot;
      var nodes, i := [], 0;
      while i < 16
        invariant 0 <= i <= 16 && |children| == 16 && this in repr && repr == old(repr) && view == was
        invariant |nodes| == i && forall j :: 0 <= j < i ==> nodes[j] == Slots(kec, cs)[j]
        invariant forall j :: 0 <= j < i ==> children[j] == null
        invariant Children(NoneBefore(cs, i))
      {
        hide Children;
        var node := HashSlot(kec, i, NoneBefore(cs, i));
        nodes := nodes + [node];
        assert NoneBefore(cs, i)[i := Empty] == NoneBefore(cs, i + 1);
        i := i + 1;
      }
      assert nodes == Slots(kec, cs);
      var enc := EncodeList(Concat(nodes + [EncodeString([])]));
      SummaryOfSlots(kec, was);
      Finish(kec, enc);
    }

    lemma OthersApart(cs: seq<Stack>, i: nat)
      requires i < 16 && |children| == 16 && |cs| == 16 && Children(cs) && children[i] != null
      ensures Owns(children[i])
      ensures forall j :: 0 <= j < 16 && j != i && children[j] != null ==> Other(children[j], cs[j], children[i])
    {
      hide Valid;
      assert Slot(children[i], cs[i]);
      forall j | 0 <= j < 16 && j != i && children[j] != null
        ensures Other(children[j], cs[j], children[i])
      {
        assert Slot(children[j], cs[j]);
        assert Owns(children[j]);
        if i < j {
          assert Apart(children[i], children[j]);
        } else {
          assert Apart(children[j], children[i]);
        }
      }
    }

    /** A child whose objects are none of the objects of `child`. */
    ghost predicate Other(c: StackTrie, s: Stack, child: StackTrie)
      reads this, repr
    {
      Owns(c) && child in repr && s != Empty && c.view == s && c.repr !! child.repr
    }

    /** Hashes one child, hands out its place in the encoding and lets go of it. */
    method HashSlot(kec: Keccak, i: nat, ghost cs: seq<Stack>) returns (node: Bytes)
      requires i < 16 && |children| == 16 && |cs| == 16 && this in repr && Children(cs) && Sound(cs[i])
      requires view.Branch? && exists j :: 0 <= j < |view.children| && (cs[i] == Empty || cs[i] == view.children[j])
      modifies repr
      ensures this in repr && repr == old(repr) && view == old(view) && children == old(children)[i := null]
      ensures |children| == 16 && Children(cs[i := Empty])
      ensures node == if cs[i] == Empty then EncodeString([]) else Inner(Summary(kec, cs[i]))
      decreases view, 0
    {
      hide Valid, Sound, Summary;
      var child := children[i];
      if child == null {
        node := EncodeString([]);
      } else {
        assert Slot(child, cs[i]) && Owns(child);
        OthersApart(cs, i);
        label before:
        child.HashRec(kec);
        node := Inner(child.val);
        children := children[i := null];
        forall j | 0 <= j < 16 && j != i && children[j] != null
          ensures Owns(children[j]) && children[j].view == cs[j] && cs[j] != Empty
          ensures children[j].repr == old@before(children[j].repr)
        {
          assert old@before(Other(children[j], cs[j], child));
          assert old@before(Owns(children[j]));
        }
        forall j | 0 <= j < 16 ensures Slot(children[j], cs[i := Empty][j]) {
          assert j != i ==> old@before(Slot(children[j], cs[j]));
        }
        forall j, l | 0 <= j < l < 16 && children[j] != null && children[l] != null
          ensures Apart(children[j], children[l])
        {
          assert old@before(Apart(children[j], children[l]));
          assert Owns(children[j]) && Owns(children[l]);
        }
      }
    }

    /** `hash` on one child, which stays in place. */
    method HashChild(kec: Keccak, i: nat, ghost cs: seq<Stack>)
      requires i < 16 && |children| == 16 && |cs| == 16 && this in repr && Children(cs) && Sound(cs[i])
      requires children[i] != null
      modifies repr
      ensures this in repr && repr == old(repr) && view == old(view) && children == old(children)
      ensures nodeType == old(nodeType) && key == old(key) && val == old(val)
      ensures Children(cs[i := Hashed(Summary(kec, cs[i]))])
    {
      hide Valid, Sound, Summary;
      var child := children[i];
      assert Slot(child, cs[i]) && Owns(child);
      OthersApart(cs, i);
      label before:
      child.HashRec(kec);
      forall j | 0 <= j < 16 && children[j] != null
        ensures Owns(children[j]) && children[j].repr == old@before(children[j].repr)
        ensures j != i ==> children[j].view == cs[j] && cs[j] != Empty
      {
        assert old@before(j != i ==> Other(children[j], cs[j], child));
        assert old@before(Owns(children[j]));
      }
      ghost var rs := cs[i := Hashed(Summary(kec, cs[i]))];
      forall j | 0 <= j < 16 ensures Slot(children[j], rs[j]) {
        assert old@before(Slot(children[j], cs[j]));
      }
      forall j, l | 0 <= j < l < 16 && children[j] != null && children[l] != null
        ensures Apart(children[j], children[l])
      {
        assert old@before(Apart(children[j], children[l]));
        assert Owns(children[j]) && Owns(children[l]);
      }
    }

    // ---------- inserting ----------

    /** `getDiffIndex`, which runs off the end of `k` when that is a proper prefix of the node's key. */
    method DiffIndex(k: Bytes) returns (r: Option<nat>)
      ensures r == if PrefixLen(key, k) < |key| && PrefixLen(key, k) == |k| then None else Some(PrefixLen(key, k))
    {
      hide PrefixLen;
      var idx := 0;
      while idx < |key|
        invariant idx <= |key| && idx <= |k| && key[..idx] == k[..idx]
      {
        if idx == |k| {
          PrefixLenUnique(key, k, idx);
          return None;
        }
        if key[idx] != k[idx] {
          PrefixLenUnique(key, k, idx);
          return Some(idx);
        }
        idx := idx + 1;
      }
      PrefixLenUnique(key, k, idx);
      r := Some(idx);
    }

    /** The loop that hashes the nearest child left of `idx`. */
    method SealElder(kec: Keccak, idx: nat, ghost cs: seq<Stack>)
      requires idx <= 16 && |children| == 16 && |cs| == 16 && this in repr && Children(cs)
      requires forall j :: 0 <= j < 16 ==> Sound(cs[j])
      modifies repr
      ensures this in repr && repr == old(repr) && view == old(view) && children == old(children)
      ensures nodeType == old(nodeType) && key == old(key) && val == old(val)
      ensures Children(Seal(kec, cs, idx))
    {
      hide Valid, Sound, Summary;
      var i := idx;
      while i > 0
        invariant 0 <= i <= idx && this in repr && repr == old(repr) && view == old(view) && children == old(children)
        invariant nodeType == old(nodeType) && key == old(key) && val == old(val)
        invariant Children(cs) && Seal(kec, cs, idx) == Seal(kec, cs, i)
      {
        i := i - 1;
        assert Slot(children[i], cs[i]);
        if children[i] != null {
          assert Owns(children[i]);
          if children[i].nodeType.HashedNode? {
            children[i].HashedView(kec);
            assert cs[i := Hashed(Summary(kec, cs[i]))] == cs;
          } else {
            HashChild(kec, i, cs);
          }
          return;
        }
      }
    }

    lemma HashedView(kec: Keccak)
      requires Valid() && nodeType.HashedNode?
      ensures Sound(view) && view == Hashed(Summary(kec, view))
    {
    }

    /** Inserts into the child at `i`, whose objects may become more. */
    method InsertChild(kec: Keccak, i: nat, k: Bytes, v: Bytes, ghost cs: seq<Stack>) returns (ok: bool)
      requires i < 16 && |children| == 16 && |cs| == 16 && this in repr && Children(cs) && Sound(cs[i])
      requires children[i] != null && Nibbles(k) && cs[i] < view
      modifies repr
      ensures ok <==> Feed(kec, cs[i], k, v).Ok?
      ensures ok ==> |children| == 16 && this in repr && fresh(repr - old(repr)) && nodeType == old(nodeType)
      ensures ok ==> Children(cs[i := Feed(kec, cs[i], k, v).value]) && view == Branch(cs[i := Feed(kec, cs[i], k, v).value])
      decreases view, 0
    {
      hide Valid, Sound, Feed;
      var child := children[i];
      assert Slot(child, cs[i]) && Owns(child);
      OthersApart(cs, i);
      label before:
      ok := child.Insert(kec, k, v);
      if !ok {
        return;
      }
      ghost var rs := cs[i := child.view];
      repr, view := repr + child.repr, Branch(rs);
      forall j | 0 <= j < 16 && j != i && children[j] != null
        ensures Owns(children[j]) && children[j].repr == old@before(children[j].repr)
        ensures children[j].view == cs[j] && cs[j] != Empty && children[j].repr !! child.repr
      {
        assert old@before(Other(children[j], cs[j], child));
        assert old@before(Owns(children[j]));
      }
      forall j | 0 <= j < 16 ensures Slot(children[j], rs[j]) {
        assert old@before(Slot(children[j], cs[j]));
      }
      forall j, l | 0 <= j < l < 16 && children[j] != null && children[l] != null
        ensures Apart(children[j], children[l])
      {
        assert old@before(Apart(children[j], children[l]));
        assert Owns(children[j]) && Owns(children[l]);
      }
    }

    /** A new leaf in an empty slot. */
    method AddLeaf(i: nat, k: Bytes, v: Bytes, ghost cs: seq<Stack>)
      requires i < 16 && |children| == 16 && |cs| == 16 && this in repr && Children(cs) && Nibbles(k)
      requires children[i] == null
      modifies this
      ensures |children| == 16 && this in repr && fresh(repr - old(repr)) && nodeType == old(nodeType)
      ensures Children(cs[i := Leaf(k, v)]) && view == Branch(cs[i := Leaf(k, v)])
    {
      hide Valid;
      var leaf := new StackTrie.NewLeaf(k, v);
      ghost var rs := cs[i := Leaf(k, v)];
      children := children[i := leaf];
      repr, view := repr + leaf.repr, Branch(rs);
      forall j | 0 <= j < 16 && children[j] != null ensures Owns(children[j]) && children[j].view == rs[j] && rs[j] != Empty {
        assert j != i ==> old(Slot(children[j], cs[j])) && old(Owns(children[j]));
      }
      forall j | 0 <= j < 16 ensures Slot(children[j], rs[j]) {
        assert j != i ==> old(Slot(children[j], cs[j]));
      }
      forall j, l | 0 <= j < l < 16 && children[j] != null && children[l] != null
        ensures Apart(children[j], children[l])
      {
        assert j != i && l != i ==> old(Apart(children[j], children[l]));
        assert Owns(children[j]) && Owns(children[l]);
        assert j != i ==> old(Owns(children[j]));
        assert l != i ==> old(Owns(children[l]));
      }
    }

    method InsertBranch(kec: Keccak, k: Bytes, v: Bytes) returns (ok: bool)
      requires Valid() && Nibbles(k) && view.Branch?
      modifies repr
      ensures ok <==> Feed(kec, old(view), k, v).Ok?
      ensures ok ==> Valid() && fresh(repr - old(repr)) && view == Feed(kec, old(view), k, v).value && view != Empty
      decreases view, 1
    {
      if k == [] {
        return false;
      }
      ghost var was := view;
      ghost var cs := view.children;
      var idx := k[0];
      SoundChildren(was);
      FeedSound(kec, was, k, v);
      FeedBranchUnfold(kec, was, k, v);
      SealFrom(kec, cs, idx);
      hide Feed, Summary, Seal, Sound, Slot, Apart;
      assert Children(cs);
      hide Valid;
      SealElder(kec, idx, cs);
      ghost var sealed := Seal(kec, cs, idx);
      assert Slot(children[idx], cs[idx]);
      if children[idx] == null {
        EmptySlot(children[idx], cs[idx]);
        FeedNew(kec, k[1..], v);
        AddLeaf(idx, k[1..], v, sealed);
        ok := true;
      } else {
        ok := InsertChild(kec, idx, k[1..], v, sealed);
        if !ok {
          return;
        }
      }
      ghost var rs := sealed[idx := Feed(kec, cs[idx], k[1..], v).value];
      BranchValid(rs);
    }

    lemma BranchValid(cs: seq<Stack>)
      requires this in repr && |children| == 16 && |cs| == 16 && nodeType.BranchNode? && view == Branch(cs) &&
               Sound(view)
      requires Children(cs)
      ensures Valid()
    {
    }

    lemma ExtValid(c: StackTrie)
      requires this in repr && nodeType.ExtNode? && children == [c] + seq(15, _ => null) && Owns(c)
      requires key != [] && Nibbles(key) && view == Ext(key, c.view)
      ensures Valid()
    {
    }

    lemma EmptySlot(c: StackTrie?, s: Stack)
      requires Slot(c, s)
      ensures c == null <==> s == Empty
    {
    }

    method InsertExt(kec: Keccak, k: Bytes, v: Bytes) returns (ok: bool)
      requires Valid() && Nibbles(k) && view.Ext?
      modifies repr
      ensures ok <==> Feed(kec, old(view), k, v).Ok?
      ensures ok ==> Valid() && fresh(repr - old(repr)) && view == Feed(kec, old(view), k, v).value && view != Empty
      decreases view, 1
    {
      var d := DiffIndex(k);
      hide PrefixLen, Summary;
      if d.None? {
        return false;
      }
      if d.value == |key| {
        ok := InsertBelow(kec, k, v);
      } else {
        SplitExt(kec, k, v, d.value);
        ok := true;
      }
    }

    method InsertBelow(kec: Keccak, k: Bytes, v: Bytes) returns (ok: bool)
      requires Valid() && Nibbles(k) && view.Ext? && PrefixLen(key, k) == |key|
      modifies repr
      ensures ok <==> Feed(kec, old(view), k, v).Ok?
      ensures ok ==> Valid() && fresh(repr - old(repr)) && view == Feed(kec, old(view), k, v).value && view != Empty
      decreases view, 0
    {
      hide Feed, PrefixLen, Summary, Nibbles;
      FeedExtUnfold(kec, view, k, v);
      FeedSound(kec, view, k, v);
      ok := children[0].Insert(kec, k[|key|..], v);
      if ok {
        repr := repr + children[0].repr;
        view := Ext(key, children[0].view);
      }
    }

    method SplitExt(kec: Keccak, k: Bytes, v: Bytes, diff: nat)
      requires Valid() && Nibbles(k) && view.Ext? && diff == PrefixLen(key, k) && diff < |key| && diff < |k|
      modifies repr
      ensures Feed(kec, old(view), k, v).Ok?
      ensures Valid() && fresh(repr - old(repr)) && view == Feed(kec, old(view), k, v).value && view != Empty
      decreases view, 0
    {
      hide PrefixLen, Summary;
      var n;
      if diff < |key| - 1 {
        n := new StackTrie.NewExt(key[diff + 1..], children[0]);
      } else {
        n := children[0];
      }
      n.HashRec(kec);
      var o := new StackTrie.NewLeaf(k[diff + 1..], v);
      ForkAt(diff, n, o, k[diff]);
    }

    method InsertLeaf(kec: Keccak, k: Bytes, v: Bytes) returns (ok: bool)
      requires Valid() && Nibbles(k) && view.Leaf?
      modifies repr
      ensures ok <==> Feed(kec, old(view), k, v).Ok?
      ensures ok ==> Valid() && fresh(repr - old(repr)) && view == Feed(kec, old(view), k, v).value && view != Empty
    {
      var d := DiffIndex(k);
      hide PrefixLen, Summary;
      if d.None? || d.value >= |key| {
        return false;
      }
      var diff := d.value;
      var n := new StackTrie.NewLeaf(key[diff + 1..], val);
      n.HashRec(kec);
      var o := new StackTrie.NewLeaf(k[diff + 1..], v);
      ForkAt(diff, n, o, k[diff]);
      ok := true;
    }

    /** A branch with exactly two children. */
    method SetPair(a: byte, n: StackTrie, b: byte, o: StackTrie)
      requires a < 16 && b < 16 && a != b
      requires n.Valid() && o.Valid() && n.repr !! o.repr && this !in n.repr + o.repr
      requires n.view != Empty && o.view != Empty
      modifies this
      ensures Valid() && view == Split2([], a, n.view, b, o.view) && repr == {this} + n.repr + o.repr
      ensures key == old(key) && val == old(val)
    {
      nodeType := BranchNode;
      children := seq(16, i => if i == b then o else if i == a then n else null);
      repr, view := {this} + n.repr + o.repr, Split2([], a, n.view, b, o.view);
      assert Owns(n) && Owns(o);
    }

    method Insert(kec: Keccak, k: Bytes, v: Bytes) returns (ok: bool)
      requires Valid() && Nibbles(k)
      modifies repr
      ensures ok <==> Feed(kec, old(view), k, v).Ok?
      ensures ok ==> Valid() && fresh(repr - old(repr)) && view == Feed(kec, old(view), k, v).value && view != Empty
      decreases view
    {
      match nodeType {
        case BranchNode => ok := InsertBranch(kec, k, v);
        case ExtNode => ok := InsertExt(kec, k, v);
        case LeafNode => ok := InsertLeaf(kec, k, v);
        case EmptyNode =>
          nodeType, key, val := LeafNode, k, v;
          view, ok := Leaf(k, v), true;
        case HashedNode => ok := false;
      }
    }

    method TryUpdate(kec: Keccak, k: Bytes, v: Bytes) returns (ok: bool)
      requires Valid()
      modifies repr
      ensures ok <==> StackUpdate(kec, old(view), Update(k, v)).Ok?
      ensures ok ==> Valid() && fresh(repr - old(repr)) && view == StackUpdate(kec, old(view), Update(k, v)).value
    {
      hide Valid, Feed;
      var hex := KeybytesToHex(k);
      if v == [] {
        return false;
      }
      assert hex[..|hex| - 1] == Unpack(k);
      ok := Insert(kec, hex[..|hex| - 1], v);
    }

    method Hash(kec: Keccak) returns (h: Hash)
      requires Valid()
      modifies repr
      ensures Valid() && repr == old(repr) && h == StackRoot(kec, old(view))
    {
      HashRec(kec);
      h := if |val| == 32 then val else kec(val);
    }

    method Reset()
      modifies this
      ensures Valid() && repr == {this} && view == Empty
    {
      nodeType, val, key, children := EmptyNode, [], [], seq(16, _ => null);
      view, repr := Empty, {this};
    }

    /** Hangs the old part and the new leaf below the shared part of the key. */
    method ForkAt(diff: nat, n: StackTrie, o: StackTrie, newIdx: byte)
      requires diff < |key| && Nibbles(key) && newIdx < 16 && key[diff] != newIdx
      requires n.Valid() && o.Valid() && n.repr !! o.repr && this !in n.repr + o.repr
      requires n.view != Empty && o.view != Empty
      modifies this
      ensures Valid() && view == Split2(old(key[..diff]), old(key[diff]), n.view, newIdx, o.view)
      ensures repr >= {this} + n.repr + o.repr && fresh(repr - {this} - n.repr - o.repr)
    {
      hide Valid, Sound;
      var origIdx := key[diff];
      key, val := key[..diff], [];
      if diff == 0 {
        nodeType := BranchNode;
        SetPair(origIdx, n, newIdx, o);
      } else {
        var p := new StackTrie();
        p.SetPair(origIdx, n, newIdx, o);
        nodeType, children := ExtNode, [p] + seq(15, _ => null);
        repr, view := {this} + p.repr, Ext(key, p.view);
        ExtValid(p);
      }
    }
  }

  lemma FeedNew(kec: Keccak, k: Bytes, v: Bytes)
    requires Nibbles(k)
    ensures Feed(kec, Empty, k, v) == Ok(Leaf(k, v))
  {
  }

  lemma {:induction false} SealFrom(kec: Keccak, cs: seq<Stack>, idx: nat)
    requires idx < |cs| && forall i :: 0 <= i < |cs| ==> Sound(cs[i])
    ensures forall i :: idx <= i < |cs| ==> Seal(kec, cs, idx)[i] == cs[i]
  {
    if idx > 0 && cs[idx - 1] == Empty {
      SealFrom(kec, cs, idx - 1);
    }
  }

  lemma SoundChildren(s: Stack)
    requires s.Branch? && Sound(s)
    ensures |s.children| == 16 && forall i :: 0 <= i < 16 ==> Sound(s.children[i])
  {
  }

  lemma SummaryOfSlots(kec: Keccak, s: Stack)
    requires s.Branch? && Sound(s)
    ensures |s.children| == 16 && forall i :: 0 <= i < 16 ==> Sound(s.children[i])
    ensures Summary(kec, s) == Squash(kec, EncodeList(Concat(Slots(kec, s.children) + [EncodeString([])])))
  {
  }

  ghost function NoneBefore(cs: seq<Stack>, n: nat): (r: seq<Stack>)
    requires n <= |cs|
    ensures |r| == |cs|
  {
    seq(|cs|, i requires 0 <= i < |cs| => if i < n then Empty else cs[i])
  }
}
