/**
  The trie is a map: what `Insert` and `Delete` do to `Get`, and that both keep
  the canonical form.
 */
module TreeMap {
  import opened Bytes
  import opened Keys
  import opened Tree

  // ---------- hex keys ----------

  lemma HexKeySplit(k: Bytes, m: nat)
    requires HexKey(k) && m < |k|
    ensures Nibbles(k[..m]) && HexKey(k[m..])
    ensures m + 1 < |k| ==> k[m] < 16 && HexKey(k[m + 1..])
    ensures m + 1 == |k| ==> k[m] == TERMINATOR
  {
    var body := k[..|k| - 1];
    assert forall i :: 0 <= i < |body| ==> k[i] == body[i];
  }

  lemma HexPathSplit(k: Bytes, m: nat)
    requires HexPath(k) && m < |k|
    ensures Nibbles(k[..m]) && HexPath(k[m + 1..])
    ensures m + 1 < |k| ==> k[m] < 16 && HasTerm(k[m + 1..]) == HasTerm(k)
    ensures k[m] <= 16 && (k[m] == TERMINATOR ==> m + 1 == |k| && HasTerm(k))
  {
  }

  lemma HexKeyNotPrefix(a: Bytes, b: Bytes)
    requires HexKey(a) && HexPath(b) && a <= b
    ensures a == b
  {
    assert b[..|a|][|a| - 1] == TERMINATOR;
    HexPathSplit(b, |a| - 1);
  }

  // ---------- insert ----------

  lemma ForkCanonical(a: byte, left: Tree, b: byte, right: Tree)
    requires a <= 16 && b <= 16 && a != b
    requires left != Nil && right != Nil
    requires if a == 16 then ValueOk(left) else Canonical(left)
    requires if b == 16 then ValueOk(right) else Canonical(right)
    ensures Fork(a, left, b, right).Full? && Canonical(Fork(a, left, b, right))
  {
    var cs := Fork(a, left, b, right).children;
    var lo, hi := if a < b then a else b, if a < b then b else a;
    assert cs[lo] != Nil && cs[hi] != Nil;
  }

  /** The part of a short node that hangs below the fork. */
  lemma ForkSideCanonical(key: Bytes, m: nat, c: Tree)
    requires HexPath(key) && m < |key|
    requires if HasTerm(key) then ValueOk(c) else c.Full? && Canonical(c)
    ensures if key[m] == 16 then ValueOk(Lead(key[m + 1..], c))
            else Canonical(Lead(key[m + 1..], c)) && Lead(key[m + 1..], c) != Nil
  {
    HexPathSplit(key, m);
  }

  lemma {:induction false} InsertCanonical(t: Tree, k: Bytes, v: Tree)
    requires Canonical(t) && HexKey(k) && ValueOk(v)
    ensures Canonical(Insert(t, k, v))
    ensures Insert(t, k, v) != Nil
    ensures t.Full? ==> Insert(t, k, v).Full?
    decreases t
  {
    match t
    case Nil =>
    case Short(key, c) => InsertShortCanonical(t, k, v);
    case Full(cs) =>
      HexKeySplit(k, 0);
      if k[0] < 16 {
        InsertCanonical(cs[k[0]], k[1..], v);
      }
      FullUpdateCanonical(cs, k[0], Insert(cs[k[0]], k[1..], v));
  }

  /** Replacing a child by a non-empty one keeps a full node canonical. */
  lemma FullUpdateCanonical(cs: seq<Tree>, i: nat, n: Tree)
    requires Canonical(Full(cs)) && i <= 16 && n != Nil
    requires if i == 16 then ValueOk(n) else Canonical(n)
    ensures Canonical(Full(cs[i := n]))
  {
    var a, b :| 0 <= a < b < |cs| && cs[a] != Nil && cs[b] != Nil;
    assert cs[i := n][a] != Nil && cs[i := n][b] != Nil;
  }

  lemma InsertShortCanonical(t: Tree, k: Bytes, v: Tree)
    requires t.Short? && Canonical(t) && HexKey(k) && ValueOk(v)
    ensures Canonical(Insert(t, k, v)) && Insert(t, k, v) != Nil
    decreases t, 0
  {
    hide PrefixLen, Fork;
    var Short(key, c) := t;
    var m := PrefixLen(k, key);
    if m == |key| {
      if m == |k| {
        assert k == key;
      } else {
        HexKeySplit(k, m);
        assert key == k[..m];
        assert !HasTerm(key);
        InsertCanonical(c, k[m..], v);
      }
    } else {
      if m == |k| {
        HexKeyNotPrefix(k, key);
      }
      HexKeySplit(k, m);
      HexPathSplit(key, m);
      ForkSideCanonical(key, m, c);
      ForkSideCanonical(k, m, v);
      ForkCanonical(key[m], Lead(key[m + 1..], c), k[m], Lead(k[m + 1..], v));
    }
  }

  // ---------- insert and get ----------

  lemma GetLead(key: Bytes, n: Tree, q: Bytes)
    ensures Get(Lead(key, n), q) ==
            if key <= q then Get(n, q[|key|..]) else None
  {
    assert q[0..] == q;
  }

  lemma GetFork(a: byte, left: Tree, b: byte, right: Tree, q: Bytes)
    requires a < 17 && b < 17 && q != []
    ensures Get(Fork(a, left, b, right), q) ==
            if q[0] == b then Get(right, q[1..]) else if q[0] == a then Get(left, q[1..]) else None
  {
  }

  lemma {:induction false} InsertGet(t: Tree, k: Bytes, v: Tree, q: Bytes)
    requires Canonical(t) && HexKey(k) && ValueOk(v) && HexKey(q)
    ensures Get(Insert(t, k, v), q) == if q == k then Some(v.v) else Get(t, q)
    decreases t
  {
    match t
    case Nil => GetShortLeaf(k, v, q);
    case Short(key, c) => InsertShortGet(t, k, v, q);
    case Full(cs) =>
      HexKeySplit(k, 0);
      HexKeySplit(q, 0);
      assert k == [k[0]] + k[1..] && q == [q[0]] + q[1..];
      if k[0] < 16 && q[0] == k[0] {
        InsertGet(cs[k[0]], k[1..], v, q[1..]);
      }
  }

  lemma InsertShortGet(t: Tree, k: Bytes, v: Tree, q: Bytes)
    requires t.Short? && Canonical(t) && HexKey(k) && ValueOk(v) && HexKey(q)
    ensures Get(Insert(t, k, v), q) == if q == k then Some(v.v) else Get(t, q)
    decreases t, 1
  {
    var Short(key, c) := t;
    var m := PrefixLen(k, key);
    if m == |key| {
      assert k == key + k[m..];
      if key <= q {
        assert q == key + q[m..];
        if m < |k| {
          HexKeySplit(k, m);
          InsertMatchGet(t, k, v, q);
        } else {
          HexKeyNotPrefix(k, q);
        }
      }
    } else {
      InsertForkGet(t, k, v, q);
    }
  }

  lemma InsertMatchGet(t: Tree, k: Bytes, v: Tree, q: Bytes)
    requires t.Short? && Canonical(t) && HexKey(k) && ValueOk(v) && HexKey(q)
    requires t.key < k && t.key <= q
    ensures Get(Insert(t.child, k[|t.key|..], v), q[|t.key|..]) ==
            if q == k then Some(v.v) else Get(t.child, q[|t.key|..])
    decreases t, 0
  {
    var Short(key, c) := t;
    var m := |key|;
    HexKeySplit(k, m);
    assert k == key + k[m..] && q == key + q[m..];
    assert !HasTerm(key) by { HexKeySplit(k, m - 1); }
    if m == |q| {
      HexKeyNotPrefix(q, k);
    }
    HexKeySplit(q, m);
    InsertGet(c, k[m..], v, q[m..]);
  }

  lemma PrefixAt(a: Bytes, q: Bytes, m: nat)
    requires m < |a|
    ensures a <= q <==> m < |q| && a[..m] <= q && q[m] == a[m] && a[m + 1..] <= q[m + 1..]
  {
    assert a == a[..m] + ([a[m]] + a[m + 1..]);
    if m < |q| {
      assert q == q[..m] + ([q[m]] + q[m + 1..]);
    }
  }

  /** Where `Get` goes in a short node whose key is split after `m` nibbles. */
  lemma GetShortAt(key: Bytes, c: Tree, m: nat, q: Bytes)
    requires m < |key| && m < |q| && key[..m] <= q
    ensures Get(Short(key, c), q) ==
            if q[m] == key[m] then Get(Lead(key[m + 1..], c), q[m + 1..]) else None
  {
    PrefixAt(key, q, m);
    GetLead(key[m + 1..], c, q[m + 1..]);
  }

  /** A fork answers like whichever of its two short nodes the query leads to. */
  lemma ForkGet(key: Bytes, c: Tree, k: Bytes, v: Tree, m: nat, q: Bytes)
    requires m < |key| && m < |k| && key[..m] == k[..m] && key[m] != k[m] && key[m] < 17 && k[m] < 17
    requires k[..m] <= q ==> m < |q|
    ensures Get(Lead(k[..m], Fork(key[m], Lead(key[m + 1..], c), k[m], Lead(k[m + 1..], v))), q) ==
            if m < |q| && q[m] == k[m] then Get(Short(k, v), q) else Get(Short(key, c), q)
  {
    hide Get, Fork, Lead;
    var left, right := Lead(key[m + 1..], c), Lead(k[m + 1..], v);
    GetLead(k[..m], Fork(key[m], left, k[m], right), q);
    if k[..m] <= q {
      GetFork(key[m], left, k[m], right, q[m..]);
      assert q[m..][0] == q[m] && q[m..][1..] == q[m + 1..];
      GetShortAt(key, c, m, q);
      GetShortAt(k, v, m, q);
    } else {
      GetShortNone(key, c, m, q);
      GetShortNone(k, v, m, q);
    }
  }

  lemma GetShortNone(key: Bytes, c: Tree, m: nat, q: Bytes)
    requires m <= |key| && !(key[..m] <= q)
    ensures Get(Short(key, c), q) == None
  {
  }

  lemma InsertForkIs(t: Tree, k: Bytes, v: Tree)
    requires t.Short? && Canonical(t) && HexKey(k) && PrefixLen(k, t.key) < |t.key|
    ensures var m := PrefixLen(k, t.key);
            m < |k| && k[..m] == t.key[..m] && k[m] != t.key[m] && k[m] <= 16 && t.key[m] <= 16 &&
            Insert(t, k, v) ==
            Lead(k[..m], Fork(t.key[m], Lead(t.key[m + 1..], t.child), k[m], Lead(k[m + 1..], v)))
  {
    hide Fork, Lead;
    var m := PrefixLen(k, t.key);
    if m == |k| {
      HexKeyNotPrefix(k, t.key);
    }
    HexKeySplit(k, m);
    HexPathSplit(t.key, m);
  }

  lemma InsertForkGet(t: Tree, k: Bytes, v: Tree, q: Bytes)
    requires t.Short? && Canonical(t) && HexKey(k) && ValueOk(v) && HexKey(q)
    requires PrefixLen(k, t.key) < |t.key|
    ensures Get(Insert(t, k, v), q) == if q == k then Some(v.v) else Get(t, q)
  {
    hide Get, Fork, Lead;
    var Short(key, c) := t;
    var m := PrefixLen(k, key);
    InsertForkIs(t, k, v);
    hide Insert, PrefixLen, Canonical;
    if k[..m] <= q && m == |q| {
      HexKeyNotPrefix(q, k);
    }
    GetShortLeaf(k, v, q);
    hide HexKey;
    ForkGet(key, c, k, v, m, q);
    if m < |q| && q[m] == k[m] {
      GetShortOther(key, c, m, q);
    }
  }

  lemma GetShortOther(key: Bytes, c: Tree, m: nat, q: Bytes)
    requires m < |key| && m < |q| && q[m] != key[m]
    ensures Get(Short(key, c), q) == None
  {
  }

  lemma GetShortLeaf(k: Bytes, v: Tree, q: Bytes)
    requires HexKey(k) && HexKey(q) && ValueOk(v)
    ensures Get(Short(k, v), q) == if q == k then Some(v.v) else None
  {
    if k <= q {
      HexKeyNotPrefix(k, q);
    }
  }

  // ---------- delete ----------

  lemma {:induction false} OnlyChildMeaning(cs: seq<Tree>)
    ensures OnlyChild(cs) == -1 <==> forall i :: 0 <= i < |cs| ==> cs[i] == Nil
    ensures OnlyChild(cs) == -2 <==> TwoChildren(cs)
    ensures OnlyChild(cs) >= 0 ==>
              cs[OnlyChild(cs)] != Nil && forall i :: 0 <= i < |cs| && i != OnlyChild(cs) ==> cs[i] == Nil
  {
    if cs != [] {
      var n := |cs| - 1;
      OnlyChildMeaning(cs[..n]);
      if TwoChildren(cs[..n]) {
        var i, j :| 0 <= i < j < n && cs[..n][i] != Nil && cs[..n][j] != Nil;
        assert cs[i] != Nil && cs[j] != Nil;
      }
    }
  }

  /** A full node that lost a child: still a row of canonical children, at least one of them left. */
  ghost predicate Reducible(cs: seq<Tree>) {
    |cs| == 17 && (cs[16] == Nil || ValueOk(cs[16])) &&
    (forall i :: 0 <= i < 16 ==> Canonical(cs[i])) &&
    exists i :: 0 <= i < 17 && cs[i] != Nil
  }

  lemma ReduceCanonical(cs: seq<Tree>)
    requires Reducible(cs)
    ensures Canonical(Reduce(cs))
    ensures Reduce(cs).Short? || Reduce(cs).Full?
  {
    hide OnlyChild;
    OnlyChildMeaning(cs);
    var pos := OnlyChild(cs);
    if 0 <= pos < 16 && cs[pos].Short? {
      var key := [pos] + cs[pos].key;
      assert HasTerm(key) == HasTerm(cs[pos].key);
      assert HasTerm(key) ==> key[..|key| - 1] == [pos] + cs[pos].key[..|cs[pos].key| - 1];
    } else if pos == 16 {
      assert [pos] == [TERMINATOR];
    }
  }

  lemma ReduceGet(cs: seq<Tree>, q: Bytes)
    requires Reducible(cs) && HexKey(q)
    ensures Get(Reduce(cs), q) == Get(Full(cs), q)
  {
    hide OnlyChild;
    OnlyChildMeaning(cs);
    HexKeySplit(q, 0);
    var pos := OnlyChild(cs);
    if 0 <= pos < 16 && cs[pos].Short? {
      var key := [pos] + cs[pos].key;
      PrefixAt(key, q, 0);
      assert key[..0] == [] && key[1..] == cs[pos].key;
      if key <= q {
        assert q[|key|..] == q[1..][|cs[pos].key|..];
      }
    } else if pos >= 0 {
      PrefixAt([pos], q, 0);
      assert [pos][..0] == [] && [pos][1..] == [];
    }
  }

  lemma {:induction false} DeleteCanonical(t: Tree, k: Bytes)
    requires Canonical(t) && HexKey(k)
    ensures Canonical(Delete(t, k))
    ensures t.Full? ==> Delete(t, k).Short? || Delete(t, k).Full?
    decreases t
  {
    match t
    case Nil =>
    case Short(key, c) => DeleteShortCanonical(t, k);
    case Full(cs) =>
      HexKeySplit(k, 0);
      if k[0] < 16 {
        DeleteCanonical(cs[k[0]], k[1..]);
      }
      var n := Delete(cs[k[0]], k[1..]);
      if n == Nil {
        FullRemoveReducible(cs, k[0]);
        ReduceCanonical(cs[k[0] := Nil]);
      } else if n != cs[k[0]] {
        FullUpdateCanonical(cs, k[0], n);
      }
  }

  lemma FullRemoveReducible(cs: seq<Tree>, i: nat)
    requires Canonical(Full(cs)) && i <= 16
    ensures Reducible(cs[i := Nil])
  {
    var a, b :| 0 <= a < b < |cs| && cs[a] != Nil && cs[b] != Nil;
    var left := if a == i then b else a;
    assert cs[i := Nil][left] != Nil;
  }

  lemma DeleteShortCanonical(t: Tree, k: Bytes)
    requires t.Short? && Canonical(t) && HexKey(k)
    ensures Canonical(Delete(t, k))
    decreases t, 0
  {
    var Short(key, c) := t;
    var m := PrefixLen(k, key);
    if m == |key| && m < |k| {
      HexKeySplit(k, m);
      HexKeySplit(k, m - 1);
      assert key == k[..m];
      DeleteCanonical(c, k[m..]);
      var child := Delete(c, k[m..]);
      if child.Short? {
        ConcatPath(key, child.key);
      }
    }
  }

  lemma ConcatPath(a: Bytes, b: Bytes)
    requires Nibbles(a) && HexPath(b) && b != []
    ensures HexPath(a + b) && HasTerm(a + b) == HasTerm(b)
  {
    if HasTerm(b) {
      assert (a + b)[..|a + b| - 1] == a + b[..|b| - 1];
    }
  }

  lemma {:induction false} DeleteGet(t: Tree, k: Bytes, q: Bytes)
    requires Canonical(t) && HexKey(k) && HexKey(q)
    ensures Get(Delete(t, k), q) == if q == k then None else Get(t, q)
    decreases t
  {
    match t
    case Nil =>
    case Short(key, c) => DeleteShortGet(t, k, q);
    case Full(cs) => DeleteFullGet(t, k, q);
  }

  lemma DeleteFullGet(t: Tree, k: Bytes, q: Bytes)
    requires t.Full? && Canonical(t) && HexKey(k) && HexKey(q)
    ensures Get(Delete(t, k), q) == if q == k then None else Get(t, q)
    decreases t, 0
  {
    hide Reduce;
    var cs := t.children;
    HexKeySplit(k, 0);
    HexKeySplit(q, 0);
    assert k == [k[0]] + k[1..] && q == [q[0]] + q[1..];
    if k[0] < 16 && q[0] == k[0] {
      DeleteGet(cs[k[0]], k[1..], q[1..]);
    }
    if Delete(cs[k[0]], k[1..]) == Nil {
      FullRemoveReducible(cs, k[0]);
      ReduceGet(cs[k[0] := Nil], q);
    }
  }

  lemma DeleteShortGet(t: Tree, k: Bytes, q: Bytes)
    requires t.Short? && Canonical(t) && HexKey(k) && HexKey(q)
    ensures Get(Delete(t, k), q) == if q == k then None else Get(t, q)
    decreases t, 1
  {
    var Short(key, c) := t;
    var m := PrefixLen(k, key);
    if m < |key| {
      GetShortOf(t, k);
    } else if m == |k| {
      assert key == k;
      GetShortLeaf(k, c, q);
    } else {
      assert key < k;
      DeleteMatchGet(t, k, q);
    }
  }

  lemma GetShortOf(t: Tree, k: Bytes)
    requires t.Short? && PrefixLen(k, t.key) < |t.key|
    ensures Get(t, k) == None
  {
  }

  lemma DeleteMatchGet(t: Tree, k: Bytes, q: Bytes)
    requires t.Short? && Canonical(t) && HexKey(k) && HexKey(q) && t.key < k
    ensures Get(Delete(t, k), q) == if q == k then None else Get(t, q)
    decreases t, 0
  {
    hide PrefixLen;
    var Short(key, c) := t;
    var m := |key|;
    PrefixLenUnique(k, key, m);
    HexKeySplit(k, m);
    HexKeySplit(k, m - 1);
    assert k == key + k[m..];
    var child := Delete(c, k[m..]);
    ShortMergeGet(key, child, q);
    if key <= q {
      assert q == key + q[m..];
      if m == |q| {
        HexKeyNotPrefix(q, k);
      }
      HexKeySplit(q, m);
      DeleteGet(c, k[m..], q[m..]);
    }
  }

  /** Merging a short node into the short node above it does not change the answers. */
  lemma ShortMergeGet(key: Bytes, child: Tree, q: Bytes)
    ensures child.Short? ==> Get(Short(key + child.key, child.child), q) == Get(Short(key, child), q)
  {
    if child.Short? {
      assert key + child.key <= q <==> key <= q && child.key <= q[|key|..];
    }
  }
}
