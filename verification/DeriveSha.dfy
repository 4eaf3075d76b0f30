/**
  core/hashing.go: the root over a list, keyed by the RLP encodings of the
  indices. The list is fed in an order that makes those keys increase.
 */
module DeriveSha {
  import opened Bytes
  import opened Rlp
  import opened Tree
  import opened TreeUnique
  import opened Codec
  import opened StackValue
  import opened StackTrie

  // ---------- the keys ----------

  function IndexKey(i: nat): (k: Bytes) {
    EncodeString(BigEndian(i))
  }

  lemma {:induction false} BigEndianBefore(m: nat, n: nat)
    requires m < n
    ensures |BigEndian(m)| <= |BigEndian(n)|
    ensures |BigEndian(m)| == |BigEndian(n)| ==> Before(BigEndian(m), BigEndian(n))
  {
    var a, b := BigEndian(m), BigEndian(n);
    if m > 0 {
      if m / 256 == n / 256 {
        var d := |a| - 1;
        assert a[..d] == BigEndian(m / 256) == b[..d];
        assert BeforeAt(a, b, d);
      } else {
        BigEndianBefore(m / 256, n / 256);
        if |a| == |b| {
          var x, y := BigEndian(m / 256), BigEndian(n / 256);
          var d :| BeforeAt(x, y, d);
          assert a[..d] == x[..d] && b[..d] == y[..d];
          assert BeforeAt(a, b, d);
        }
      }
    }
  }

  lemma SmallIndexKey(i: nat)
    requires i < 0x80
    ensures IndexKey(i) == [if i == 0 then 0x80 else i]
  {
    assert i > 0 ==> BigEndian(i / 256) == [];
  }

  lemma LargeIndexKey(i: nat)
    requires 0x80 <= i < SIZE_LIMIT
    ensures 1 <= |BigEndian(i)| <= 8 && IndexKey(i) == [0x80 + |BigEndian(i)|] + BigEndian(i)
  {
    SizeLength(i);
    if i < 256 {
      assert BigEndian(i / 256) == [];
      assert BigEndian(i) == [i];
    } else {
      assert BigEndian(i / 256) != [];
    }
  }

  lemma IndexKeyBefore(i: nat, j: nat)
    requires i < SIZE_LIMIT && j < SIZE_LIMIT
    requires (1 <= i < j) || (1 <= i < 0x80 && j == 0) || (i == 0 && 0x80 <= j)
    ensures Before(IndexKey(i), IndexKey(j))
  {
    hide IndexKey, BigEndian;
    var a, b := IndexKey(i), IndexKey(j);
    if i < 0x80 {
      SmallIndexKey(i);
    } else {
      LargeIndexKey(i);
    }
    if j < 0x80 {
      SmallIndexKey(j);
    } else {
      LargeIndexKey(j);
    }
    if i >= 0x80 {
      BigEndianBefore(i, j);
    }
    if a[0] < b[0] {
      assert BeforeAt(a, b, 0);
    } else {
      var x, y := BigEndian(i), BigEndian(j);
      var d :| BeforeAt(x, y, d);
      assert a[..d + 1] == [a[0]] + x[..d] && b[..d + 1] == [b[0]] + y[..d];
      assert BeforeAt(a, b, d + 1);
    }
  }

  lemma IndexKeyInjective(i: nat, j: nat)
    requires i < SIZE_LIMIT && j < SIZE_LIMIT && IndexKey(i) == IndexKey(j)
    ensures i == j
  {
    hide IndexKey, BigEndian;
    if i < 0x80 {
      SmallIndexKey(i);
    } else {
      LargeIndexKey(i);
    }
    if j < 0x80 {
      SmallIndexKey(j);
    } else {
      LargeIndexKey(j);
    }
    if i >= 0x80 && j >= 0x80 {
      assert IndexKey(i)[1..] == BigEndian(i) && IndexKey(j)[1..] == BigEndian(j);
      BigEndianRoundTrip(i);
      BigEndianRoundTrip(j);
    }
  }

  // ---------- the order ----------

  /** The index fed at position `p` of a list of `n`: 1 to 127 first, then 0, then the rest. */
  function IndexAt(n: nat, p: nat): (i: nat)
    requires p < n
    ensures i < n
  {
    var last := if n <= 0x80 then n - 1 else 0x7f;
    if p < last then p + 1 else if p == last then 0 else p
  }

  /** Every index of the list is fed at exactly one position. */
  lemma EachIndexOnce(n: nat, i: nat)
    requires i < n
    ensures exists p :: 0 <= p < n && IndexAt(n, p) == i
    ensures forall p, q :: 0 <= p < n && 0 <= q < n && IndexAt(n, p) == i && IndexAt(n, q) == i ==> p == q
  {
    var last := if n <= 0x80 then n - 1 else 0x7f;
    var p := if i == 0 then last else if i <= last then i - 1 else i;
    assert IndexAt(n, p) == i;
  }

  function Updates(list: seq<Bytes>): (us: seq<Update>) {
    seq(|list|, p requires 0 <= p < |list| => Update(IndexKey(IndexAt(|list|, p)), list[IndexAt(|list|, p)]))
  }

  predicate NoneEmpty(list: seq<Bytes>) {
    forall i :: 0 <= i < |list| ==> list[i] != []
  }

  /** The first `p` elements fed have values. */
  predicate FedValues(list: seq<Bytes>, p: nat)
    requires p <= |list|
  {
    forall q :: 0 <= q < p ==> list[IndexAt(|list|, q)] != []
  }

  lemma UpdatesIncreasing(list: seq<Bytes>, p: nat)
    requires |list| < SIZE_LIMIT && p <= |list| && FedValues(list, p)
    ensures Increasing(Updates(list)[..p])
  {
    hide IndexKey, Before;
    var us := Updates(list)[..p];
    forall q | 0 < q < |us| ensures Before(us[q - 1].key, us[q].key) {
      IndexKeyBefore(IndexAt(|list|, q - 1), IndexAt(|list|, q));
    }
  }

  lemma AllFed(list: seq<Bytes>)
    requires FedValues(list, |list|)
    ensures NoneEmpty(list)
  {
    forall i | 0 <= i < |list| ensures list[i] != [] {
      EachIndexOnce(|list|, i);
    }
  }

  /** The list as a map from index keys to values. */
  ghost predicate IsListMap(m: map<Bytes, Bytes>, list: seq<Bytes>) {
    (forall i :: 0 <= i < |list| ==> IndexKey(i) in m && m[IndexKey(i)] == list[i]) &&
    forall k :: k in m ==> exists i :: 0 <= i < |list| && IndexKey(i) == k
  }

  lemma {:induction false} RunMapDistinct(us: seq<Update>)
    requires forall p :: 0 <= p < |us| ==> us[p].value != []
    requires forall p, q :: 0 <= p < q < |us| ==> us[p].key != us[q].key
    ensures forall p :: 0 <= p < |us| ==> us[p].key in RunMap(us) && RunMap(us)[us[p].key] == us[p].value
    ensures forall k :: k in RunMap(us) ==> exists p :: 0 <= p < |us| && us[p].key == k
  {
    if us != [] {
      var n := |us| - 1;
      RunMapDistinct(us[..n]);
      forall k | k in RunMap(us) ensures exists p :: 0 <= p < |us| && us[p].key == k {
        if k != us[n].key {
          var p :| 0 <= p < n && us[..n][p].key == k;
          assert us[p].key == k;
        }
      }
    }
  }

  lemma UpdatesMap(list: seq<Bytes>)
    requires |list| < SIZE_LIMIT && NoneEmpty(list)
    ensures IsListMap(RunMap(Updates(list)), list)
  {
    hide IndexKey, RunMap;
    var us, n := Updates(list), |list|;
    forall p, q | 0 <= p < q < n ensures us[p].key != us[q].key {
      if us[p].key == us[q].key {
        IndexKeyInjective(IndexAt(n, p), IndexAt(n, q));
      }
    }
    RunMapDistinct(us);
    var m := RunMap(us);
    forall i | 0 <= i < n ensures IndexKey(i) in m && m[IndexKey(i)] == list[i] {
      EachIndexOnce(n, i);
      var p :| 0 <= p < n && IndexAt(n, p) == i;
      assert us[p] == Update(IndexKey(i), list[i]);
    }
    forall k | k in m ensures exists i :: 0 <= i < n && IndexKey(i) == k {
      var p :| 0 <= p < n && us[p].key == k;
      assert IndexKey(IndexAt(n, p)) == k;
    }
  }

  lemma ListMapUnique(m: map<Bytes, Bytes>, w: map<Bytes, Bytes>, list: seq<Bytes>)
    requires IsListMap(m, list) && IsListMap(w, list)
    ensures m == w
  {
    hide IndexKey;
    forall k | k in m ensures k in w && m[k] == w[k] {
      var i :| 0 <= i < |list| && IndexKey(i) == k;
    }
    forall k | k in w ensures k in m {
      var i :| 0 <= i < |list| && IndexKey(i) == k;
    }
  }

  // ---------- the loops ----------

  lemma StreamNext(kec: Keccak, us: seq<Update>, p: nat)
    requires p < |us| && Stream(kec, us[..p]).Ok?
    ensures Stream(kec, us[..p + 1]) == StackUpdate(kec, Stream(kec, us[..p]).value, us[p])
  {
    hide StackUpdate;
    assert us[..p + 1][..p] == us[..p];
  }

  /** One element of the list goes into the hasher. */
  method FeedOne(kec: Keccak, list: seq<Bytes>, i: nat, hasher: StackTrie, ghost p: nat) returns (ok: bool)
    requires |list| < SIZE_LIMIT && p < |list| && IndexAt(|list|, p) == i && FedValues(list, p)
    requires hasher.Valid() && Stream(kec, Updates(list)[..p]) == Ok(hasher.view)
    modifies hasher.repr
    ensures ok <==> list[i] != []
    ensures ok ==> hasher.Valid() && fresh(hasher.repr - old(hasher.repr)) && FedValues(list, p + 1)
    ensures ok ==> Stream(kec, Updates(list)[..p + 1]) == Ok(hasher.view)
  {
    StreamNext(kec, Updates(list), p);
    if list[i] != [] {
      UpdatesIncreasing(list, p + 1);
      StreamRel(kec, Updates(list)[..p + 1]);
    }
    hide hasher.Valid, Stream, IndexKey, Feed, Increasing;
    ok := hasher.TryUpdate(kec, IndexKey(i), list[i]);
  }

  /**
    For every list, the root of the trie that maps each index key to its
    element; the only other outcome is the panic on an element without bytes.
   */
  method DeriveSha(kec: Keccak, list: seq<Bytes>, hasher: StackTrie) returns (r: Result<Hash>)
    requires |list| < SIZE_LIMIT && hasher.Valid()
    modifies hasher.repr
    ensures r.Ok? <==> NoneEmpty(list)
    ensures r.Ok? ==> forall t, m :: IsListMap(m, list) && Holds(t, m) ==> r == Ok(RootHash(kec, t))
  {
    hide hasher.Valid, Stream, IsListMap, Get, Canonical, RootHash, StackRoot;
    hasher.Reset();
    var i := 1;
    StreamEmpty(kec);
    assert Updates(list)[..0] == [];
    while i < |list| && i <= 0x7f
      invariant 1 <= i && (i <= |list| || i == 1) && i <= 0x80
      invariant hasher.Valid() && fresh(hasher.repr - old(hasher.repr)) && FedValues(list, i - 1)
      invariant Stream(kec, Updates(list)[..i - 1]) == Ok(hasher.view)
    {
      var ok := FeedOne(kec, list, i, hasher, i - 1);
      if !ok {
        return Err(Panic);
      }
      i := i + 1;
    }
    if |list| > 0 {
      var ok := FeedOne(kec, list, 0, hasher, i - 1);
      if !ok {
        return Err(Panic);
      }
    }
    i := 0x80;
    ghost var p := if |list| < 0x80 then |list| else 0x80;
    while i < |list|
      invariant 0x80 <= i && p <= |list| && p == (if |list| < 0x80 then |list| else i)
      invariant hasher.Valid() && fresh(hasher.repr - old(hasher.repr)) && FedValues(list, p)
      invariant Stream(kec, Updates(list)[..p]) == Ok(hasher.view)
    {
      var ok := FeedOne(kec, list, i, hasher, p);
      if !ok {
        return Err(Panic);
      }
      i := i + 1;
      p := p + 1;
    }
    AllFed(list);
    ghost var s := hasher.view;
    assert Updates(list)[..|list|] == Updates(list);
    var h := hasher.Hash(kec);
    forall t, m | IsListMap(m, list) && Holds(t, m) ensures h == RootHash(kec, t) {
      ListRoot(kec, list, m, t);
    }
    r := Ok(h);
  }

  lemma ListRoot(kec: Keccak, list: seq<Bytes>, m: map<Bytes, Bytes>, t: Tree)
    requires |list| < SIZE_LIMIT && NoneEmpty(list) && IsListMap(m, list) && Holds(t, m)
    ensures Stream(kec, Updates(list)).Ok? && StackRoot(kec, Stream(kec, Updates(list)).value) == RootHash(kec, t)
  {
    hide IsListMap, Increasing, Stream, RunMap;
    UpdatesIncreasing(list, |list|);
    assert Updates(list)[..|list|] == Updates(list);
    UpdatesMap(list);
    ListMapUnique(m, RunMap(Updates(list)), list);
    StreamRoot(kec, Updates(list), t);
  }
}
