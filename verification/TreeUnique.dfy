/**
  A canonical trie is determined by the map it holds, so a run of updates and
  deletions is remembered only through its final map.
 */
module TreeUnique {
  import opened Bytes
  import opened Keys
  import opened Tree
  import opened TreeMap

  ghost predicate SameMap(s: Tree, t: Tree) {
    forall q :: HexKey(q) ==> Get(s, q) == Get(t, q)
  }

  // ---------- keys that are certainly present ----------

  lemma {:induction false} SomeKey(t: Tree) returns (k: Bytes)
    requires Canonical(t) && t != Nil
    ensures HexKey(k) && Get(t, k).Some?
    decreases t
  {
    match t
    case Short(key, c) =>
      if HasTerm(key) {
        k := key;
      } else {
        var rest := SomeKey(c);
        k := key + rest;
        ConcatPath(key, rest);
      }
    case Full(cs) =>
      var i :| 0 <= i < 17 && cs[i] != Nil;
      k := SomeKeyAt(t, i);
  }

  lemma SomeKeyAt(t: Tree, i: nat) returns (k: Bytes)
    requires t.Full? && Canonical(t) && i < 17 && t.children[i] != Nil
    ensures HexKey(k) && k[0] == i && Get(t, k).Some?
    decreases t, 0
  {
    if i == 16 {
      k := [TERMINATOR];
    } else {
      var rest := SomeKey(t.children[i]);
      k := [i] + rest;
      ConcatPath([i], rest);
    }
  }

  lemma TwoKeys(t: Tree) returns (k: Bytes, l: Bytes)
    requires t.Full? && Canonical(t)
    ensures HexKey(k) && HexKey(l) && k[0] != l[0]
    ensures Get(t, k).Some? && Get(t, l).Some?
  {
    var i, j :| 0 <= i < j < |t.children| && t.children[i] != Nil && t.children[j] != Nil;
    k := SomeKeyAt(t, i);
    l := SomeKeyAt(t, j);
  }

  // ---------- the map fixes the shape ----------

  lemma ShortHolds(t: Tree, q: Bytes)
    requires Canonical(t) && Get(t, q).Some? && HexKey(q)
    ensures t != Nil
    ensures t.Short? ==> t.key <= q && t.key[0] == q[0]
  {
  }

  lemma SameShape(s: Tree, t: Tree)
    requires Canonical(s) && Canonical(t) && SameMap(s, t)
    ensures s != Nil ==> t != Nil
    ensures s.Full? ==> t.Full?
  {
    if s.Full? {
      var k, l := TwoKeys(s);
      ShortHolds(t, k);
      ShortHolds(t, l);
    } else if s != Nil {
      var k := SomeKey(s);
      ShortHolds(t, k);
    }
  }

  lemma ShortKeyAtMost(s: Tree, t: Tree)
    requires s.Short? && t.Short? && Canonical(s) && Canonical(t) && SameMap(s, t)
    ensures s.key <= t.key
  {
    if HasTerm(t.key) {
      GetShortLeaf(t.key, t.child, t.key);
      ShortHolds(s, t.key);
    } else {
      var k, l := TwoKeys(t.child);
      GetBelow(t, k);
      GetBelow(t, l);
      ShortHolds(s, t.key + k);
      ShortHolds(s, t.key + l);
      assert (t.key + k)[|t.key|] == k[0] && (t.key + l)[|t.key|] == l[0];
    }
  }

  lemma GetBelow(t: Tree, q: Bytes)
    requires t.Short? && Canonical(t) && !HasTerm(t.key) && HexKey(q)
    ensures HexKey(t.key + q) && Get(t, t.key + q) == Get(t.child, q)
  {
    ConcatPath(t.key, q);
    assert (t.key + q)[|t.key|..] == q;
  }

  lemma GetChild(t: Tree, i: nat, q: Bytes)
    requires t.Full? && Canonical(t) && i < 16 && HexKey(q)
    ensures HexKey([i] + q) && Get(t, [i] + q) == Get(t.children[i], q)
  {
    ConcatPath([i], q);
    assert ([i] + q)[1..] == q;
  }

  lemma SameMapBelow(s: Tree, t: Tree)
    requires s.Short? && t.Short? && Canonical(s) && Canonical(t) && SameMap(s, t)
    requires s.key == t.key && !HasTerm(s.key)
    ensures SameMap(s.child, t.child)
  {
    forall q | HexKey(q) ensures Get(s.child, q) == Get(t.child, q) {
      GetBelow(s, q);
      GetBelow(t, q);
    }
  }

  lemma SameMapChild(s: Tree, t: Tree, i: nat)
    requires s.Full? && t.Full? && Canonical(s) && Canonical(t) && SameMap(s, t) && i < 16
    ensures SameMap(s.children[i], t.children[i])
  {
    forall q | HexKey(q) ensures Get(s.children[i], q) == Get(t.children[i], q) {
      GetChild(s, i, q);
      GetChild(t, i, q);
    }
  }

  /** Two canonical tries that hold the same map are the same trie. */
  lemma {:induction false} CanonicalUnique(s: Tree, t: Tree)
    requires Canonical(s) && Canonical(t) && SameMap(s, t)
    ensures s == t
    decreases s
  {
    hide Get;
    SameShape(s, t);
    SameShape(t, s);
    if s.Short? {
      ShortUnique(s, t);
    } else if s.Full? {
      FullUnique(s, t);
    }
  }

  lemma ShortUnique(s: Tree, t: Tree)
    requires s.Short? && t.Short? && Canonical(s) && Canonical(t) && SameMap(s, t)
    ensures s == t
    decreases s, 0
  {
    ShortKeyAtMost(s, t);
    ShortKeyAtMost(t, s);
    if HasTerm(s.key) {
      GetShortLeaf(s.key, s.child, s.key);
      GetShortLeaf(t.key, t.child, s.key);
    } else {
      SameMapBelow(s, t);
      CanonicalUnique(s.child, t.child);
    }
  }

  lemma FullUnique(s: Tree, t: Tree)
    requires s.Full? && t.Full? && Canonical(s) && Canonical(t) && SameMap(s, t)
    ensures s == t
    decreases s, 0
  {
    hide Get;
    forall i | 0 <= i < 16 ensures s.children[i] == t.children[i] {
      SameMapChild(s, t, i);
      CanonicalUnique(s.children[i], t.children[i]);
    }
    ValueSlotUnique(s, t);
    assert s.children == t.children;
  }

  lemma ValueSlotUnique(s: Tree, t: Tree)
    requires s.Full? && t.Full? && Canonical(s) && Canonical(t) && SameMap(s, t)
    ensures s.children[16] == t.children[16]
  {
    var end := [TERMINATOR];
    assert HexKey(end) && Get(s, end) == Get(t, end);
    hide SameMap, HexKey;
    ValueSlot(s);
    ValueSlot(t);
  }

  lemma ValueSlot(t: Tree)
    requires t.Full? && Canonical(t)
    ensures t.children[16] == match Get(t, [TERMINATOR]) case None => Nil case Some(v) => Value(v)
  {
    assert Get(t, [TERMINATOR]) == Get(t.children[16], []);
  }

  // ---------- runs ----------

  /** One call of `TryUpdate`; an empty value asks for deletion. */
  datatype Update = Update(key: Bytes, value: Bytes)

  function Apply(t: Tree, u: Update): (r: Tree) {
    var k := KeybytesToHex(u.key);
    if u.value != [] then Insert(t, k, Value(u.value)) else Delete(t, k)
  }

  function ApplyToMap(m: map<Bytes, Bytes>, u: Update): (r: map<Bytes, Bytes>) {
    if u.value != [] then m[u.key := u.value] else m - {u.key}
  }

  function Run(us: seq<Update>): (t: Tree) {
    if us == [] then Nil else Apply(Run(us[..|us| - 1]), us[|us| - 1])
  }

  function RunMap(us: seq<Update>): (m: map<Bytes, Bytes>) {
    if us == [] then map[] else ApplyToMap(RunMap(us[..|us| - 1]), us[|us| - 1])
  }

  function Lookup(m: map<Bytes, Bytes>, k: Bytes): (r: Option<Bytes>) {
    if k in m then Some(m[k]) else None
  }

  /** The trie is canonical and its keys and values are exactly those of the map. */
  ghost predicate Holds(t: Tree, m: map<Bytes, Bytes>) {
    Canonical(t) &&
    (forall k :: Get(t, KeybytesToHex(k)) == Lookup(m, k)) &&
    (forall q :: HexKey(q) && |q| % 2 == 0 ==> Get(t, q) == None)
  }

  lemma ApplyCanonical(t: Tree, u: Update)
    requires Canonical(t)
    ensures Canonical(Apply(t, u))
  {
    var k := KeybytesToHex(u.key);
    if u.value != [] {
      InsertCanonical(t, k, Value(u.value));
    } else {
      DeleteCanonical(t, k);
    }
  }

  lemma ApplyGet(t: Tree, u: Update, q: Bytes)
    requires Canonical(t) && HexKey(q)
    ensures Get(Apply(t, u), q) ==
            if q != KeybytesToHex(u.key) then Get(t, q)
            else if u.value == [] then None else Some(u.value)
  {
    hide Insert, Delete;
    if u.value != [] {
      InsertGet(t, KeybytesToHex(u.key), Value(u.value), q);
    } else {
      DeleteGet(t, KeybytesToHex(u.key), q);
    }
  }

  lemma ApplyLookup(t: Tree, m: map<Bytes, Bytes>, u: Update, k: Bytes)
    requires Canonical(t) && Get(t, KeybytesToHex(k)) == Lookup(m, k)
    ensures Get(Apply(t, u), KeybytesToHex(k)) == Lookup(ApplyToMap(m, u), k)
  {
    hide Apply, Get, Canonical;
    ApplyGet(t, u, KeybytesToHex(k));
    if KeybytesToHex(k) == KeybytesToHex(u.key) {
      KeybytesToHexInjective(k, u.key);
    }
  }

  lemma ApplyHolds(t: Tree, m: map<Bytes, Bytes>, u: Update)
    requires Holds(t, m)
    ensures Holds(Apply(t, u), ApplyToMap(m, u))
  {
    hide Apply, Get, ApplyToMap, Lookup, KeybytesToHex;
    ApplyCanonical(t, u);
    hide Canonical;
    forall k ensures Get(Apply(t, u), KeybytesToHex(k)) == Lookup(ApplyToMap(m, u), k) {
      ApplyLookup(t, m, u, k);
    }
    forall q | HexKey(q) && |q| % 2 == 0 ensures Get(Apply(t, u), q) == None {
      ApplyGet(t, u, q);
    }
  }

  /** After any run of updates and deletions the trie is canonical and agrees with a plain map. */
  lemma {:induction false} RunRefinesMap(us: seq<Update>)
    ensures Holds(Run(us), RunMap(us))
  {
    if us != [] {
      RunRefinesMap(us[..|us| - 1]);
      ApplyHolds(Run(us[..|us| - 1]), RunMap(us[..|us| - 1]), us[|us| - 1]);
    }
  }

  /** There is only one trie for each map. */
  lemma HoldsUnique(s: Tree, t: Tree, m: map<Bytes, Bytes>)
    requires Holds(s, m) && Holds(t, m)
    ensures s == t
  {
    forall q | HexKey(q) ensures Get(s, q) == Get(t, q) {
      if |q| % 2 == 1 {
        HexRoundTrip(q);
        var k := HexToKeybytes(q).value;
        assert Get(s, KeybytesToHex(k)) == Get(t, KeybytesToHex(k));
      }
    }
    CanonicalUnique(s, t);
  }

  /** The trie depends only on the final map, not on the order of the operations that led to it. */
  lemma RunOrderIrrelevant(us: seq<Update>, vs: seq<Update>)
    requires RunMap(us) == RunMap(vs)
    ensures Run(us) == Run(vs)
  {
    RunRefinesMap(us);
    RunRefinesMap(vs);
    HoldsUnique(Run(us), Run(vs), RunMap(us));
  }
}
