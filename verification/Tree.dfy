/**
  The trie of trie/trie.go as a value: no cached hashes, nothing left unloaded.
  `Insert`, `Delete` and `Get` take the branches of `insert`, `delete` and
  `tryGet`; the loaded-on-demand form in module `Nodes` refines them.
 */
module Tree {
  import opened Bytes
  import opened Keys

  datatype Tree =
    | Nil
    | Value(v: Bytes)
    | Short(key: Bytes, child: Tree)
    | Full(children: seq<Tree>)

  // ---------- canonical form ----------

  predicate ValueOk(t: Tree) {
    t.Value? && t.v != []
  }

  predicate TwoChildren(cs: seq<Tree>) {
    exists i, j :: 0 <= i < j < |cs| && cs[i] != Nil && cs[j] != Nil
  }

  /**
    Minimal form: short keys are not empty and no short node sits under a short
    node, a full node has at least two children, slot 16 and only slot 16 holds
    a value, and a value is reached exactly where a key ends.
   */
  predicate Canonical(t: Tree) {
    match t
    case Nil => true
    case Value(_) => false
    case Short(k, c) =>
      k != [] && HexPath(k) &&
      if HasTerm(k) then ValueOk(c) else c.Full? && Canonical(c)
    case Full(cs) =>
      |cs| == 17 && TwoChildren(cs) && (cs[16] == Nil || ValueOk(cs[16])) &&
      forall i :: 0 <= i < 16 ==> Canonical(cs[i])
  }

  predicate Child(t: Tree) {
    t == Nil || ValueOk(t) || Canonical(t)
  }

  lemma FullChildren(t: Tree)
    requires t.Full? && Canonical(t)
    ensures |t.children| == 17 && forall i :: 0 <= i < 17 ==> Child(t.children[i])
    ensures forall i :: 0 <= i < 16 ==> Canonical(t.children[i])
  {
  }

  // ---------- operations ----------

  function Get(t: Tree, k: Bytes): (r: Option<Bytes>) {
    match t
    case Nil => None
    case Value(v) => Some(v)
    case Short(key, c) =>
      if key <= k then Get(c, k[|key|..]) else None
    case Full(cs) =>
      if k == [] || k[0] >= |cs| then None else Get(cs[k[0]], k[1..])
  }

  /** `insert(nil, key, n)`: the node itself when no key is left, else a short node leading to it. */
  function Lead(key: Bytes, n: Tree): (r: Tree) {
    if key == [] then n else Short(key, n)
  }

  /** The full node that replaces a short node whose key and the new key part at their first nibble. */
  function Fork(a: byte, left: Tree, b: byte, right: Tree): (r: Tree)
    requires a < 17 && b < 17
  {
    Full(seq(17, i => if i == b then right else if i == a then left else Nil))
  }

  function Insert(t: Tree, k: Bytes, value: Tree): (r: Tree)
    decreases t
  {
    if k == [] then value
    else
      match t
      case Nil => Short(k, value)
      case Value(_) => t
      case Short(key, c) =>
        var m := PrefixLen(k, key);
        if m == |key| then Short(key, Insert(c, k[m..], value))
        else if m == |k| || key[m] >= 17 || k[m] >= 17 then t
        else Lead(k[..m], Fork(key[m], Lead(key[m + 1..], c), k[m], Lead(k[m + 1..], value)))
      case Full(cs) =>
        if k[0] >= |cs| then t else Full(cs[k[0] := Insert(cs[k[0]], k[1..], value)])
  }

  /** The index of the only child, or -1 if there is none, or -2 if there are several. */
  function OnlyChild(cs: seq<Tree>): (pos: int)
    ensures pos == -1 || pos == -2 || 0 <= pos < |cs|
  {
    if cs == [] then -1
    else
      var n := |cs| - 1;
      var p := OnlyChild(cs[..n]);
      if cs[n] == Nil then p else if p == -1 then n else -2
  }

  /** What a full node turns into after one child was removed. */
  function Reduce(cs: seq<Tree>): (r: Tree) {
    var pos := OnlyChild(cs);
    if pos < 0 || pos > 16 then Full(cs)
    else if pos != 16 && cs[pos].Short? then Short([pos] + cs[pos].key, cs[pos].child)
    else Short([pos], cs[pos])
  }

  function Delete(t: Tree, k: Bytes): (r: Tree)
    decreases t
  {
    match t
    case Nil => Nil
    case Value(_) => Nil
    case Short(key, c) =>
      var m := PrefixLen(k, key);
      if m < |key| then t
      else if m == |k| then Nil
      else
        var child := Delete(c, k[|key|..]);
        if child.Short? then Short(key + child.key, child.child) else Short(key, child)
    case Full(cs) =>
      if k == [] || k[0] >= |cs| then t
      else
        var n := Delete(cs[k[0]], k[1..]);
        if n == cs[k[0]] then t
        else if n != Nil then Full(cs[k[0] := n])
        else Reduce(cs[k[0] := n])
  }
}
