/**
  The `Trie` object of trie/trie.go. The ghost field `tree` is the trie the
  object stands for; every method says what it does to that trie.
 */
module TrieObject {
  import opened Bytes
  import opened Keys
  import opened Rlp
  import opened Tree
  import opened TreeMap
  import opened TreeUnique
  import opened Codec
  import opened Nodes
  import opened Hashing

  /** The zero hash, which stands for the empty trie. */
  const NO_HASH: Hash := seq(32, _ => 0)

  lemma RootIsNode(kec: Keccak, db: Store, n: Node, t: Tree)
    requires Canonical(t) && Rep(kec, db, n, t, true)
    ensures n == NilNode <==> t == Nil
    ensures t == Nil || IsNode(t)
  {
  }

  class Trie {
    const kec: Keccak
    const db: Store
    var root: Node
    var unhashed: nat
    ghost var tree: Tree

    ghost predicate Valid()
      reads this
    {
      Canonical(tree) && Rep(kec, db, root, tree, true)
    }

    /** The empty trie over a node store. */
    constructor Empty(kec: Keccak, db: Store)
      ensures Valid() && tree == Nil && this.kec == kec && this.db == db
    {
      this.kec, this.db := kec, db;
      root, unhashed, tree := NilNode, 0, Nil;
    }

    constructor Loaded(kec: Keccak, db: Store, n: Node, ghost t: Tree)
      requires Canonical(t) && Rep(kec, db, n, t, true)
      ensures Valid() && tree == t && root == n && this.kec == kec && this.db == db
    {
      this.kec, this.db := kec, db;
      root, unhashed, tree := n, 0, t;
    }

    /** `New`: open the trie `t` that the root hash commits to; the root node must be in the store. */
    static method Open(kec: Keccak, db: Store, h: Hash, ghost t: Tree) returns (r: Result<Trie>)
      requires Canonical(t) && (h == NO_HASH || h == kec(EncodeString([])) ==> t == Nil)
      requires t != Nil ==> h == kec(Enc(kec, t)) && Fits(kec, t) && Agrees(kec, db, t)
      requires t == Nil ==> h == NO_HASH || h == kec(EncodeString([]))
      ensures r.Ok? ==> fresh(r.value) && r.value.Valid() && r.value.tree == t && r.value.kec == kec && r.value.db == db
      ensures r.Err? ==> t != Nil && h !in db
    {
      if h == NO_HASH || h == kec(EncodeString([])) {
        var trie := new Trie.Empty(kec, db);
        return Ok(trie);
      }
      ResolveRep(kec, db, h, t, true);
      var n := Resolve(db, h);
      if n.Err? {
        return Err(n.error);
      }
      var trie := new Trie.Loaded(kec, db, n.value, t);
      r := Ok(trie);
    }

    /** Reading may load nodes, which changes the object but not the trie it stands for. */
    method TryGet(key: Bytes) returns (r: Result<Option<Bytes>>)
      requires Valid()
      modifies this`root
      ensures Valid()
      ensures r.Ok? ==> r.value == Get(tree, KeybytesToHex(key))
      ensures r.Err? ==> r.error.MissingNode? && r.error.hash !in db && root == old(root)
    {
      var found := Nodes.TryGet(kec, db, root, KeybytesToHex(key), tree, true);
      if found.Err? {
        return Err(found.error);
      }
      if found.value.resolved {
        root := found.value.node;
      }
      r := Ok(found.value.value);
    }

    method TryUpdate(key: Bytes, value: Bytes) returns (r: Result<()>)
      requires Valid()
      modifies this
      ensures Valid()
      ensures r.Ok? ==> tree == Apply(old(tree), Update(key, value))
      ensures r.Err? ==> r.error.MissingNode? && r.error.hash !in db && tree == old(tree) && root == old(root)
      ensures unhashed == old(unhashed) + 1
    {
      unhashed := unhashed + 1;
      var k := KeybytesToHex(key);
      ApplyCanonical(tree, Update(key, value));
      if |value| != 0 {
        TryInsertOk(kec, db, root, k, value, tree, true);
        var changed := TryInsert(kec, db, root, k, value, tree, true);
        if changed.Err? {
          return Err(changed.error);
        }
        root := changed.value.node;
      } else {
        TryDeleteOk(kec, db, root, k, tree, true);
        var changed := Nodes.TryDelete(kec, db, root, k, tree, true);
        if changed.Err? {
          return Err(changed.error);
        }
        root := changed.value.node;
      }
      tree := Apply(tree, Update(key, value));
      r := Ok(());
    }

    method TryDelete(key: Bytes) returns (r: Result<()>)
      requires Valid()
      modifies this
      ensures Valid()
      ensures r.Ok? ==> tree == Delete(old(tree), KeybytesToHex(key))
      ensures r.Err? ==> r.error.MissingNode? && r.error.hash !in db && tree == old(tree) && root == old(root)
      ensures unhashed == old(unhashed) + 1
    {
      unhashed := unhashed + 1;
      var k := KeybytesToHex(key);
      TryDeleteOk(kec, db, root, k, tree, true);
      DeleteCanonical(tree, k);
      var changed := Nodes.TryDelete(kec, db, root, k, tree, true);
      if changed.Err? {
        return Err(changed.error);
      }
      root := changed.value.node;
      tree := Delete(tree, k);
      r := Ok(());
    }

    /** The root hash is the one computed from scratch, whatever hashes were cached before. */
    method Hash() returns (h: Hash)
      requires Valid()
      modifies this`root, this`unhashed
      ensures Valid() && h == RootHash(kec, tree) && unhashed == if old(root) == NilNode then old(unhashed) else 0
    {
      RootIsNode(kec, db, root, tree);
      if root == NilNode {
        return kec(EncodeString([]));
      }
      HashOfOk(kec, db, root, tree, true);
      hide Rep, Enc;
      var r := HashOf(kec, root, true, db, tree);
      root := r.cached;
      unhashed := 0;
      h := r.hashed.h;
    }
  }
}
