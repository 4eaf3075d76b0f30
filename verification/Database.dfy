/**
  The operations of trie/database.go on the write cache: insert, reference,
  dereference with its cascade, flushing the oldest nodes (`Cap`), and
  committing a trie (`Commit`).

  The Merkle order of nodes is a ghost ranking of hashes: a node's children
  rank below it. Writes to disk succeed; sizes are estimates passed in.
 */
module Database {
  import opened Bytes
  import opened NodeCache
  import opened NodeCacheSteps

  class Database {
    var dirties: Dirties
    var oldest: Hash
    var newest: Hash
    var store: map<Hash, seq<Hash>>  // on disk: each node's child hashes
    ghost const rank: Hash -> nat
    ghost var order: seq<Hash>

    /**
      The invariants while some nodes are on their way out (`doomed`, already
      off the flush list) and some references are still to be dropped.
     */
    ghost predicate State(doomed: set<Hash>, pending: multiset<Hash>)
      reads this
    {
      doomed <= dirties.Keys && ZERO !in doomed &&
      FlushList(dirties - doomed, oldest, newest, order) && Sane(dirties - doomed, store.Keys, pending, rank) &&
      Chrono(dirties - doomed, order, store.Keys)
    }

    ghost predicate Valid()
      reads this
    {
      FlushList(dirties, oldest, newest, order) && Sane(dirties, store.Keys, multiset{}, rank) && Chrono(dirties, order, store.Keys)
    }

    constructor (onDisk: map<Hash, seq<Hash>>, ghost order_: Hash -> nat)
      ensures Valid() && store == onDisk && rank == order_ && dirties.Keys == {ZERO}
    {
      dirties := map[ZERO := Entry([], 0, 0, multiset{}, ZERO, ZERO)];
      oldest, newest, store := ZERO, ZERO, onDisk;
      rank, order := order_, [];
      new;
      EmptySane(dirties, store.Keys, rank);
    }

    // ---------- insert and reference ----------

    method Insert(hash: Hash, size: nat, kids: seq<Hash>)
      requires Valid() && (hash !in dirties ==> Insertable(dirties, store.Keys, rank, hash, kids))
      modifies this
      ensures Valid() && store == old(store) && dirties.Keys == old(dirties.Keys) + {hash}
      ensures hash !in old(dirties) ==>
                order == old(order) + [hash] && SameNode(dirties[hash], Entry(kids, size, 0, multiset{}, ZERO, ZERO)) &&
                Raised(old(dirties), dirties - {hash}, multiset(kids))
      ensures hash in old(dirties) ==> dirties == old(dirties)
    {
      hide FlushList, Sane, Chrono;
      if hash in dirties {
        return;
      }
      ghost var live, ends := dirties, Ends(oldest, newest);
      var entry := Entry(kids, size, 0, multiset{}, newest, ZERO);
      CountChildren(kids);
      ghost var counted := dirties;
      InsertLinks(live, ends, order, counted, hash, entry);
      dirties := dirties[hash := entry];
      if oldest == ZERO {
        oldest, newest := hash, hash;
      } else {
        dirties := SetNext(dirties, newest, hash);
        newest := hash;
      }
      order := order + [hash];
      assert (dirties, Ends(oldest, newest)) == Appended(counted, ends, hash, entry);
      InsertRaised(live, ends, counted, hash, entry);
      InsertValid(live, ends, old(order), store.Keys, rank, counted, hash, entry);
      InsertChrono(live, ends, old(order), store.Keys, rank, counted, hash, entry);
    }

    method CountChildren(kids: seq<Hash>)
      modifies this`dirties
      ensures dirties == CountUp(old(dirties), kids)
    {
      var i := 0;
      while i < |kids|
        invariant 0 <= i <= |kids| && dirties == CountUp(old(dirties), kids[..i])
      {
        assert kids[..i + 1][..i] == kids[..i];
        if kids[i] in dirties {
          var c := dirties[kids[i]];
          dirties := dirties[kids[i] := c.(parents := c.parents + 1)];
        }
        i := i + 1;
      }
      assert kids[..|kids|] == kids;
    }

    method Reference(child: Hash, parent: Hash)
      requires Valid() && parent in dirties
      requires child in dirties ==> child != ZERO && child != parent && (parent != ZERO ==> rank(child) < rank(parent))
      modifies this
      ensures Valid() && store == old(store) && dirties.Keys == old(dirties.Keys) && order == old(order)
      ensures dirties == if child in old(dirties) && (parent == ZERO || child !in old(dirties)[parent].children)
                         then WithReference(old(dirties), child, parent) else old(dirties)
    {
      hide FlushList, Sane, Chrono;
      if child !in dirties {
        return;
      }
      if child in dirties[parent].children && parent != ZERO {
        return;
      }
      ghost var live := dirties;
      dirties := dirties[parent := dirties[parent].(children := dirties[parent].children + multiset{child})];
      dirties := dirties[child := dirties[child].(parents := dirties[child].parents + 1)];
      assert dirties == WithReference(live, child, parent);
      ReferenceSane(live, store.Keys, rank, child, parent);
      FlushListSame(live, dirties, oldest, newest, order);
      ChronoSame(live, dirties, order, store.Keys);
    }

    // ---------- dereference ----------

    /** The counters among the nodes that stay, against those of `was`. */
    ghost predicate Even(doomed: set<Hash>, pending: multiset<Hash>, was: Dirties)
      reads this
    {
      Exact(dirties - doomed, store.Keys, pending, was)
    }

    /**
      Gives up one reference of the meta-root, and with it everything no longer
      referred to: nothing stays whose counter dropped to zero, nothing leaves
      but the root and what leaving nodes referred to, and the other counters
      drop by exactly the references that went away.
     */
    method Dereference(root: Hash)
      requires Valid() && (root in dirties && root != ZERO ==> root in dirties[ZERO].children)
      modifies this
      ensures Valid() && store == old(store)
      ensures root == ZERO ==> dirties == old(dirties)
      ensures root != ZERO ==> ZERO in old(dirties) && Shed(WithoutRoot(old(dirties), root), dirties, {root})
      ensures root != ZERO ==> Exact(dirties, store.Keys, multiset{}, old(dirties))
    {
      hide FlushList, Sane, Chrono, Exact, Shed;
      if root == ZERO {
        return;
      }
      ghost var live := dirties;
      MetaThere(dirties, store.Keys, multiset{}, rank);
      if root in dirties[ZERO].children {
        dirties := dirties[ZERO := dirties[ZERO].(children := dirties[ZERO].children - multiset{root})];
        DropRoot(live, store.Keys, rank, root, oldest, newest, order);
        ExactDropRoot(live, store.Keys, root);
        ChronoSame(live, dirties, order, store.Keys);
      } else {
        NothingPending(live, store.Keys, rank, root);
        ExactNone(live, store.Keys, root);
        NoSuchRoot(live, root);
      }
      MinusNone(dirties);
      Release(root, {}, multiset{}, live);
      MinusNone(dirties);
    }

    /** The second half of `dereference`: the reference is gone; count down, and cascade at zero. */
    method Release(child: Hash, ghost doomed: set<Hash>, ghost pending: multiset<Hash>, ghost was: Dirties)
      requires child != ZERO && State(doomed, pending + multiset{child}) && Even(doomed, pending + multiset{child}, was)
      requires forall d :: d in doomed ==> rank(child) < rank(d)
      modifies this
      ensures State(doomed, pending) && Even(doomed, pending, was) && store == old(store)
      ensures dirties.Keys <= old(dirties.Keys) && Shed(old(dirties) - doomed, dirties - doomed, {child})
      decreases dirties.Keys - doomed, 1
    {
      hide FlushList, Sane, Chrono, Exact, Shed;
      ghost var live := dirties - doomed;
      if child !in dirties {
        LessPending(live, store.Keys, pending, rank, child);
        ExactGone(live, store.Keys, pending, was, child);
        ShedSelf(live, {child});
        return;
      }
      var e := dirties[child];
      e := e.(parents := if e.parents > 0 then e.parents - 1 else 0);
      UpdateMinus(dirties, doomed, child, e);
      dirties := dirties[child := e];
      ghost var n := dirties - doomed;
      CountDownAll(live, store.Keys, pending, rank, was, child, oldest, newest, order);
      ChronoSame(live, n, order, store.Keys);
      if e.parents == 0 {
        Cascade(child, doomed, pending, was);
      } else {
        ShedSelf(n, {child});
      }
      ShedCount(live, dirties - doomed, child);
    }

    /** Takes a node off the flush list, drops its references, and deletes it. */
    method Cascade(child: Hash, ghost doomed: set<Hash>, ghost pending: multiset<Hash>, ghost was: Dirties)
      requires State(doomed, pending) && Even(doomed, pending, was) && child in dirties && child !in doomed &&
               child != ZERO
      requires dirties[child].parents == 0 && forall d :: d in doomed ==> rank(child) < rank(d)
      modifies this
      ensures State(doomed, pending) && Even(doomed, pending, was) && store == old(store)
      ensures dirties.Keys <= old(dirties.Keys) && child !in dirties &&
              Shed(old(dirties) - doomed, dirties - doomed, {child})
      decreases dirties.Keys - doomed, 0
    {
      hide FlushList, Sane, Chrono, Exact, Shed;
      ghost var live, out := dirties - doomed, doomed + {child};
      LeaveSane(live, store.Keys, pending, rank, child);
      ExactLeave(live, store.Keys, pending, was, child);
      var e := dirties[child];
      MetaThere(live, store.Keys, pending, rank);
      RefsBelow(live, store.Keys, pending, rank, child);
      Unlink(child, doomed, pending + RefsOf(e));
      ghost var m := dirties - out;
      ExactSame(live - {child}, m, store.Keys, pending + RefsOf(e), was);
      assert pending + RefsOf(e) == pending + multiset(e.kids) + e.children;
      assert child in old(dirties.Keys) - doomed && child !in dirties.Keys - out;
      DropRefs(child, e, out, pending, was);
      ShedLeave(live, m, dirties - out, child, set h | h in RefsOf(e));
      MinusBoth(dirties, doomed, child);
      dirties := dirties - {child};
    }

    /** Drops every reference of a doomed node, from outside and inside. */
    method DropRefs(child: Hash, e: Entry, ghost out: set<Hash>, ghost pending: multiset<Hash>, ghost was: Dirties)
      requires child in out && State(out, pending + multiset(e.kids) + e.children) && Single(e.children)
      requires Even(out, pending + multiset(e.kids) + e.children, was)
      requires forall d, h :: d in out && (h in e.children || h in e.kids) ==> rank(h) < rank(d)
      requires forall h :: h in e.children || h in e.kids ==> h != ZERO
      modifies this
      ensures State(out, pending) && Even(out, pending, was) && store == old(store)
      ensures dirties.Keys <= old(dirties.Keys) && Shed(old(dirties) - out, dirties - out, set h | h in RefsOf(e))
      decreases dirties.Keys - out, 4
    {
      hide State, Even, Shed, Single;
      ghost var m := dirties - out;
      DropOutside(child, e.children, out, pending + multiset(e.kids), was);
      ghost var n := dirties - out;
      DropInside(child, e.kids, out, pending, was);
      ghost var outside, inside := (set h | h in e.children), SetOf(e.kids);
      ShedTrans(m, n, dirties - out, outside, inside);
      assert (set h | h in RefsOf(e)) == outside + inside;
    }

    /** Drops the references a doomed node holds from outside, each once. */
    method DropOutside(child: Hash, refs: multiset<Hash>, ghost out: set<Hash>, ghost pending: multiset<Hash>,
                       ghost was: Dirties)
      requires child in out && State(out, pending + refs) && Even(out, pending + refs, was) && Single(refs)
      requires forall d, h :: d in out && h in refs ==> rank(h) < rank(d)
      requires forall h :: h in refs ==> h != ZERO
      modifies this
      ensures State(out, pending) && Even(out, pending, was) && store == old(store)
      ensures dirties.Keys <= old(dirties.Keys) && Shed(old(dirties) - out, dirties - out, set h | h in refs)
      decreases dirties.Keys - out, 3
    {
      var todo := set h | h in refs;
      ghost var rest, all, m := refs, todo, dirties - out;
      hide State, Even, Shed, Single;
      ShedSelf(m, {});
      assert all - todo == {};
      while todo != {}
        invariant todo == Elements(rest) && Single(rest) && rest <= refs && todo <= all
        invariant State(out, pending + rest) && Even(out, pending + rest, was) && store == old(store)
        invariant dirties.Keys <= old(dirties.Keys) && Shed(m, dirties - out, all - todo)
        decreases |todo|
      {
        var h :| h in todo;
        OneLess(pending, rest, h);
        ghost var fewer, n := rest - multiset{h}, dirties - out;
        DropEdge(h, child, out, pending + fewer, was);
        ShedTrans(m, n, dirties - out, all - todo, {h});
        DoneMore(rest, all, todo, h);
        todo := todo - {h};
        rest := fewer;
      }
      assert forall h :: h in rest ==> h in Elements(rest);
      NoRest(pending, rest);
      assert all - {} == all;
    }

    /** Drops the references inside a doomed node, one for each occurrence. */
    method DropInside(child: Hash, kids: seq<Hash>, ghost out: set<Hash>, ghost pending: multiset<Hash>,
                      ghost was: Dirties)
      requires child in out && State(out, pending + multiset(kids)) && Even(out, pending + multiset(kids), was)
      requires forall d, h :: d in out && h in kids ==> rank(h) < rank(d)
      requires forall h :: h in kids ==> h != ZERO
      modifies this
      ensures State(out, pending) && Even(out, pending, was) && store == old(store)
      ensures dirties.Keys <= old(dirties.Keys) && Shed(old(dirties) - out, dirties - out, SetOf(kids))
      decreases dirties.Keys - out, 3
    {
      hide State, Even, Shed;
      ghost var m := dirties - out;
      var i := 0;
      assert kids[0..] == kids;
      ShedSelf(m, {});
      assert SetOf(kids[..0]) == {};
      while i < |kids|
        invariant 0 <= i <= |kids| && store == old(store) && dirties.Keys <= old(dirties.Keys)
        invariant State(out, pending + multiset(kids[i..])) && Even(out, pending + multiset(kids[i..]), was)
        invariant Shed(m, dirties - out, SetOf(kids[..i]))
      {
        NextKid(pending, kids, i);
        assert kids[i] in kids;
        ghost var n, done := dirties - out, SetOf(kids[..i]);
        DropEdge(kids[i], child, out, pending + multiset(kids[i + 1..]), was);
        ShedTrans(m, n, dirties - out, done, {kids[i]});
        assert kids[..i + 1] == kids[..i] + [kids[i]];
        assert SetOf(kids[..i + 1]) == done + {kids[i]};
        i := i + 1;
      }
      NoRest(pending, multiset(kids[i..]));
      assert kids[..i] == kids;
    }

    /** `dereference` of a child by a node on its way out. */
    method DropEdge(h: Hash, parent: Hash, ghost out: set<Hash>, ghost pending: multiset<Hash>, ghost was: Dirties)
      requires h != ZERO && parent in out && State(out, pending + multiset{h}) && Even(out, pending + multiset{h}, was)
      requires forall d :: d in out ==> rank(h) < rank(d)
      modifies this
      ensures State(out, pending) && Even(out, pending, was) && store == old(store)
      ensures dirties.Keys <= old(dirties.Keys) && Shed(old(dirties) - out, dirties - out, {h})
      decreases dirties.Keys - out, 2
    {
      hide FlushList, Sane, Chrono, Exact, Shed;
      var p := dirties[parent];
      UpdateDoomed(dirties, out, parent, p.(children := p.children - multiset{h}));
      dirties := dirties[parent := p.(children := p.children - multiset{h})];
      Release(h, out, pending, was);
    }

    /** The switch over oldest, newest and inner nodes. */
    method Unlink(hash: Hash, ghost doomed: set<Hash>, ghost pending: multiset<Hash>)
      requires doomed <= dirties.Keys && ZERO in dirties && ZERO !in doomed && hash in dirties &&
               hash !in doomed && hash != ZERO
      requires FlushList(dirties - doomed, oldest, newest, order) &&
               Sane(dirties - doomed - {hash}, store.Keys, pending, rank)
      requires Chrono(dirties - doomed, order, store.Keys)
      modifies this`dirties, this`oldest, this`newest, this`order
      ensures State(doomed + {hash}, pending) && dirties.Keys == old(dirties.Keys)
      ensures SameContent(old(dirties) - doomed - {hash}, dirties - (doomed + {hash}))
    {
      hide FlushList, Sane, Chrono;
      ghost var live, ends := dirties - doomed, Ends(oldest, newest);
      ghost var was := dirties;
      ghost var i := IndexOf(live, ends, order, hash);
      UnlinkOk(live, ends, order, i);
      UnlinkSane(live, ends, order, i, store.Keys, pending, rank);
      UnlinkChrono(live, ends, order, i, store.Keys, pending, rank);
      UnlinkDirties(dirties, doomed, ends, hash);
      UnlinkedContent(live, ends, hash);
      ContentWithout(live, Unlinked(live, ends, hash).0, hash);
      hide SameContent;
      var e := dirties[hash];
      if hash == oldest {
        oldest := e.flushNext;
        dirties := SetPrev(dirties, e.flushNext, ZERO);
      } else if hash == newest {
        newest := e.flushPrev;
        dirties := SetNext(dirties, e.flushPrev, ZERO);
      } else {
        dirties := SetNext(dirties, e.flushPrev, e.flushNext);
        dirties := SetPrev(dirties, e.flushNext, e.flushPrev);
      }
      order := Without(order, i);
      assert (dirties, Ends(oldest, newest)) == Unlinked(was, ends, hash);
      MinusBoth(dirties, doomed, hash);
    }

    // ---------- flushing the oldest nodes ----------

    /**
      Writes the oldest nodes out, no more than it takes for the estimated size
      to come within the limit, then drops them from the cache.
     */
    method Cap(size: int, limit: int, overhead: nat, full: seq<Write> -> bool) returns (ghost n: nat)
      requires Valid()
      modifies this
      ensures Valid() && n <= |old(order)| && order == old(order)[n..]
      ensures JustEnough(old(dirties), old(order), n, size, limit, overhead)
      ensures Remains(dirties, old(dirties), old(order)[..n])
      ensures store == WriteAll(old(store), Writes(old(dirties), old(order)[..n]))
      ensures Complete(old(store)) ==> Complete(store)
    {
      hide FlushList, Sane, Chrono, Complete, Remains, JustEnough;
      ghost var m, all, was := dirties, order, store;
      var cur;
      cur, n := FlushOldest(size, limit, overhead, full);
      FlushedKept(m, all, was, oldest, newest, rank, n);
      assert order == all[0..] && all[..0] == [];
      DropFlushed(cur, all, n);
    }

    /** The first loop: every batch leaves a complete disk. */
    method FlushOldest(size: int, limit: int, overhead: nat, full: seq<Write> -> bool) returns (cur: Hash, ghost n: nat)
      requires Valid()
      modifies this`store
      ensures n <= |order| && cur == (if n < |order| then order[n] else ZERO)
      ensures store == WriteAll(old(store), Writes(dirties, order[..n]))
      ensures JustEnough(dirties, order, n, size, limit, overhead)
    {
      hide FlushList, Sane, Chrono, Complete, Writes, WriteAll, Spent;
      var batch, left := [], size;
      ghost var m, all := dirties, order;
      cur, n := oldest, 0;
      FlushAt(m, oldest, newest, all, 0);
      WriteNone(store, m, all);
      SpentNone(m, all, overhead);
      while left > limit && cur != ZERO
        invariant n <= |all| && cur == (if n < |all| then all[n] else ZERO)
        invariant WriteAll(store, batch) == WriteAll(old(store), Writes(m, all[..n]))
        invariant Complete(old(store)) ==> Complete(store)
        invariant left == size - Spent(m, all[..n], overhead)
        invariant forall j :: 0 <= j < n ==> size - Spent(m, all[..j], overhead) > limit
        decreases |all| - n
      {
        FlushAt(m, oldest, newest, all, n);
        var node := dirties[cur];
        WriteNext(store, batch, old(store), m, all, n);
        BatchComplete(m, all, old(store), n + 1);
        SpentNext(m, all, n, overhead);
        batch := batch + [Write(cur, node.kids)];
        n := n + 1;
        if full(batch) {
          store := WriteAll(store, batch);
          batch := [];
          WriteEmpty(store);
        }
        left := left - Cost(node, overhead);
        cur := node.flushNext;
      }
      FlushAt(m, oldest, newest, all, n);
      store := WriteAll(store, batch);
    }

    /** The second loop: what was written leaves the cache. */
    method DropFlushed(cur: Hash, ghost all: seq<Hash>, ghost n: nat)
      requires Valid() && order == all && n <= |all| && cur == (if n < |all| then all[n] else ZERO)
      requires forall h :: h in all[..n] ==> h in store
      modifies this`dirties, this`oldest, this`order
      ensures Valid() && order == all[n..]
      ensures Remains(dirties, old(dirties), all[..n])
    {
      assert Distinct(all);
      ghost var j := 0;
      assert all[0..] == all && Remains(dirties, dirties, all[..0]);
      hide Sane, Chrono, FlushList, Distinct, Remains;
      while oldest != cur
        invariant j <= n && order == all[j..] && Valid()
        invariant Remains(dirties, old(dirties), all[..j])
        decreases n - j
      {
        HeadOf(dirties, oldest, newest, order, all, j, n, cur);
        RemainsLess(dirties, old(dirties), all, j);
        DropOldest();
        j := j + 1;
      }
      AllDropped(dirties, oldest, newest, order, all, j, n, cur);
      if oldest != ZERO {
        HeadPrev(dirties, oldest, newest, order, store.Keys, rank);
        RemainsSame(dirties, old(dirties), all[..n], oldest);
        dirties := SetPrev(dirties, oldest, ZERO);
      }
    }

    method DropOldest()
      requires Valid() && order != [] && order[0] == oldest && oldest in dirties && oldest in store && oldest != ZERO
      modifies this`dirties, this`oldest, this`order
      ensures Valid() && order == old(order)[1..] && dirties == old(dirties) - {old(oldest)}
    {
      hide Sane, Chrono, FlushList;
      DropHeadAll(dirties, oldest, newest, order, store.Keys, rank);
      var node := dirties[oldest];
      dirties := dirties - {oldest};
      oldest := node.flushNext;
      order := order[1..];
    }

    // ---------- committing a trie ----------

    /**
      After `Commit` the trie under the root is on disk, complete, and its root
      no longer cached. What left the cache went to disk, with everything it
      refers to; what is new on disk came from the cache as it was.
     */
    method Commit(root: Hash, full: seq<Write> -> bool)
      requires Valid() && root != ZERO
      modifies this
      ensures Valid() && dirties.Keys <= old(dirties.Keys) && old(store.Keys) <= store.Keys
      ensures root in old(dirties) ==> root in store && root !in dirties
      ensures forall h :: h in old(dirties) && h !in dirties ==> h in store && RefsStored(old(dirties)[h], store)
      ensures forall h :: h in dirties ==> SameNode(old(dirties)[h], dirties[h])
      ensures Wrote(old(store), store, old(dirties))
      ensures Complete(old(store)) ==> Complete(store)
    {
      hide FlushList, Sane, Chrono, Complete, WriteAll, Wrote, RefsStored, RefsOf;
      WriteEmpty(store);
      var batch := CommitNode(root, full, []);
      ghost var s, m := store, dirties;
      WriteKeys(store, batch);
      WriteBatch(batch);
      FlushProgress(s, m, batch, store, dirties);
      ProgressTrans(old(store), old(dirties), [], s, m, batch, store, dirties, []);
      WriteEmpty(store);
    }

    /** Children first, then the node itself; a full batch is written and uncached on the way. */
    method CommitNode(hash: Hash, full: seq<Write> -> bool, batch: seq<Write>) returns (b: seq<Write>)
      requires Valid() && hash != ZERO && Writable(batch)
      modifies this
      ensures Valid() && Writable(b) && Progress(old(store), old(dirties), batch, store, dirties, b)
      ensures hash in old(dirties) ==> hash in WriteAll(store, b) && (hash in dirties ==> InBatch(b, hash))
      decreases rank(hash), 3
    {
      hide FlushList, Sane, Chrono, Complete, WriteAll, Progress;
      ProgressNone(store, dirties, batch);
      if hash !in dirties {
        return batch;
      }
      var node := dirties[hash];
      b := CommitRefs(hash, node, full, batch);
      WriteNode(old(store), old(dirties), batch, store, dirties, b, hash);
      b := b + [Write(hash, node.kids)];
      if full(b) {
        ghost var s, m, c := store, dirties, b;
        WriteBatch(b);
        FlushProgress(s, m, c, store, dirties);
        ProgressTrans(old(store), old(dirties), batch, s, m, c, store, dirties, []);
        WriteEmpty(store);
        b := [];
      }
    }

    /** Commits what a node refers to, from outside and inside; afterwards all of it is on disk or in the batch. */
    method CommitRefs(hash: Hash, node: Entry, full: seq<Write> -> bool, batch: seq<Write>) returns (b: seq<Write>)
      requires Valid() && hash != ZERO && Writable(batch) && hash in dirties && dirties[hash] == node
      modifies this
      ensures Valid() && Writable(b) && Progress(old(store), old(dirties), batch, store, dirties, b)
      ensures RefsStored(node, WriteAll(store, b))
      decreases rank(hash), 2
    {
      hide FlushList, Sane, Chrono, Complete, WriteAll, Progress;
      RefsBelow(dirties, store.Keys, multiset{}, rank, hash);
      RefsThere(dirties, store, batch, rank, hash);
      ghost var outside := Elements(node.children);
      b := CommitOutside(node.children, full, batch, hash);
      ghost var s, m, c := store, dirties, b;
      StillThere(old(store), old(dirties), batch, store, dirties, b, SetOf(node.kids));
      b := CommitInside(node.kids, full, b, hash);
      Kept(s, m, c, store, dirties, b, outside);
      ProgressTrans(old(store), old(dirties), batch, s, m, c, store, dirties, b);
    }

    /** Commits the nodes referred to from outside, in some order. */
    method CommitOutside(refs: multiset<Hash>, full: seq<Write> -> bool, batch: seq<Write>, ghost above: Hash)
      returns (b: seq<Write>)
      requires Valid() && Writable(batch)
      requires forall h :: h in refs ==> h != ZERO && rank(h) < rank(above) && (h in dirties || h in WriteAll(store, batch))
      modifies this
      ensures Valid() && Writable(b) && Progress(old(store), old(dirties), batch, store, dirties, b)
      ensures forall h :: h in refs ==> h in WriteAll(store, b)
      decreases rank(above), 1
    {
      hide FlushList, Sane, Chrono, Complete, WriteAll, Progress;
      b := batch;
      ProgressNone(store, dirties, batch);
      var todo := set h | h in refs;
      ghost var all := todo;
      while todo != {}
        invariant Valid() && Writable(b) && Progress(old(store), old(dirties), batch, store, dirties, b)
        invariant todo <= all
        invariant forall h :: h in all - todo ==> h in WriteAll(store, b)
        decreases |todo|
      {
        var h :| h in todo;
        assert h in refs;
        StillThere(old(store), old(dirties), batch, store, dirties, b, all);
        b := CommitOne(h, full, b, all - todo, old(store), old(dirties), batch);
        todo := todo - {h};
      }
    }

    /** Commits the nodes inside; afterwards each of them is on disk or in the batch. */
    method CommitInside(kids: seq<Hash>, full: seq<Write> -> bool, batch: seq<Write>, ghost above: Hash)
      returns (b: seq<Write>)
      requires Valid() && Writable(batch)
      requires forall h :: h in kids ==> h != ZERO && rank(h) < rank(above) && (h in dirties || h in WriteAll(store, batch))
      modifies this
      ensures Valid() && Writable(b) && Progress(old(store), old(dirties), batch, store, dirties, b)
      ensures forall h :: h in kids ==> h in WriteAll(store, b)
      decreases rank(above), 1
    {
      hide FlushList, Sane, Chrono, Complete, WriteAll, Progress;
      b := batch;
      ProgressNone(store, dirties, batch);
      var i := 0;
      while i < |kids|
        invariant 0 <= i <= |kids| && Valid() && Writable(b)
        invariant Progress(old(store), old(dirties), batch, store, dirties, b)
        invariant forall h :: h in kids[..i] ==> h in WriteAll(store, b)
      {
        var h := kids[i];
        assert h in kids;
        StillThere(old(store), old(dirties), batch, store, dirties, b, SetOf(kids));
        b := CommitOne(h, full, b, SetOf(kids[..i]), old(store), old(dirties), batch);
        assert kids[..i + 1] == kids[..i] + [h];
        i := i + 1;
      }
      assert kids[..|kids|] == kids;
    }

    /** One reference more, without losing what was committed before. */
    method CommitOne(h: Hash, full: seq<Write> -> bool, batch: seq<Write>, ghost done: set<Hash>,
                     ghost s: map<Hash, seq<Hash>>, ghost m: Dirties, ghost c: seq<Write>)
      returns (b: seq<Write>)
      requires Valid() && h != ZERO && Writable(batch) && (h in dirties || h in WriteAll(store, batch))
      requires Progress(s, m, c, store, dirties, batch) && forall x :: x in done ==> x in WriteAll(store, batch)
      modifies this
      ensures Valid() && Writable(b) && Progress(s, m, c, store, dirties, b)
      ensures h in WriteAll(store, b) && forall x :: x in done ==> x in WriteAll(store, b)
      decreases rank(h), 4
    {
      hide FlushList, Sane, Chrono, Complete, WriteAll, Progress;
      b := CommitNode(h, full, batch);
      Kept(old(store), old(dirties), batch, store, dirties, b, done);
      Kept(old(store), old(dirties), batch, store, dirties, b, {h});
      ProgressTrans(s, m, c, old(store), old(dirties), batch, store, dirties, b);
    }

    /** A batch goes to disk; its replay removes the written nodes from the cache. */
    method WriteBatch(ws: seq<Write>)
      requires Valid() && Writable(ws)
      modifies this
      ensures Valid() && store == WriteAll(old(store), ws)
      ensures forall h :: h in dirties <==> h in old(dirties) && !InBatch(ws, h)
      ensures forall h :: h in dirties ==> SameNode(old(dirties)[h], dirties[h])
    {
      hide FlushList, Sane, Chrono, WriteAll, Uncached;
      WriteKeys(store, ws);
      StoreKept(dirties, store, WriteAll(store, ws), oldest, newest, order, rank);
      store := WriteAll(store, ws);
      var i := 0;
      UncachedNone(dirties, ws);
      while i < |ws|
        invariant 0 <= i <= |ws| && Valid() && store == WriteAll(old(store), ws)
        invariant Uncached(old(dirties), dirties, ws[..i])
      {
        ghost var m := dirties;
        BatchNext(ws, i);
        Uncache(ws[i].hash);
        UncachedNext(old(dirties), m, dirties, ws, i);
        i := i + 1;
      }
      UncachedAll(old(dirties), dirties, ws);
    }

    /** `cleaner.Put`. */
    method Uncache(hash: Hash)
      requires Valid() && hash != ZERO && hash in store
      modifies this`dirties, this`oldest, this`newest, this`order
      ensures Valid() && SameContent(old(dirties) - {hash}, dirties)
    {
      hide FlushList, Sane, Chrono;
      if hash !in dirties {
        assert dirties - {hash} == dirties;
        return;
      }
      MetaThere(dirties, store.Keys, multiset{}, rank);
      UncacheSane(dirties, store.Keys, multiset{}, rank, hash);
      MinusNone(dirties);
      Unlink(hash, {}, multiset{});
      assert {} + {hash} == {hash};
      dirties := dirties - {hash};
    }
  }

  // ---------- committing ----------

  /** The nodes of the batch left the cache; the others are as they were. */
  ghost predicate Uncached(was: Dirties, n: Dirties, ws: seq<Write>) {
    (forall h :: h in n <==> h in was && !InBatch(ws, h)) && forall h :: h in n ==> SameNode(was[h], n[h])
  }

  lemma UncachedNone(m: Dirties, ws: seq<Write>)
    ensures Uncached(m, m, ws[..0])
  {
  }

  lemma UncachedNext(was: Dirties, m: Dirties, n: Dirties, ws: seq<Write>, i: nat)
    requires i < |ws| && Uncached(was, m, ws[..i]) && SameContent(m - {ws[i].hash}, n)
    ensures Uncached(was, n, ws[..i + 1])
  {
    BatchNext(ws, i);
    hide InBatch;
    forall h | h in n ensures SameNode(was[h], n[h]) {
      assert h in m - {ws[i].hash};
    }
  }

  lemma UncachedAll(was: Dirties, n: Dirties, ws: seq<Write>)
    requires Uncached(was, n, ws[..|ws|])
    ensures (forall h :: h in n <==> h in was && !InBatch(ws, h)) && forall h :: h in n ==> SameNode(was[h], n[h])
  {
    assert ws[..|ws|] == ws;
  }

  ghost predicate Writable(b: seq<Write>) {
    forall i :: 0 <= i < |b| ==> b[i].hash != ZERO
  }

  ghost predicate InBatch(b: seq<Write>, h: Hash) {
    exists i :: 0 <= i < |b| && b[i].hash == h
  }

  /** All that a node refers to is on disk. */
  ghost predicate RefsStored(e: Entry, store: map<Hash, seq<Hash>>) {
    forall k :: k in RefsOf(e) ==> k in store
  }

  /** What changed on disk is a node of the cache. */
  ghost predicate Wrote(s: map<Hash, seq<Hash>>, t: map<Hash, seq<Hash>>, m: Dirties) {
    forall h :: h in t ==> (h in s && t[h] == s[h]) || (h in m && t[h] == m[h].kids)
  }

  /**
    What a part of a commit does: nothing on disk or in the batch is lost, and
    only nodes of the cache are added; nodes leave the cache only for the disk,
    the others stay as they are; what a written node refers to is on disk or in
    the batch; and disk and batch together stay complete.
   */
  ghost predicate Progress(s: map<Hash, seq<Hash>>, m: Dirties, b: seq<Write>,
                           t: map<Hash, seq<Hash>>, n: Dirties, c: seq<Write>) {
    s.Keys <= t.Keys && WriteAll(s, b).Keys <= WriteAll(t, c).Keys && n.Keys <= m.Keys &&
    (forall h :: h in n ==> SameNode(m[h], n[h])) &&
    (forall h :: h in m && h !in n ==> h in t) &&
    (forall h :: h in m && (h !in n || InBatch(c, h)) ==> InBatch(b, h) || RefsStored(m[h], WriteAll(t, c))) &&
    Wrote(WriteAll(s, b), WriteAll(t, c), m) &&
    (Complete(WriteAll(s, b)) ==> Complete(WriteAll(t, c)))
  }

  lemma ProgressNone(s: map<Hash, seq<Hash>>, m: Dirties, b: seq<Write>)
    ensures Progress(s, m, b, s, m, b)
  {
    hide WriteAll, Complete, RefsOf, InBatch;
  }

  lemma ProgressTrans(s: map<Hash, seq<Hash>>, m: Dirties, b: seq<Write>, t: map<Hash, seq<Hash>>, n: Dirties,
                      c: seq<Write>,
                      u: map<Hash, seq<Hash>>, k: Dirties, d: seq<Write>)
    requires Progress(s, m, b, t, n, c) && Progress(t, n, c, u, k, d)
    ensures Progress(s, m, b, u, k, d)
  {
    hide WriteAll, Complete, InBatch;
    forall h | h in m && (h !in k || InBatch(d, h)) ensures InBatch(b, h) || RefsStored(m[h], WriteAll(u, d)) {
      if h in n {
        assert RefsOf(n[h]) == RefsOf(m[h]);
      }
    }
  }

  lemma WriteEmpty(s: map<Hash, seq<Hash>>)
    ensures WriteAll(s, []) == s
  {
  }

  lemma {:induction false} WriteKeys(s: map<Hash, seq<Hash>>, b: seq<Write>)
    ensures forall h :: h in WriteAll(s, b) <==> h in s || InBatch(b, h)
  {
    if b != [] {
      var n := |b| - 1;
      WriteKeys(s, b[..n]);
      forall h ensures InBatch(b, h) <==> InBatch(b[..n], h) || h == b[n].hash {
        BatchNext(b, n);
        assert b[..n + 1] == b;
      }
    }
  }

  lemma BatchNext(b: seq<Write>, i: nat)
    requires i < |b|
    ensures forall h :: InBatch(b[..i + 1], h) <==> InBatch(b[..i], h) || h == b[i].hash
    ensures InBatch(b, b[i].hash)
  {
    forall h ensures InBatch(b[..i + 1], h) <==> InBatch(b[..i], h) || h == b[i].hash {
      if InBatch(b[..i], h) {
        var j :| 0 <= j < i && b[..i][j].hash == h;
        assert b[..i + 1][j].hash == h;
      }
      if h == b[i].hash {
        assert b[..i + 1][i].hash == h;
      }
      if InBatch(b[..i + 1], h) && h != b[i].hash {
        var j :| 0 <= j < i + 1 && b[..i + 1][j].hash == h;
        assert b[..i][j].hash == h;
      }
    }
  }

  /** What was cached, on disk or in the batch still is one of these. */
  lemma StillThere(s: map<Hash, seq<Hash>>, m: Dirties, b: seq<Write>, t: map<Hash, seq<Hash>>, n: Dirties,
                   c: seq<Write>, hs: set<Hash>)
    requires Progress(s, m, b, t, n, c) && forall h :: h in hs ==> h in m || h in WriteAll(s, b)
    ensures forall h :: h in hs ==> h in n || h in WriteAll(t, c)
  {
    WriteKeys(t, c);
    hide WriteAll, Complete, Wrote, RefsStored, SameNode;
  }

  lemma Kept(s: map<Hash, seq<Hash>>, m: Dirties, b: seq<Write>, t: map<Hash, seq<Hash>>, n: Dirties, c: seq<Write>,
             hs: set<Hash>)
    requires Progress(s, m, b, t, n, c)
    ensures forall h :: h in hs && h in WriteAll(s, b) ==> h in WriteAll(t, c)
  {
    hide WriteAll, Complete;
  }

  lemma RefsThere(live: Dirties, store: map<Hash, seq<Hash>>, batch: seq<Write>, rank: Hash -> nat, c: Hash)
    requires Sane(live, store.Keys, multiset{}, rank) && c in live
    ensures forall h :: h in live[c].kids || h in live[c].children ==> h in live || h in WriteAll(store, batch)
  {
    hide Refs, Counted, Ordered;
    WriteKeys(store, batch);
    forall h | h in live[c].kids || h in live[c].children ensures h in live || h in store {
      assert h in RefsOf(live[c]);
    }
  }

  /** Writing a node whose references are there. */
  lemma WriteNode(s: map<Hash, seq<Hash>>, m: Dirties, b: seq<Write>, t: map<Hash, seq<Hash>>, n: Dirties,
                  c: seq<Write>, hash: Hash)
    requires Progress(s, m, b, t, n, c) && hash in m && RefsStored(m[hash], WriteAll(t, c))
    ensures Progress(s, m, b, t, n, c + [Write(hash, m[hash].kids)])
    ensures hash in WriteAll(t, c + [Write(hash, m[hash].kids)]) && InBatch(c + [Write(hash, m[hash].kids)], hash)
  {
    var d := c + [Write(hash, m[hash].kids)];
    OneWrite(t, c, hash, m[hash].kids);
    hide WriteAll, InBatch;
    StoreMore(WriteAll(t, c), WriteAll(t, d), m, hash);
    ProgressMore(s, m, b, t, n, c, d, hash);
  }

  lemma OneWrite(t: map<Hash, seq<Hash>>, c: seq<Write>, hash: Hash, kids: seq<Hash>)
    ensures var d := c + [Write(hash, kids)];
            WriteAll(t, d) == WriteAll(t, c)[hash := kids] && InBatch(d, hash) &&
            forall h :: InBatch(d, h) ==> InBatch(c, h) || h == hash
  {
    var d := c + [Write(hash, kids)];
    assert d[..|c|] == c && d[..|d|] == d;
    BatchNext(d, |c|);
  }

  lemma StoreMore(x: map<Hash, seq<Hash>>, y: map<Hash, seq<Hash>>, m: Dirties, hash: Hash)
    requires hash in m && RefsStored(m[hash], x) && y == x[hash := m[hash].kids]
    ensures (Complete(x) ==> Complete(y)) && Wrote(x, y, m) && RefsStored(m[hash], y)
  {
    assert forall k :: k in m[hash].kids ==> k in RefsOf(m[hash]);
    hide RefsOf;
  }

  lemma ProgressMore(s: map<Hash, seq<Hash>>, m: Dirties, b: seq<Write>, t: map<Hash, seq<Hash>>, n: Dirties,
                     c: seq<Write>,
                     d: seq<Write>, hash: Hash)
    requires Progress(s, m, b, t, n, c) && hash in m && RefsStored(m[hash], WriteAll(t, d))
    requires WriteAll(t, c).Keys <= WriteAll(t, d).Keys && Wrote(WriteAll(t, c), WriteAll(t, d), m)
    requires Complete(WriteAll(t, c)) ==> Complete(WriteAll(t, d))
    requires forall h :: InBatch(d, h) ==> InBatch(c, h) || h == hash
    ensures Progress(s, m, b, t, n, d)
  {
    hide WriteAll, InBatch, SameNode, RefsOf, Complete;
    WroteMore(WriteAll(s, b), WriteAll(t, c), WriteAll(t, d), m);
    hide Wrote;
  }

  lemma WroteMore(s: map<Hash, seq<Hash>>, t: map<Hash, seq<Hash>>, u: map<Hash, seq<Hash>>, m: Dirties)
    requires Wrote(s, t, m) && Wrote(t, u, m)
    ensures Wrote(s, u, m)
  {
  }

  lemma FlushProgress(s: map<Hash, seq<Hash>>, m: Dirties, b: seq<Write>, t: map<Hash, seq<Hash>>, n: Dirties)
    requires t == WriteAll(s, b) && forall h :: h in n <==> h in m && !InBatch(b, h)
    requires forall h :: h in n ==> SameNode(m[h], n[h])
    ensures Progress(s, m, b, t, n, [])
  {
    WriteKeys(s, b);
    WriteEmpty(t);
    hide WriteAll, Complete, SameNode, RefsStored;
  }

  /** The invariants hold with a larger disk. */
  lemma StoreKept(m: Dirties, s: map<Hash, seq<Hash>>, t: map<Hash, seq<Hash>>, oldest: Hash, newest: Hash,
                  order: seq<Hash>, rank: Hash -> nat)
    requires Sane(m, s.Keys, multiset{}, rank) && Chrono(m, order, s.Keys) && s.Keys <= t.Keys
    ensures Sane(m, t.Keys, multiset{}, rank) && Chrono(m, order, t.Keys)
  {
    hide Sane, Chrono;
    DiskSane(m, s.Keys, t.Keys, multiset{}, rank);
    assert s.Keys + t.Keys == t.Keys;
    ChronoDisk(m, order, s.Keys, t.Keys);
  }

  /** The nodes listed in `gone` left, and no others; nothing but links changed. */
  ghost predicate Remains(m: Dirties, was: Dirties, gone: seq<Hash>) {
    (forall h :: h in m <==> h in was && h !in gone) && forall h :: h in m ==> SameNode(was[h], m[h])
  }

  lemma RemainsLess(m: Dirties, was: Dirties, all: seq<Hash>, j: nat)
    requires j < |all| && Remains(m, was, all[..j])
    ensures Remains(m - {all[j]}, was, all[..j + 1])
  {
    assert all[..j + 1] == all[..j] + [all[j]];
  }

  lemma RemainsSame(m: Dirties, was: Dirties, gone: seq<Hash>, h: Hash)
    requires Remains(m, was, gone) && h in m
    ensures Remains(SetPrev(m, h, ZERO), was, gone)
  {
  }

  /** After flushing, the invariants hold with the larger disk, and the disk stays complete. */
  lemma FlushedKept(m: Dirties, order: seq<Hash>, store: map<Hash, seq<Hash>>, oldest: Hash, newest: Hash,
                    rank: Hash -> nat, n: nat)
    requires FlushList(m, oldest, newest, order) && Sane(m, store.Keys, multiset{}, rank) &&
             Chrono(m, order, store.Keys)
    requires n <= |order|
    ensures var r := WriteAll(store, Writes(m, order[..n]));
            Sane(m, r.Keys, multiset{}, rank) && Chrono(m, order, r.Keys) &&
            (forall h :: h in order[..n] ==> h in r) && (Complete(store) ==> Complete(r))
  {
    hide FlushList, Sane, Chrono;
    var r := WriteAll(store, Writes(m, order[..n]));
    PrefixKeys(m, order, store, n);
    var more := set h | h in order[..n];
    assert r.Keys == store.Keys + more;
    DiskSane(m, store.Keys, more, multiset{}, rank);
    ChronoDisk(m, order, store.Keys, r.Keys);
    if Complete(store) {
      PrefixComplete(m, order, store, n);
    }
  }

  lemma {:induction false} PrefixKeys(m: Dirties, order: seq<Hash>, store: map<Hash, seq<Hash>>, n: nat)
    requires n <= |order|
    ensures WriteAll(store, Writes(m, order[..n])).Keys == store.Keys + set h | h in order[..n]
  {
    if n > 0 {
      PrefixKeys(m, order, store, n - 1);
      assert Writes(m, order[..n])[..n - 1] == Writes(m, order[..n - 1]);
      assert order[..n] == order[..n - 1] + [order[n - 1]];
    }
  }

  /** Whatever number of the oldest nodes is on disk, the disk is complete: children are older than parents. */
  lemma {:induction false} PrefixComplete(m: Dirties, order: seq<Hash>, store: map<Hash, seq<Hash>>, n: nat)
    requires n <= |order| && Chrono(m, order, store.Keys) && Complete(store)
    ensures Complete(WriteAll(store, Writes(m, order[..n])))
  {
    if n == 0 {
      assert Writes(m, order[..0]) == [];
    } else {
      PrefixComplete(m, order, store, n - 1);
      PrefixKeys(m, order, store, n - 1);
      assert Writes(m, order[..n])[..n - 1] == Writes(m, order[..n - 1]);
      assert Earlier(m, order, store.Keys, n - 1);
    }
  }

  lemma BatchComplete(m: Dirties, order: seq<Hash>, store: map<Hash, seq<Hash>>, n: nat)
    requires n <= |order| && Chrono(m, order, store.Keys)
    ensures Complete(store) ==> Complete(WriteAll(store, Writes(m, order[..n])))
  {
    hide Chrono, Complete;
    if Complete(store) {
      PrefixComplete(m, order, store, n);
    }
  }

  lemma WriteNone(store: map<Hash, seq<Hash>>, m: Dirties, order: seq<Hash>)
    ensures WriteAll(store, []) == store && WriteAll(store, Writes(m, order[..0])) == store
  {
    assert Writes(m, order[..0]) == [];
  }

  lemma ChronoDisk(m: Dirties, order: seq<Hash>, disk: set<Hash>, more: set<Hash>)
    requires Chrono(m, order, disk) && disk <= more
    ensures Chrono(m, order, more)
  {
    forall i | 0 <= i < |order| ensures Earlier(m, order, more, i) {
      assert Earlier(m, order, disk, i);
    }
  }

  lemma HeadOf(m: Dirties, oldest: Hash, newest: Hash, order: seq<Hash>, all: seq<Hash>, j: nat, n: nat, cur: Hash)
    requires FlushList(m, oldest, newest, order) && j <= n <= |all| && order == all[j..]
    requires cur == (if n < |all| then all[n] else ZERO) && oldest != cur
    ensures j < n && order != [] && order[0] == oldest == all[j] && oldest in m && oldest in all[..n] && oldest != ZERO
  {
    if order != [] {
      assert order[0] in order;
      assert j < n ==> all[..n][j] == all[j];
    }
  }

  lemma AllDropped(m: Dirties, oldest: Hash, newest: Hash, order: seq<Hash>, all: seq<Hash>, j: nat, n: nat, cur: Hash)
    requires FlushList(m, oldest, newest, order) && j <= n <= |all| && order == all[j..] && Distinct(all)
    requires cur == (if n < |all| then all[n] else ZERO) && oldest == cur
    ensures j == n
  {
    if j < |all| {
      assert order[0] == all[j] && order[0] in order;
    }
  }

  lemma DropHeadAll(m: Dirties, oldest: Hash, newest: Hash, order: seq<Hash>, disk: set<Hash>, rank: Hash -> nat)
    requires FlushList(m, oldest, newest, order) && Sane(m, disk, multiset{}, rank) && Chrono(m, order, disk)
    requires order != [] && order[0] == oldest && oldest in m && oldest in disk && oldest != ZERO
    ensures FlushList(m - {oldest}, m[oldest].flushNext, newest, order[1..])
    ensures Sane(m - {oldest}, disk, multiset{}, rank) && Chrono(m - {oldest}, order[1..], disk)
  {
    hide Linked, Counted, Ordered, Chrono;
    DropHead(m, Ends(oldest, newest), order);
    UncacheSane(m, disk, multiset{}, rank, oldest);
    assert Without(order, 0) == order[1..];
    ChronoWithout(m, m - {oldest}, order, disk, 0);
  }

  lemma HeadPrev(m: Dirties, oldest: Hash, newest: Hash, order: seq<Hash>, disk: set<Hash>, rank: Hash -> nat)
    requires FlushList(m, oldest, newest, order) && Sane(m, disk, multiset{}, rank) && Chrono(m, order, disk) &&
             oldest != ZERO
    ensures oldest in m
    ensures var n := SetPrev(m, oldest, ZERO);
            FlushList(n, oldest, newest, order) && Sane(n, disk, multiset{}, rank) && Chrono(n, order, disk)
  {
    hide Sane, Chrono;
    assert order[0] in order;
    var n := SetPrev(m, oldest, ZERO);
    HeadPrevLinks(m, oldest, newest, order);
    hide FlushList, SameContent, SetPrev;
    SetPrevContent(m, oldest, ZERO);
    ContentSane(m, n, disk, multiset{}, rank);
    ContentChrono(m, n, order, disk);
  }

  lemma HeadPrevLinks(m: Dirties, oldest: Hash, newest: Hash, order: seq<Hash>)
    requires FlushList(m, oldest, newest, order) && oldest != ZERO && oldest in m
    ensures FlushList(SetPrev(m, oldest, ZERO), oldest, newest, order)
  {
    var n := SetPrev(m, oldest, ZERO);
    forall i | 0 <= i < |order| ensures Linked(n, order, i) {
      assert Linked(m, order, i);
    }
    hide Linked;
    assert n.Keys == m.Keys;
  }

  // ---------- writing to disk ----------

  /** What a cached node is taken to occupy: itself, its bookkeeping, and its table of references from outside. */
  function Cost(e: Entry, overhead: nat): (n: nat) {
    32 + e.size + overhead + if e.children == multiset{} then 0 else 48 + |e.children| * 34
  }

  function Spent(m: Dirties, hs: seq<Hash>, overhead: nat): (n: nat) {
    if hs == [] then 0
    else
      var h := hs[|hs| - 1];
      Spent(m, hs[..|hs| - 1], overhead) + if h in m then Cost(m[h], overhead) else 0
  }

  /** The `n` oldest nodes bring the size within the limit, or are all there are; fewer would not. */
  ghost predicate JustEnough(m: Dirties, order: seq<Hash>, n: nat, size: int, limit: int, overhead: nat)
    requires n <= |order|
  {
    (n == |order| || size - Spent(m, order[..n], overhead) <= limit) &&
    forall j :: 0 <= j < n ==> size - Spent(m, order[..j], overhead) > limit
  }

  lemma SpentNone(m: Dirties, order: seq<Hash>, overhead: nat)
    ensures Spent(m, order[..0], overhead) == 0
  {
  }

  lemma SpentNext(m: Dirties, order: seq<Hash>, n: nat, overhead: nat)
    requires n < |order| && order[n] in m
    ensures Spent(m, order[..n + 1], overhead) == Spent(m, order[..n], overhead) + Cost(m[order[n]], overhead)
  {
    assert order[..n + 1][..n] == order[..n];
  }

  datatype Write = Write(hash: Hash, kids: seq<Hash>)

  function WriteAll(store: map<Hash, seq<Hash>>, ws: seq<Write>): (r: map<Hash, seq<Hash>>) {
    if ws == [] then store else WriteAll(store, ws[..|ws| - 1])[ws[|ws| - 1].hash := ws[|ws| - 1].kids]
  }

  function Writes(m: Dirties, hs: seq<Hash>): (ws: seq<Write>) {
    seq(|hs|, i requires 0 <= i < |hs| => Write(hs[i], if hs[i] in m then m[hs[i]].kids else []))
  }

  /** No node on disk lacks a child on disk. */
  ghost predicate Complete(store: map<Hash, seq<Hash>>) {
    forall h, k :: h in store && k in store[h] ==> k in store
  }

  lemma FlushAt(m: Dirties, oldest: Hash, newest: Hash, order: seq<Hash>, n: nat)
    requires FlushList(m, oldest, newest, order) && n <= |order|
    ensures n < |order| ==> order[n] in m && order[n] != ZERO && m[order[n]].flushNext == NextOf(order, n)
    ensures oldest == if order == [] then ZERO else order[0]
  {
    if n < |order| {
      assert Linked(m, order, n) && order[n] in order;
    }
  }

  lemma WriteNext(store: map<Hash, seq<Hash>>, batch: seq<Write>, start: map<Hash, seq<Hash>>, m: Dirties,
                  all: seq<Hash>, n: nat)
    requires n < |all| && all[n] in m && WriteAll(store, batch) == WriteAll(start, Writes(m, all[..n]))
    ensures WriteAll(store, batch + [Write(all[n], m[all[n]].kids)]) == WriteAll(start, Writes(m, all[..n + 1]))
  {
    var w := Write(all[n], m[all[n]].kids);
    assert (batch + [w])[..|batch|] == batch;
    assert Writes(m, all[..n + 1])[..n] == Writes(m, all[..n]);
  }

  lemma {:induction false} IndexOf(live: Dirties, ends: Ends, order: seq<Hash>, h: Hash) returns (i: nat)
    requires FlushList(live, ends.oldest, ends.newest, order) && h in live && h != ZERO
    ensures i < |order| && order[i] == h
  {
    assert h in order;
    i :| 0 <= i < |order| && order[i] == h;
  }

  /** Unlinking in the whole table is unlinking among the live nodes. */
  lemma UnlinkDirties(m: Dirties, doomed: set<Hash>, ends: Ends, h: Hash)
    requires h in m && h !in doomed
    requires var live := m - doomed;
             live[h].flushNext in live && (h != ends.oldest ==> live[h].flushPrev in live)
    ensures m[h].flushNext in m && (h != ends.oldest ==> m[h].flushPrev in m)
    ensures Unlinked(m, ends, h).0 - doomed == Unlinked(m - doomed, ends, h).0
    ensures Unlinked(m, ends, h).1 == Unlinked(m - doomed, ends, h).1
    ensures Unlinked(m, ends, h).0.Keys == m.Keys
  {
  }

  lemma UnlinkSane(live: Dirties, ends: Ends, order: seq<Hash>, i: nat, disk: set<Hash>, pending: multiset<Hash>,
                   rank: Hash -> nat)
    requires i < |order| && order[i] in live && live[order[i]].flushNext in live
    requires order[i] != ends.oldest ==> live[order[i]].flushPrev in live
    requires Sane(live - {order[i]}, disk, pending, rank)
    ensures Sane(Unlinked(live, ends, order[i]).0 - {order[i]}, disk, pending, rank)
  {
    hide Sane;
    hide Unlinked, SameContent;
    UnlinkedContent(live, ends, order[i]);
    ContentWithout(live, Unlinked(live, ends, order[i]).0, order[i]);
    ContentSane(live - {order[i]}, Unlinked(live, ends, order[i]).0 - {order[i]}, disk, pending, rank);
  }

  lemma UnlinkChrono(live: Dirties, ends: Ends, order: seq<Hash>, i: nat, disk: set<Hash>, pending: multiset<Hash>,
                     rank: Hash -> nat)
    requires FlushList(live, ends.oldest, ends.newest, order) && Chrono(live, order, disk)
    requires i < |order| && order[i] in live && live[order[i]].flushNext in live
    requires order[i] != ends.oldest ==> live[order[i]].flushPrev in live
    requires Sane(Unlinked(live, ends, order[i]).0 - {order[i]}, disk, pending, rank)
    ensures Chrono(Unlinked(live, ends, order[i]).0 - {order[i]}, Without(order, i), disk)
  {
    UnlinkedContent(live, ends, order[i]);
    hide Unlinked, Chrono, Counted, Available, Ordered, Linked;
    ChronoWithout(live, Unlinked(live, ends, order[i]).0 - {order[i]}, order, disk, i);
  }

  lemma InsertChrono(live: Dirties, ends: Ends, order: seq<Hash>, disk: set<Hash>, rank: Hash -> nat,
                     counted: Dirties, hash: Hash, e: Entry)
    requires FlushList(live, ends.oldest, ends.newest, order) && Chrono(live, order, disk)
    requires Insertable(live, disk, rank, hash, e.kids) && hash !in live && counted == CountUp(live, e.kids)
    requires ends.oldest != ZERO ==> ends.newest in counted
    ensures Chrono(Appended(counted, ends, hash, e).0, order + [hash], disk)
  {
    var n := Appended(counted, ends, hash, e).0;
    AppendedKids(live, ends, counted, hash, e);
    assert forall k :: k in e.kids ==> k in disk || k in order;
    hide Chrono, CountUp, Linked, Appended, FlushList;
    ChronoAppend(live, n, order, disk, hash);
  }

  lemma AppendedKids(live: Dirties, ends: Ends, counted: Dirties, hash: Hash, e: Entry)
    requires hash !in live && counted == CountUp(live, e.kids) && (ends.oldest != ZERO ==> ends.newest in counted)
    ensures var n := Appended(counted, ends, hash, e).0;
            hash in n && n[hash].kids == e.kids && forall x :: x in live ==> x in n && n[x].kids == live[x].kids
  {
    hide CountUp;
    CountUpShape(live, e.kids);
  }

  lemma DropRoot(live: Dirties, disk: set<Hash>, rank: Hash -> nat, root: Hash, oldest: Hash, newest: Hash,
                 order: seq<Hash>)
    requires Sane(live, disk, multiset{}, rank) && FlushList(live, oldest, newest, order)
    requires ZERO in live && root in live[ZERO].children
    ensures Sane(WithoutRoot(live, root), disk, multiset{} + multiset{root}, rank)
    ensures FlushList(WithoutRoot(live, root), oldest, newest, order)
  {
    hide FlushList, Sane, Chrono;
    DropRootSane(live, disk, rank, root);
    FlushListSame(live, WithoutRoot(live, root), oldest, newest, order);
    assert multiset{} + multiset{root} == multiset{root};
  }

  lemma CountDownAll(live: Dirties, disk: set<Hash>, pending: multiset<Hash>, rank: Hash -> nat, was: Dirties, c: Hash,
                     oldest: Hash, newest: Hash, order: seq<Hash>)
    requires Sane(live, disk, pending + multiset{c}, rank) && FlushList(live, oldest, newest, order) &&
             c in live && c != ZERO
    requires Exact(live, disk, pending + multiset{c}, was)
    ensures Sane(CountDown(live, c), disk, pending, rank) && FlushList(CountDown(live, c), oldest, newest, order)
    ensures Exact(CountDown(live, c), disk, pending, was)
  {
    assert Counted(live, disk, pending + multiset{c});
    hide FlushList, Sane, Chrono, Exact, Counted;
    ExactCountDown(live, disk, pending, was, c);
    CountDownSane(live, disk, pending, rank, c);
    FlushListSame(live, CountDown(live, c), oldest, newest, order);
  }

  ghost function SetOf(s: seq<Hash>): (r: set<Hash>) {
    set h | h in s
  }

  ghost function Elements(m: multiset<Hash>): (r: set<Hash>) {
    set h | h in m
  }

  lemma DoneMore(rest: multiset<Hash>, all: set<Hash>, todo: set<Hash>, h: Hash)
    requires todo == Elements(rest) && Single(rest) && h in todo && todo <= all
    ensures todo - {h} == Elements(rest - multiset{h}) && Single(rest - multiset{h})
    ensures all - todo + {h} == all - (todo - {h})
  {
    forall x ensures (rest - multiset{h})[x] == (if x == h then 0 else rest[x]) {
    }
  }

  lemma ShedSelf(m: Dirties, tops: set<Hash>)
    ensures Shed(m, m, tops)
  {
  }

  lemma NoSuchRoot(live: Dirties, root: Hash)
    requires ZERO in live && root !in live[ZERO].children
    ensures WithoutRoot(live, root) == live
  {
    assert live[ZERO].children - multiset{root} == live[ZERO].children;
  }

  // ---------- tables and multisets ----------

  lemma MinusNone(m: Dirties)
    ensures m - {} == m
  {
  }

  lemma UpdateMinus(m: Dirties, s: set<Hash>, h: Hash, e: Entry)
    requires h !in s
    ensures m[h := e] - s == (m - s)[h := e]
  {
  }

  lemma UpdateDoomed(m: Dirties, s: set<Hash>, h: Hash, e: Entry)
    requires h in s
    ensures m[h := e] - s == m - s
  {
  }

  lemma MinusBoth(m: Dirties, s: set<Hash>, h: Hash)
    ensures m - (s + {h}) == m - s - {h} && m - (s + {h}) == m - {h} - s
  {
  }

  lemma NextKid(pending: multiset<Hash>, kids: seq<Hash>, i: nat)
    requires i < |kids|
    ensures pending + multiset(kids[i..]) == pending + multiset(kids[i + 1..]) + multiset{kids[i]}
  {
    assert kids[i..] == [kids[i]] + kids[i + 1..];
  }

  lemma NoRest(pending: multiset<Hash>, rest: multiset<Hash>)
    ensures rest == multiset{} ==> pending + rest == pending
    ensures (forall h :: h !in rest) ==> pending + rest == pending
  {
  }

  lemma MetaThere(live: Dirties, disk: set<Hash>, pending: multiset<Hash>, rank: Hash -> nat)
    requires Sane(live, disk, pending, rank)
    ensures ZERO in live
  {
  }

  /** A reference to a node outside the cache may be called pending. */
  lemma NothingPending(live: Dirties, disk: set<Hash>, rank: Hash -> nat, root: Hash)
    requires Sane(live, disk, multiset{}, rank) && root !in live
    ensures Sane(live, disk, multiset{} + multiset{root}, rank)
  {
    hide Refs, RefsOf;
  }

  lemma RefsBelow(live: Dirties, disk: set<Hash>, pending: multiset<Hash>, rank: Hash -> nat, c: Hash)
    requires Sane(live, disk, pending, rank) && c in live && c != ZERO
    ensures Single(live[c].children)
    ensures forall h :: h in live[c].children || h in live[c].kids ==> h != ZERO && rank(h) < rank(c)
  {
    hide Refs;
    forall h | h in live[c].children || h in live[c].kids ensures h != ZERO && rank(h) < rank(c) {
      assert h in RefsOf(live[c]);
      assert Down(rank, c, h);
    }
  }

  lemma OneLess(front: multiset<Hash>, rest: multiset<Hash>, h: Hash)
    requires h in rest
    ensures front + rest == front + (rest - multiset{h}) + multiset{h}
  {
  }

  lemma EmptySane(m: Dirties, disk: set<Hash>, rank: Hash -> nat)
    requires m == map[ZERO := Entry([], 0, 0, multiset{}, ZERO, ZERO)]
    ensures Sane(m, disk, multiset{}, rank) && FlushList(m, ZERO, ZERO, []) && Chrono(m, [], disk)
  {
  }

  lemma CountUpShape(m: Dirties, kids: seq<Hash>)
    ensures Raised(m, CountUp(m, kids), multiset(kids)) && SameLinks(m, CountUp(m, kids))
  {
    hide CountUp;
    forall h | h in m ensures CountUp(m, kids)[h] == m[h].(parents := m[h].parents + multiset(kids)[h]) {
      CountUpAt(m, kids, h);
    }
  }

  lemma InsertLinks(live: Dirties, ends: Ends, order: seq<Hash>, counted: Dirties, hash: Hash, e: Entry)
    requires FlushList(live, ends.oldest, ends.newest, order) && counted == CountUp(live, e.kids)
    requires hash !in live && hash != ZERO && e.flushPrev == ends.newest && e.flushNext == ZERO
    ensures ends.oldest != ZERO ==> ends.newest in counted
    ensures var (m, f) := Appended(counted, ends, hash, e); FlushList(m, f.oldest, f.newest, order + [hash])
  {
    hide FlushList, CountUp;
    CountUpShape(live, e.kids);
    FlushListSame(live, counted, ends.oldest, ends.newest, order);
    AppendOk(counted, ends, order, hash, e);
  }

  lemma InsertRaised(live: Dirties, ends: Ends, counted: Dirties, hash: Hash, e: Entry)
    requires hash !in live && counted == CountUp(live, e.kids) && (ends.oldest != ZERO ==> ends.newest in counted)
    ensures var n := Appended(counted, ends, hash, e).0;
            hash in n && SameNode(n[hash], e) && Raised(live, n - {hash}, multiset(e.kids))
  {
    hide CountUp;
    AppendedContent(counted, ends, hash, e);
    hide Appended, SameContent, SameLinks, Raised;
    CountUpShape(live, e.kids);
    RaisedContent(live, counted, Appended(counted, ends, hash, e).0 - {hash}, multiset(e.kids));
  }

  lemma AppendedContent(m: Dirties, ends: Ends, h: Hash, e: Entry)
    requires h !in m && (ends.oldest != ZERO ==> ends.newest in m)
    ensures var n := Appended(m, ends, h, e).0;
            h in n && SameNode(n[h], e) && SameContent(m, n - {h})
  {
  }

  lemma RaisedContent(m: Dirties, n: Dirties, k: Dirties, extra: multiset<Hash>)
    requires Raised(m, n, extra) && SameContent(n, k)
    ensures Raised(m, k, extra)
  {
  }

  lemma InsertValid(live: Dirties, ends: Ends, order: seq<Hash>, disk: set<Hash>, rank: Hash -> nat,
                    counted: Dirties, hash: Hash, e: Entry)
    requires Sane(live, disk, multiset{}, rank) && Insertable(live, disk, rank, hash, e.kids) && hash !in live
    requires counted == CountUp(live, e.kids) && e.parents == 0 && e.children == multiset{}
    requires ends.oldest != ZERO ==> ends.newest in counted
    ensures Sane(Appended(counted, ends, hash, e).0, disk, multiset{}, rank)
  {
    hide Sane, CountUp;
    CountUpShape(live, e.kids);
    InsertSane(live, disk, rank, hash, e, counted);
    var m := counted[hash := e];
    var n := Appended(counted, ends, hash, e).0;
    assert Raised(m, n, multiset{});
    SaneSame(m, n, disk, multiset{}, rank);
  }
}
