/**
  The download scheduler of trie/sync.go: its tables and what must hold of them.

  A request names the requests that wait for it (`parents`) and counts the
  requests it waits for (`deps`). What a node needs is recorded in the ghost
  table `wants`: its child hashes, and the sub-tries and codes its leaves ask
  for.
 */
module SyncState {
  import opened Bytes

  datatype Request = Request(data: Option<Bytes>, parents: seq<Hash>, deps: int)

  type Requests = map<Hash, Request>

  datatype Want = Want(nodes: set<Hash>, codes: set<Hash>)

  /** What a leaf asks for. */
  datatype Call = SubTrie(root: Hash) | Code(hash: Hash)

  /** The children of a decoded node: values with what their callback asks for, references, embedded nodes. */
  datatype Item = Value(calls: seq<Call>) | Ref(hash: Hash) | Embedded

  /** How stored nodes are read: their children, and the hashes that stand for nothing. */
  datatype Format = Format(decode: Bytes -> Option<seq<Item>>, emptyRoot: Hash, emptyCode: Hash)

  /** The want holds what the call asks for. */
  predicate CallNoted(f: Format, w: Want, call: Call) {
    match call
    case SubTrie(root) => root == f.emptyRoot || root in w.nodes
    case Code(hash) => hash == f.emptyCode || hash in w.codes
  }

  /** The want, or the list of nodes still to be requested, holds what the item refers to. */
  predicate ItemNoted(f: Format, w: Want, requests: seq<Hash>, item: Item) {
    match item
    case Value(calls) => forall i :: 0 <= i < |calls| ==> CallNoted(f, w, calls[i])
    case Ref(hash) => hash in w.nodes || hash in requests
    case Embedded => true
  }

  // ---------- occurrences in parent lists ----------

  ghost function Parents(m: Requests): (r: multiset<Hash>)
    decreases m.Keys
  {
    if m == map[] then multiset{}
    else
      var h :| h in m;
      multiset(m[h].parents) + Parents(m - {h})
  }

  lemma {:induction false} ParentsRemove(m: Requests, h: Hash)
    requires h in m
    ensures Parents(m) == multiset(m[h].parents) + Parents(m - {h})
    decreases m.Keys
  {
    var j :| j in m && Parents(m) == multiset(m[j].parents) + Parents(m - {j});
    if j != h {
      ParentsRemove(m - {j}, h);
      ParentsRemove(m - {h}, j);
      assert m - {j} - {h} == m - {h} - {j};
    }
  }

  lemma ParentsNew(m: Requests, h: Hash, r: Request)
    requires h !in m
    ensures Parents(m[h := r]) == Parents(m) + multiset(r.parents)
  {
    ParentsRemove(m[h := r], h);
    assert m[h := r] - {h} == m;
  }

  lemma ParentsSame(m: Requests, h: Hash, r: Request)
    requires h in m && r.parents == m[h].parents
    ensures Parents(m[h := r]) == Parents(m)
  {
    ParentsRemove(m, h);
    ParentsRemove(m[h := r], h);
    assert m[h := r] - {h} == m - {h};
  }

  lemma ParentsMore(m: Requests, h: Hash, r: Request, more: seq<Hash>)
    requires h in m && r.parents == m[h].parents + more
    ensures Parents(m[h := r]) == Parents(m) + multiset(more)
  {
    ParentsRemove(m, h);
    ParentsRemove(m[h := r], h);
    assert m[h := r] - {h} == m - {h};
    assert multiset(r.parents) == multiset(m[h].parents) + multiset(more);
  }

  lemma {:induction false} ParentsMember(m: Requests, h: Hash)
    requires h in m
    ensures multiset(m[h].parents) <= Parents(m)
  {
    ParentsRemove(m, h);
  }

  // ---------- the invariants ----------

  /** All occurrences in parent lists of pending requests, plus those being counted down. */
  ghost function Occurrences(nodes: Requests, codes: Requests, pending: multiset<Hash>): (m: multiset<Hash>) {
    Parents(nodes) + Parents(codes) + pending
  }

  /** A request's counter is the number of its occurrences, and only requests whose data arrived occur. */
  ghost predicate Counted(nodes: Requests, codes: Requests, pending: multiset<Hash>) {
    CountedBy(nodes, Occurrences(nodes, codes, pending))
  }

  ghost predicate CountedBy(nodes: Requests, occurrences: multiset<Hash>) {
    (forall h :: h in nodes ==> nodes[h].deps == occurrences[h]) &&
    forall h :: h in occurrences ==> h in nodes && nodes[h].data.Some?
  }

  /** What a request still lacks is pending, with this request among those that wait for it. */
  ghost predicate Waiting(nodes: Requests, codes: Requests, wants: map<Hash, Want>, stored: set<Hash>,
                          storedCodes: set<Hash>) {
    forall h :: h in nodes && nodes[h].data.Some? ==> h in wants && WaitsFor(nodes, codes, wants[h], stored, storedCodes, h)
  }

  ghost predicate WaitsFor(nodes: Requests, codes: Requests, want: Want, stored: set<Hash>, storedCodes: set<Hash>,
                           h: Hash) {
    (forall k :: k in want.nodes ==> k in stored || (k in nodes && h in nodes[k].parents)) &&
    (forall k :: k in want.codes ==> k in storedCodes || (k in codes && h in codes[k].parents))
  }

  /** Whatever a stored node needs is stored. */
  ghost predicate Closed(wants: map<Hash, Want>, stored: set<Hash>, storedCodes: set<Hash>) {
    forall h :: h in stored ==> h in wants && wants[h].nodes <= stored && wants[h].codes <= storedCodes
  }
}
