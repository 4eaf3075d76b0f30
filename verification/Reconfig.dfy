/**
  Committee reconfiguration (node/reconfig.go): every node re-assigns all nodes
  to committees from the same results, ordered by their VRF values. Go ranges
  over maps in no fixed order, so what the nodes agree on must not depend on it.
 */
module Reconfig {
  import opened Bytes

  datatype NodeInfo = NodeInfo(shard: nat, com: nat, id: nat, addr: Bytes)

  datatype Outcome = Outcome(newCom: nat, vrf: Bytes, old_: NodeInfo)

  // ---------- byte order ----------

  /** `bytes.Compare(a, b) < 0`. */
  predicate Less(a: Bytes, b: Bytes)
    decreases a
  {
    if b == [] then false
    else if a == [] then true
    else a[0] < b[0] || (a[0] == b[0] && Less(a[1..], b[1..]))
  }

  /** The first difference decides, and a proper prefix comes first. */
  lemma {:induction false} LessMeaning(a: Bytes, b: Bytes)
    ensures Less(a, b) <==>
            a < b || exists d :: 0 <= d < |a| && d < |b| && a[..d] == b[..d] && a[d] < b[d]
    decreases a
  {
    if a != [] && b != [] && a[0] == b[0] {
      LessMeaning(a[1..], b[1..]);
      assert a == [a[0]] + a[1..] && b == [b[0]] + b[1..];
      assert a < b <==> a[1..] < b[1..];
      if d :| 0 <= d < |a[1..]| && d < |b[1..]| && a[1..][..d] == b[1..][..d] && a[1..][d] < b[1..][d] {
        assert a[..d + 1] == [a[0]] + a[1..][..d] && b[..d + 1] == [b[0]] + b[1..][..d];
        assert a[d + 1] < b[d + 1];
      }
      if d :| 0 <= d < |a| && d < |b| && a[..d] == b[..d] && a[d] < b[d] {
        assert a[1..][..d - 1] == a[..d][1..] && b[1..][..d - 1] == b[..d][1..];
        assert a[1..][d - 1] < b[1..][d - 1];
      }
    } else if a != [] && b != [] {
      forall d | 0 < d < |a| && d < |b| ensures a[..d] != b[..d] {
        assert a[..d][0] == a[0] && b[..d][0] == b[0];
      }
      assert a[..0] == b[..0];
    }
  }

  lemma {:induction false} LessTotal(a: Bytes, b: Bytes)
    ensures a == b || Less(a, b) || Less(b, a)
    ensures !(Less(a, b) && Less(b, a)) && (a == b ==> !Less(a, b))
    decreases a
  {
    if a != [] && b != [] && a[0] == b[0] {
      LessTotal(a[1..], b[1..]);
      assert a == [a[0]] + a[1..] && b == [b[0]] + b[1..];
    }
  }

  lemma {:induction false} LessTrans(a: Bytes, b: Bytes, c: Bytes)
    requires !Less(b, a) && !Less(c, b)
    ensures !Less(c, a)
    decreases a
  {
    if a != [] && b != [] && c != [] && a[0] == b[0] == c[0] {
      LessTrans(a[1..], b[1..], c[1..]);
    }
  }

  // ---------- sorting ----------

  ghost predicate Sorted(s: seq<Outcome>) {
    forall i, j :: 0 <= i < j < |s| ==> !Less(s[j].vrf, s[i].vrf)
  }

  function InsertByVrf(s: seq<Outcome>, x: Outcome): (r: seq<Outcome>)
    ensures multiset(r) == multiset(s) + multiset{x} && |r| == |s| + 1
  {
    if s == [] then [x]
    else
      var n := |s| - 1;
      assert s == s[..n] + [s[n]];
      if Less(x.vrf, s[n].vrf) then InsertByVrf(s[..n], x) + [s[n]] else s + [x]
  }

  lemma {:induction false} InsertSorted(s: seq<Outcome>, x: Outcome)
    requires Sorted(s)
    ensures Sorted(InsertByVrf(s, x))
  {
    var r := InsertByVrf(s, x);
    if s != [] {
      var n := |s| - 1;
      if Less(x.vrf, s[n].vrf) {
        InsertSorted(s[..n], x);
        var init := InsertByVrf(s[..n], x);
        forall i | 0 <= i < |init| ensures !Less(s[n].vrf, init[i].vrf) {
          assert init[i] in multiset(init);
          LessTotal(x.vrf, s[n].vrf);
          assert init[i] == x || init[i] in s[..n];
        }
      } else {
        forall i | 0 <= i < |s| ensures !Less(x.vrf, s[i].vrf) {
          if i < n {
            LessTrans(s[i].vrf, s[n].vrf, x.vrf);
          }
        }
      }
    }
  }

  /** Sorting one committee's results. */
  method SortByVrf(s: seq<Outcome>) returns (r: seq<Outcome>)
    ensures Sorted(r) && multiset(r) == multiset(s)
  {
    r := [];
    for i := 0 to |s|
      invariant Sorted(r) && multiset(r) == multiset(s[..i])
    {
      InsertSorted(r, s[i]);
      r := InsertByVrf(r, s[i]);
      assert s[..i + 1] == s[..i] + [s[i]];
    }
    assert s[..|s|] == s;
  }

  ghost predicate DistinctVrfs(m: multiset<Outcome>) {
    forall x, y :: x in m && y in m && x.vrf == y.vrf ==> x == y
  }

  /** With different VRF values there is one sorted order. */
  lemma {:induction false} SortedUnique(a: seq<Outcome>, b: seq<Outcome>)
    requires Sorted(a) && Sorted(b) && multiset(a) == multiset(b) && DistinctVrfs(multiset(a))
    ensures a == b
  {
    hide Sorted, DistinctVrfs;
    assert |a| == |multiset(a)| == |multiset(b)| == |b|;
    if a != [] {
      FirstSame(a, b);
      TailCount(a);
      TailCount(b);
      SortedUnique(a[1..], b[1..]);
      assert a == [a[0]] + a[1..] && b == [b[0]] + b[1..];
    }
  }

  lemma TailCount(a: seq<Outcome>)
    requires a != []
    ensures multiset(a[1..]) == multiset(a) - multiset{a[0]}
    ensures Sorted(a) ==> Sorted(a[1..])
    ensures DistinctVrfs(multiset(a)) ==> DistinctVrfs(multiset(a[1..]))
  {
    assert a == [a[0]] + a[1..];
  }

  lemma FirstSame(a: seq<Outcome>, b: seq<Outcome>)
    requires Sorted(a) && Sorted(b) && multiset(a) == multiset(b) && DistinctVrfs(multiset(a)) && a != [] && b != []
    ensures a[0] == b[0]
  {
    assert a[0] in multiset(b) && b[0] in multiset(a);
    var i :| 0 <= i < |b| && b[i] == a[0];
    var j :| 0 <= j < |a| && a[j] == b[0];
    assert i > 0 ==> !Less(b[i].vrf, b[0].vrf);
    assert j > 0 ==> !Less(a[j].vrf, a[0].vrf);
    LessTotal(a[0].vrf, b[0].vrf);
  }

  // ---------- grouping ----------

  /** All results of all committees. */
  ghost function All(data: map<nat, seq<Outcome>>): (m: multiset<Outcome>)
    decreases data.Keys
  {
    if data == map[] then multiset{}
    else
      var c :| c in data;
      multiset(data[c]) + All(data - {c})
  }

  lemma {:induction false} AllRemove(data: map<nat, seq<Outcome>>, c: nat)
    requires c in data
    ensures All(data) == multiset(data[c]) + All(data - {c})
    decreases data.Keys
  {
    var j :| j in data && All(data) == multiset(data[j]) + All(data - {j});
    if j != c {
      AllRemove(data - {j}, c);
      AllRemove(data - {c}, j);
      assert data - {j} - {c} == data - {c} - {j};
    }
  }

  function GroupOf(groups: map<nat, seq<Outcome>>, com: nat): (s: seq<Outcome>) {
    if com in groups then groups[com] else []
  }

  /** The group of a committee holds exactly its results. */
  ghost predicate IsGroup(all: multiset<Outcome>, com: nat, g: seq<Outcome>) {
    forall r :: multiset(g)[r] == if r.newCom == com then all[r] else 0
  }

  ghost predicate AreGroups(all: multiset<Outcome>, groups: map<nat, seq<Outcome>>) {
    forall com :: IsGroup(all, com, GroupOf(groups, com))
  }

  /** The first loop: results are appended to their new committee, old committees in any order. */
  method GroupResults(data: map<nat, seq<Outcome>>) returns (groups: map<nat, seq<Outcome>>)
    ensures AreGroups(All(data), groups)
  {
    hide AreGroups;
    groups := map[];
    NoGroups();
    var todo := data;
    ghost var done := multiset{};
    while todo.Keys != {}
      invariant AreGroups(done, groups) && done + All(todo) == All(data)
      decreases todo.Keys
    {
      var c :| c in todo.Keys;
      AllRemove(todo, c);
      groups := AppendResults(groups, todo[c], done);
      done := done + multiset(todo[c]);
      todo := todo - {c};
    }
    assert todo == map[];
    assert done == All(data);
  }

  lemma NoGroups()
    ensures AreGroups(multiset{}, map[])
  {
  }

  method AppendResults(groups: map<nat, seq<Outcome>>, rs: seq<Outcome>, ghost before: multiset<Outcome>)
    returns (r: map<nat, seq<Outcome>>)
    requires AreGroups(before, groups)
    ensures AreGroups(before + multiset(rs), r)
  {
    hide AreGroups;
    r := groups;
    assert before + multiset(rs[..0]) == before;
    for i := 0 to |rs|
      invariant AreGroups(before + multiset(rs[..i]), r)
    {
      var com := rs[i].newCom;
      GroupAdd(before + multiset(rs[..i]), r, rs[i]);
      r := r[com := GroupOf(r, com) + [rs[i]]];
      assert rs[..i + 1] == rs[..i] + [rs[i]];
      assert before + multiset(rs[..i]) + multiset{rs[i]} == before + multiset(rs[..i + 1]);
    }
    assert rs[..|rs|] == rs;
  }

  lemma GroupAdd(done: multiset<Outcome>, groups: map<nat, seq<Outcome>>, r: Outcome)
    requires AreGroups(done, groups)
    ensures AreGroups(done + multiset{r}, groups[r.newCom := GroupOf(groups, r.newCom) + [r]])
  {
    var next := groups[r.newCom := GroupOf(groups, r.newCom) + [r]];
    forall com ensures IsGroup(done + multiset{r}, com, GroupOf(next, com)) {
      assert IsGroup(done, com, GroupOf(groups, com));
    }
  }

  // ---------- the new committee table ----------

  /** Each committee's results in the order of their VRF values; the position is the new node id. */
  ghost predicate IsTable(all: multiset<Outcome>, shards: nat, rows: seq<seq<Outcome>>) {
    |rows| == shards && forall c :: 0 <= c < shards ==> Sorted(rows[c]) && IsGroup(all, c, rows[c])
  }

  function Addresses(row: seq<Outcome>): (r: seq<Bytes>) {
    seq(|row|, i requires 0 <= i < |row| => row[i].old_.addr)
  }

  /** The local node's entry is at this place. */
  predicate FoundAt(rows: seq<seq<Outcome>>, local: NodeInfo, newCom: nat, info: NodeInfo, c: nat, i: nat) {
    c < |rows| && i < |rows[c]| && rows[c][i].old_ == local && info == NodeInfo(local.shard, newCom, i, local.addr)
  }

  /** The local node's entry, if there is one in these rows. */
  ghost predicate LocalInfo(rows: seq<seq<Outcome>>, local: NodeInfo, newCom: nat, info: NodeInfo) {
    (info == local && forall c, i :: 0 <= c < |rows| && 0 <= i < |rows[c]| ==> rows[c][i].old_ != local) ||
    exists c: nat, i: nat :: FoundAt(rows, local, newCom, info, c, i)
  }

  method Reassign(data: map<nat, seq<Outcome>>, shards: nat, local: NodeInfo, newCom: nat)
    returns (table: seq<seq<Bytes>>, info: NodeInfo, rows: seq<seq<Outcome>>)
    ensures IsTable(All(data), shards, rows) && LocalInfo(rows, local, newCom, info)
    ensures |table| == shards && forall c :: 0 <= c < shards ==> table[c] == Addresses(rows[c])
  {
    hide IsGroup, All;
    var groups := GroupResults(data);
    table, info, rows := [], local, [];
    for c := 0 to shards
      invariant |table| == c && IsTable(All(data), c, rows) && LocalInfo(rows, local, newCom, info)
      invariant forall x :: 0 <= x < c ==> table[x] == Addresses(rows[x])
    {
      var row := SortByVrf(GroupOf(groups, c));
      assert IsGroup(All(data), c, GroupOf(groups, c));
      SameGroup(All(data), c, GroupOf(groups, c), row);
      var addrs;
      addrs, info := FillRow(row, local, newCom, info, rows);
      table, rows := table + [addrs], rows + [row];
    }
  }

  lemma SameGroup(all: multiset<Outcome>, c: nat, g: seq<Outcome>, h: seq<Outcome>)
    requires IsGroup(all, c, g) && multiset(g) == multiset(h)
    ensures IsGroup(all, c, h)
  {
  }

  /** One committee's row; the local node notes its new place in passing. */
  method FillRow(row: seq<Outcome>, local: NodeInfo, newCom: nat, before: NodeInfo, ghost rows: seq<seq<Outcome>>)
    returns (addrs: seq<Bytes>, info: NodeInfo)
    requires LocalInfo(rows, local, newCom, before)
    ensures addrs == Addresses(row) && LocalInfo(rows + [row], local, newCom, info)
  {
    hide LocalInfo;
    addrs, info := [], before;
    RowStart(rows, local, newCom, before);
    for i := 0 to |row|
      invariant addrs == Addresses(row[..i]) && LocalInfo(rows + [row[..i]], local, newCom, info)
    {
      addrs := addrs + [row[i].old_.addr];
      RowNext(rows, row, i, local, newCom, info);
      if row[i].old_ == local {
        info := NodeInfo(local.shard, newCom, i, local.addr);
      }
    }
    assert row[..|row|] == row;
  }

  lemma RowStart(rows: seq<seq<Outcome>>, local: NodeInfo, newCom: nat, info: NodeInfo)
    requires LocalInfo(rows, local, newCom, info)
    ensures LocalInfo(rows + [[]], local, newCom, info)
  {
    var all: seq<seq<Outcome>> := rows + [[]];
    if c: nat, i: nat :| FoundAt(rows, local, newCom, info, c, i) {
      assert FoundAt(all, local, newCom, info, c, i);
    }
  }

  lemma RowNext(rows: seq<seq<Outcome>>, row: seq<Outcome>, i: nat, local: NodeInfo, newCom: nat, info: NodeInfo)
    requires i < |row| && LocalInfo(rows + [row[..i]], local, newCom, info)
    ensures LocalInfo(rows + [row[..i + 1]], local, newCom,
                      if row[i].old_ == local then NodeInfo(local.shard, newCom, i, local.addr) else info)
  {
    var was: seq<seq<Outcome>> := rows + [row[..i]];
    var all: seq<seq<Outcome>> := rows + [row[..i + 1]];
    if row[i].old_ == local {
      assert FoundAt(all, local, newCom, NodeInfo(local.shard, newCom, i, local.addr), |rows|, i);
    } else if c: nat, j: nat :| FoundAt(was, local, newCom, info, c, j) {
      assert FoundAt(all, local, newCom, info, c, j);
    } else {
      forall c, j | 0 <= c < |all| && 0 <= j < |all[c]| ensures all[c][j].old_ != local {
        assert c < |rows| || j < i ==> all[c][j] == was[c][j];
      }
    }
  }

  // ---------- what all nodes agree on ----------

  /** Whatever the iteration orders, nodes that hold the same results compute the same table. */
  lemma Deterministic(all: multiset<Outcome>, shards: nat, a: seq<seq<Outcome>>, b: seq<seq<Outcome>>)
    requires IsTable(all, shards, a) && IsTable(all, shards, b) && DistinctVrfs(all)
    ensures a == b
  {
    forall c | 0 <= c < shards ensures a[c] == b[c] {
      GroupUnique(all, c, a[c], b[c]);
    }
  }

  lemma GroupUnique(all: multiset<Outcome>, c: nat, g: seq<Outcome>, h: seq<Outcome>)
    requires Sorted(g) && Sorted(h) && IsGroup(all, c, g) && IsGroup(all, c, h) && DistinctVrfs(all)
    ensures g == h
  {
    assert multiset(g) == multiset(h);
    forall x | x in multiset(g) ensures x in all {
      assert multiset(g)[x] > 0;
    }
    SortedUnique(g, h);
  }

  /** The committee a VRF value leads to; some committee there is. */
  function VrfValue2Shard(vrf: Bytes, shards: nat): (c: nat)
    requires vrf != [] && shards > 0
    ensures c < shards
  {
    vrf[0] % shards
  }

  /** Each node has one result, with its own address and the committee of its VRF value. */
  ghost predicate OnePerNode(all: multiset<Outcome>, shards: nat) {
    shards > 0 &&
    (forall r :: r in all ==> all[r] == 1 && r.vrf != [] && r.newCom == VrfValue2Shard(r.vrf, shards)) &&
    forall x, y :: x in all && y in all && x.old_.addr == y.old_.addr ==> x == y
  }

  /** Every node is in the table: in the committee its result names. */
  lemma EveryNodePlaced(all: multiset<Outcome>, shards: nat, rows: seq<seq<Outcome>>, r: Outcome) returns (i: nat)
    requires IsTable(all, shards, rows) && OnePerNode(all, shards) && r in all
    ensures r.newCom < shards && i < |rows[r.newCom]| && rows[r.newCom][i] == r
  {
    var row := rows[r.newCom];
    assert IsGroup(all, r.newCom, row);
    assert r in multiset(row);
    i :| 0 <= i < |row| && row[i] == r;
  }

  /** No address has two places. */
  lemma OnePlaceOnly(all: multiset<Outcome>, shards: nat, rows: seq<seq<Outcome>>, c: nat, i: nat, d: nat, j: nat)
    requires IsTable(all, shards, rows) && OnePerNode(all, shards)
    requires c < shards && i < |rows[c]| && d < shards && j < |rows[d]|
    requires Addresses(rows[c])[i] == Addresses(rows[d])[j]
    ensures c == d && i == j
  {
    var x, y := rows[c][i], rows[d][j];
    RowMember(all, c, rows[c], i);
    RowMember(all, d, rows[d], j);
    assert x == y;
    if i < j {
      Once(rows[c], i, j);
    } else if j < i {
      Once(rows[c], j, i);
    }
  }

  lemma RowMember(all: multiset<Outcome>, c: nat, row: seq<Outcome>, i: nat)
    requires IsGroup(all, c, row) && i < |row|
    ensures row[i] in all && row[i].newCom == c && multiset(row)[row[i]] == all[row[i]]
  {
    assert row[i] in multiset(row);
  }

  lemma Once(row: seq<Outcome>, i: nat, j: nat)
    requires i < j < |row| && multiset(row)[row[i]] == 1
    ensures row[i] != row[j]
  {
    var a, b := row[..j], row[j..];
    assert row == a + b;
    assert a[i] == row[i] && row[i] in multiset(a) && b[0] == row[j] && row[j] in multiset(b);
    assert multiset(row)[row[i]] == multiset(a)[row[i]] + multiset(b)[row[i]];
  }

  /** The local node's new info is its entry in the table. */
  lemma LocalMatches(all: multiset<Outcome>, shards: nat, rows: seq<seq<Outcome>>, local: NodeInfo, own: Outcome,
                     info: NodeInfo)
    requires IsTable(all, shards, rows) && OnePerNode(all, shards) && own in all && own.old_ == local
    requires LocalInfo(rows, local, own.newCom, info)
    ensures info.com == own.newCom < shards && info.id < |rows[info.com]|
    ensures Addresses(rows[info.com])[info.id] == info.addr == local.addr
  {
    var k := EveryNodePlaced(all, shards, rows, own);
    assert rows[own.newCom][k].old_ == local;
    var c: nat, i: nat :| FoundAt(rows, local, own.newCom, info, c, i);
    RowMember(all, c, rows[c], i);
  }
}
