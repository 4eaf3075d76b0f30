/**
  Assembling beacon blocks from contract events
  (beaconChain/ethChainInterface.go, `generateEthChainBlock`): events are grouped
  by the height of the Ethereum block they came in, and a group becomes a beacon
  block once an event of a greater height shows that it is full.
 */
module Beacon {
  import opened Bytes

  datatype Event = Event(ethHeight: nat, shard: nat, height: nat)

  /** The confirmed beacon heights of each shard, and the Ethereum height they belong to. */
  datatype Block = Block(tbs: seq<seq<nat>>, height: nat)

  type Group = map<nat, seq<nat>>

  function Of(g: Group, shard: nat): (r: seq<nat>) {
    if shard in g then g[shard] else []
  }

  // ---------- the event stream ----------

  /** The events of one Ethereum height and one shard, in order. */
  function Pick(es: seq<Event>, h: nat, shard: nat): (r: seq<nat>) {
    if es == [] then []
    else
      var e := es[|es| - 1];
      Pick(es[..|es| - 1], h, shard) + if e.ethHeight == h && e.shard == shard then [e.height] else []
  }

  /** The events of one shard up to an Ethereum height, in order. */
  function UpTo(es: seq<Event>, h: nat, shard: nat): (r: seq<nat>) {
    if es == [] then []
    else
      var e := es[|es| - 1];
      UpTo(es[..|es| - 1], h, shard) + if e.ethHeight <= h && e.shard == shard then [e.height] else []
  }

  /** Ethereum heights are positive and never go down; shards are those of the system. */
  ghost predicate Stream(es: seq<Event>, shards: nat) {
    (forall i :: 0 <= i < |es| ==> es[i].ethHeight > 0 && es[i].shard < shards) &&
    forall i, j :: 0 <= i <= j < |es| ==> es[i].ethHeight <= es[j].ethHeight
  }

  ghost predicate Occurs(es: seq<Event>, h: nat) {
    exists i :: 0 <= i < |es| && es[i].ethHeight == h
  }

  lemma Regroup(front: seq<nat>, group: seq<nat>, more: seq<nat>)
    ensures front + group + more == front + (group + more) && front + group + [] == front + (group + [])
    ensures front + [] == front && group + [] == group
  {
  }

  /** With no height between them, what is known up to `h` and the group of the next height make what is known up to it. */
  lemma {:induction false} NextHeight(es: seq<Event>, g: nat, h: nat, shard: nat, shards: nat)
    requires Stream(es, shards) && g < h && forall x :: g < x < h ==> !Occurs(es, x)
    ensures UpTo(es, h, shard) == UpTo(es, g, shard) + Pick(es, h, shard)
  {
    if es != [] {
      var n := |es| - 1;
      var init := es[..n];
      assert es == init + [es[n]];
      forall x | g < x < h ensures !Occurs(init, x) {
        OccursMore(init, es[n], x);
      }
      OccursMore(init, es[n], es[n].ethHeight);
      assert !(g < es[n].ethHeight < h);
      StreamPrefix(es, init, shards);
      hide Occurs, Stream;
      var e := es[n];
      var mine := if e.shard == shard then [e.height] else [];
      assert UpTo(es, g, shard) == UpTo(init, g, shard) + if e.ethHeight <= g then mine else [];
      assert UpTo(es, h, shard) == UpTo(init, h, shard) + if e.ethHeight <= h then mine else [];
      assert Pick(es, h, shard) == Pick(init, h, shard) + if e.ethHeight == h then mine else [];
      hide UpTo, Pick;
      NextHeight(init, g, h, shard, shards);
      if e.ethHeight <= g {
        Rising(init, e, shards, 0);
        NoneAbove(init, h, shard, shards, e.ethHeight);
      }
      Regroup(UpTo(init, g, shard), Pick(init, h, shard), mine);
    }
  }

  /** Before an event, nothing is higher than it. */
  lemma {:induction false} NoneAbove(es: seq<Event>, h: nat, shard: nat, shards: nat, top: nat)
    requires top < h && forall i :: 0 <= i < |es| ==> es[i].ethHeight <= top
    ensures Pick(es, h, shard) == []
  {
    if es != [] {
      NoneAbove(es[..|es| - 1], h, shard, shards, top);
    }
  }

  // ---------- the chain ----------

  class BeaconChain {
    const shardNum: nat
    var pending: map<nat, Group>  // `geth_tbs_new`
    var tbs: seq<seq<nat>>        // all confirmed beacons of each shard
    ghost var seen: seq<Event>    // every event taken so far
    ghost var last: nat           // the height of the last block, 0 before the first

    ghost predicate Valid()
      reads this
    {
      Stream(seen, shardNum) && |tbs| == shardNum &&
      (last > 0 ==> seen != [] && last < seen[|seen| - 1].ethHeight) &&
      Grouped(pending, seen, last) &&
      forall s :: 0 <= s < shardNum ==> tbs[s] == UpTo(seen, last, s)
    }

    constructor (shards: nat)
      ensures Valid() && shardNum == shards && seen == [] && last == 0
    {
      shardNum, pending, tbs := shards, map[], seq(shards, _ => []);
      seen, last := [], 0;
    }

    /**
      Takes all waiting events; emits at most one block, and one exactly if an
      event of this call is higher than some waiting height (a height completed
      by an earlier call stays back until then). A block holds all and only the
      events of its height, heights strictly increase, and each shard's beacons
      are confirmed in the order of the events, none lost or repeated.
     */
    method GenerateBlock(events: seq<Event>) returns (r: Option<Block>)
      requires Valid() && Stream(seen + events, shardNum)
      modifies this
      ensures Valid() && seen == old(seen) + events
      ensures r.Some? <==> exists h: nat :: Waiting(seen, old(last), h) && Overtaken(events, h)
      ensures r.None? ==> last == old(last) && tbs == old(tbs)
      ensures r.Some? ==> old(last) < r.value.height == last && |r.value.tbs| == shardNum
      ensures r.Some? ==> forall s :: 0 <= s < shardNum ==> r.value.tbs[s] == Pick(seen, last, s)
      ensures r.Some? ==> forall s :: 0 <= s < shardNum ==> tbs[s] == old(tbs)[s] + r.value.tbs[s]
      ensures r.Some? ==> forall x :: old(last) < x < last ==> !Occurs(seen, x)
    {
      hide Stream, UpTo, Pick, Occurs;
      NoneAtZero(pending, seen, last);
      hide Grouped, Lowermost;
      var start := Lowest(pending);
      var toPack;
      start, toPack := Drain(events, start);
      WhenToPack(pending, seen, last, events, start, toPack);
      if !toPack {
        return None;
      }
      var block := Confirm(start);
      r := Some(Block(block, start));
    }

    /** The loop that empties the event channel into the groups. */
    method Drain(events: seq<Event>, from: nat) returns (start: nat, toPack: bool)
      requires Valid() && Stream(seen + events, shardNum)
      requires Lowermost(pending, from)
      modifies this`pending, this`seen
      ensures Valid() && seen == old(seen) + events && Lowermost(pending, start)
      ensures toPack ==> start in pending && seen != [] && start < seen[|seen| - 1].ethHeight
      ensures toPack <==> Overtaken(events, start)
    {
      hide UpTo, Pick, Occurs, Grouped, Lowermost, Stream, Overtaken;
      start, toPack := from, false;
      var i := 0;
      assert seen + events[..0] == seen;
      NoneOvertakes(events[..0], start);
      while i < |events|
        invariant 0 <= i <= |events| && seen == old(seen) + events[..i] && Valid() && Lowermost(pending, start)
        invariant toPack ==> start in pending && seen != [] && start < seen[|seen| - 1].ethHeight
        invariant i > 0 ==> start in pending
        invariant toPack <==> Overtaken(events[..i], start)
      {
        NextEvent(old(seen), events, i, shardNum);
        ghost var before := start;
        start := Take(events[i], start);
        assert i > 0 ==> start == before;
        NextOvertakes(events, i, start);
        if i == 0 {
          NoneOvertakes(events[..0], start);
        }
        if events[i].ethHeight > start {
          toPack := true;
        }
        i := i + 1;
      }
      assert events[..|events|] == events;
    }

    /** One event goes into its group. */
    method Take(e: Event, from: nat) returns (start: nat)
      requires Valid() && Stream(seen + [e], shardNum) && Lowermost(pending, from)
      modifies this`pending, this`seen
      ensures Valid() && seen == old(seen) + [e] && Lowermost(pending, start) && start in pending
      ensures from in old(pending) ==> start == from
      ensures old(seen) != [] ==> old(seen)[|old(seen)| - 1].ethHeight <= e.ethHeight
    {
      hide UpTo, Pick, Occurs, Grouped, Stream, Lowermost;
      start := from;
      assert from in pending ==> from != 0 by {
        PendingStart(pending, from);
      }
      if start == 0 {
        start := e.ethHeight;
      }
      Rising(seen, e, shardNum, last);
      GroupedMore(pending, seen, e, last);
      LowestMore(pending, seen, e, last, from, shardNum);
      forall s | 0 <= s < shardNum ensures UpTo(seen + [e], last, s) == UpTo(seen, last, s) {
        UpToMore(seen, e, last, s);
      }
      var group: Group := if e.ethHeight in pending then pending[e.ethHeight] else map[];
      pending := pending[e.ethHeight := group[e.shard := Of(group, e.shard) + [e.height]]];
      seen := seen + [e];
    }

    /** The group of the lowest height becomes a block. */
    method Confirm(start: nat) returns (block: seq<seq<nat>>)
      requires Valid() && start in pending && Lowermost(pending, start) && seen != [] &&
               start < seen[|seen| - 1].ethHeight
      modifies this`pending, this`tbs, this`last
      ensures Valid() && last == start > old(last) && |block| == shardNum
      ensures forall s :: 0 <= s < shardNum ==> block[s] == Pick(seen, start, s) && tbs[s] == old(tbs)[s] + block[s]
      ensures forall x :: old(last) < x < last ==> !Occurs(seen, x)
    {
      hide UpTo, Pick, Occurs, Stream, Grouped, Lowermost;
      GroupShards(pending, seen, last, start, shardNum);
      GroupedLess(pending, seen, last, start);
      GroupIs(pending, seen, last, start);
      forall s | 0 <= s < shardNum ensures UpTo(seen, start, s) == UpTo(seen, last, s) + Pick(seen, start, s) {
        NextHeight(seen, last, start, s, shardNum);
      }
      block := Collect(pending[start], shardNum);
      tbs := seq(shardNum, s requires 0 <= s < shardNum && |tbs| == shardNum && |block| == shardNum reads this => tbs[s] + block[s]);
      pending := pending - {start};
      last := start;
    }
  }

  /** A height with events above the last block. */
  ghost predicate Waiting(es: seq<Event>, last: nat, h: nat) {
    h > last && Occurs(es, h)
  }

  /** One of these events is higher. */
  ghost predicate Overtaken(events: seq<Event>, h: nat) {
    exists i :: 0 <= i < |events| && events[i].ethHeight > h
  }

  lemma NoneOvertakes(none: seq<Event>, h: nat)
    requires none == []
    ensures !Overtaken(none, h)
  {
  }

  lemma NextOvertakes(events: seq<Event>, i: nat, h: nat)
    requires i < |events|
    ensures Overtaken(events[..i + 1], h) <==> Overtaken(events[..i], h) || events[i].ethHeight > h
  {
    var more := events[..i + 1];
    assert more[i] == events[i] && forall j :: 0 <= j < i ==> more[j] == events[..i][j];
    if Overtaken(events[..i], h) {
      var j :| 0 <= j < i && events[..i][j].ethHeight > h;
      assert more[j].ethHeight > h;
    }
  }

  /** If some waiting height is overtaken, the lowest one is. */
  lemma WhenToPack(pending: map<nat, Group>, es: seq<Event>, last: nat, events: seq<Event>, start: nat, toPack: bool)
    requires Grouped(pending, es, last) && Lowermost(pending, start) && (toPack <==> Overtaken(events, start))
    requires toPack ==> start in pending
    ensures toPack <==> exists h: nat :: Waiting(es, last, h) && Overtaken(events, h)
  {
    hide Occurs, Pick;
    if toPack {
      assert Waiting(es, last, start) && Overtaken(events, start);
    }
    forall h: nat | Waiting(es, last, h) && Overtaken(events, h) ensures toPack {
      assert h in pending && start <= h;
      var i :| 0 <= i < |events| && events[i].ethHeight > h;
      assert events[i].ethHeight > start;
    }
  }

  /** The lists of a group, one for each shard. */
  method Collect(group: Group, shards: nat) returns (block: seq<seq<nat>>)
    requires forall s :: s in group ==> s < shards
    ensures |block| == shards && forall s :: 0 <= s < shards ==> block[s] == Of(group, s)
  {
    block := seq(shards, _ => []);
    var todo := group.Keys;
    while todo != {}
      invariant todo <= group.Keys && |block| == shards
      invariant forall s :: 0 <= s < shards ==> block[s] == if s in todo then [] else Of(group, s)
      decreases |todo|
    {
      var s :| s in todo;
      block := block[s := block[s] + group[s]];
      todo := todo - {s};
    }
  }

  lemma GroupIs(pending: map<nat, Group>, es: seq<Event>, last: nat, start: nat)
    requires Grouped(pending, es, last) && start in pending
    ensures forall s :: Of(pending[start], s) == Pick(es, start, s)
  {
  }

  lemma NextEvent(seen: seq<Event>, events: seq<Event>, i: nat, shards: nat)
    requires i < |events| && Stream(seen + events, shards)
    ensures Stream(seen + events[..i] + [events[i]], shards)
    ensures seen + events[..i] + [events[i]] == seen + events[..i + 1]
  {
    assert events[..i + 1] == events[..i] + [events[i]];
    assert seen + events[..i] + [events[i]] == seen + events[..i + 1];
    assert seen + events[..i + 1] <= seen + events;
    StreamPrefix(seen + events, seen + events[..i + 1], shards);
  }

  /** A group names shards of the system only. */
  lemma GroupShards(pending: map<nat, Group>, es: seq<Event>, last: nat, start: nat, shards: nat)
    requires Grouped(pending, es, last) && Stream(es, shards) && start in pending
    ensures forall s :: s in pending[start] ==> s < shards
  {
    hide Pick, Stream;
    forall s | s in pending[start] ensures s < shards {
      PickShard(es, start, s, shards);
    }
  }

  lemma {:induction false} PickShard(es: seq<Event>, h: nat, s: nat, shards: nat)
    requires Stream(es, shards) && Pick(es, h, s) != []
    ensures s < shards
  {
    var n := |es| - 1;
    StreamPrefix(es, es[..n], shards);
    if es[n].ethHeight != h || es[n].shard != s {
      PickShard(es[..n], h, s, shards);
    }
  }

  lemma GroupedLess(pending: map<nat, Group>, es: seq<Event>, last: nat, start: nat)
    requires Grouped(pending, es, last) && Lowermost(pending, start) && start in pending
    ensures last < start && Grouped(pending - {start}, es, start) && forall x :: last < x < start ==> !Occurs(es, x)
  {
    hide Occurs, Pick;
  }

  /** The start height is the lowest pending one, or 0 when none is pending. */
  ghost predicate Lowermost(pending: map<nat, Group>, start: nat) {
    (start == 0 <==> pending == map[]) &&
    (start != 0 ==> start in pending && forall h :: h in pending ==> start <= h)
  }

  lemma PendingStart(pending: map<nat, Group>, start: nat)
    requires Lowermost(pending, start)
    ensures start in pending ==> start != 0
  {
  }

  lemma NoneAtZero(pending: map<nat, Group>, es: seq<Event>, last: nat)
    requires Grouped(pending, es, last)
    ensures 0 !in pending
  {
  }

  lemma StreamPrefix(es: seq<Event>, front: seq<Event>, shards: nat)
    requires Stream(es, shards) && front <= es
    ensures Stream(front, shards)
  {
    assert forall i :: 0 <= i < |front| ==> front[i] == es[i];
  }

  /** The next event is above the last block and not below any event before it. */
  lemma Rising(es: seq<Event>, e: Event, shards: nat, last: nat)
    requires Stream(es + [e], shards) && (last > 0 ==> es != [] && last < es[|es| - 1].ethHeight)
    ensures e.ethHeight > last && e.shard < shards && forall i :: 0 <= i < |es| ==> es[i].ethHeight <= e.ethHeight
  {
    var all := es + [e];
    assert all[|es|] == e && forall i :: 0 <= i < |es| ==> all[i] == es[i];
  }

  lemma OccursMore(es: seq<Event>, e: Event, h: nat)
    ensures Occurs(es + [e], h) <==> Occurs(es, h) || e.ethHeight == h
  {
    var all := es + [e];
    assert all[|es|] == e;
    if Occurs(es, h) {
      var i :| 0 <= i < |es| && es[i].ethHeight == h;
      assert all[i].ethHeight == h;
    }
  }

  lemma GroupedMore(p: map<nat, Group>, es: seq<Event>, e: Event, last: nat)
    requires Grouped(p, es, last) && e.ethHeight > last
    ensures Grouped(Added(p, e), es + [e], last)
  {
    hide Occurs;
    var q, all := Added(p, e), es + [e];
    forall h: nat ensures h in q <==> h > last && Occurs(all, h) {
      OccursMore(es, e, h);
    }
    forall h: nat, s: nat | h in q ensures Of(q[h], s) == Pick(all, h, s) {
      PickMore(p, es, e, last, h, s);
    }
  }

  lemma PickMore(p: map<nat, Group>, es: seq<Event>, e: Event, last: nat, h: nat, s: nat)
    requires Grouped(p, es, last) && e.ethHeight > last && h in Added(p, e)
    ensures Of(Added(p, e)[h], s) == Pick(es + [e], h, s)
  {
    hide Occurs;
    assert (es + [e])[..|es|] == es;
    if h !in p {
      PickNone(es, h, s);
    }
  }

  function Added(p: map<nat, Group>, e: Event): (q: map<nat, Group>) {
    var group: Group := if e.ethHeight in p then p[e.ethHeight] else map[];
    p[e.ethHeight := group[e.shard := Of(group, e.shard) + [e.height]]]
  }

  lemma {:induction false} PickNone(es: seq<Event>, h: nat, shard: nat)
    requires !Occurs(es, h)
    ensures Pick(es, h, shard) == []
  {
    if es != [] {
      var n := |es| - 1;
      assert es == es[..n] + [es[n]];
      OccursMore(es[..n], es[n], h);
      PickNone(es[..n], h, shard);
    }
  }

  lemma LowestMore(p: map<nat, Group>, es: seq<Event>, e: Event, last: nat, start: nat, shards: nat)
    requires Lowermost(p, start) && Grouped(p, es, last) && e.ethHeight > last
    requires forall i :: 0 <= i < |es| ==> es[i].ethHeight <= e.ethHeight
    ensures var next := if start == 0 then e.ethHeight else start;
            Lowermost(Added(p, e), next) && next in Added(p, e) && next <= e.ethHeight
  {
    if start != 0 {
      assert Occurs(es, start);
    }
    assert e.ethHeight in Added(p, e);
  }

  lemma UpToMore(es: seq<Event>, e: Event, last: nat, s: nat)
    requires e.ethHeight > last
    ensures UpTo(es + [e], last, s) == UpTo(es, last, s)
  {
    assert (es + [e])[..|es|] == es;
  }

  /** The pending groups are the events above the last block's height. */
  ghost predicate Grouped(pending: map<nat, Group>, es: seq<Event>, last: nat) {
    (forall h :: h in pending <==> h > last && Occurs(es, h)) &&
    (forall h, s :: h in pending ==> Of(pending[h], s) == Pick(es, h, s)) &&
    forall h, s :: h in pending && s in pending[h] ==> pending[h][s] != []
  }

  /** The lowest pending height, or 0. */
  method Lowest(pending: map<nat, Group>) returns (start: nat)
    requires 0 !in pending
    ensures Lowermost(pending, start)
  {
    start := 0;
    var todo := pending.Keys;
    while todo != {}
      invariant todo <= pending.Keys
      invariant start == 0 <==> todo == pending.Keys
      invariant start != 0 ==> start in pending && forall h :: h in pending && h !in todo ==> start <= h
      decreases |todo|
    {
      var h :| h in todo;
      if start == 0 {
        start := h;
      } else if h < start {
        start := h;
      }
      todo := todo - {h};
    }
  }
}
