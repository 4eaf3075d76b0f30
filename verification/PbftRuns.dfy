/**
  Runs of honest nodes over a network that neither forges nor duplicates
  messages, between resets: what a reply, a commit and the end of a round
  stand for.
 */
module PbftRuns {
  import opened Bytes
  import opened Pbft

  datatype World = World(
    nodes: seq<NodeState>,
    net: multiset<Msg>,
    locked: bool,                    // the leader's sequence lock: a round is running
    rounds: seq<nat>,                // history: the rounds in the order they were proposed
    proposed: map<nat, Bytes>,       // history: the request of each round
    prepared: set<(nat, nat)>,       // history: (node, round) pairs of broadcast prepares
    committed: set<(nat, nat)>,      // history: broadcast commits
    replied: set<(nat, nat)>,        // history: nodes that finished the round
    repliers: map<nat, set<nat>>,    // history: whose replies the leader counted in each round
    ended: seq<nat>)                 // history: the rounds the leader ended

  function F(w: World): (f: nat) {
    MaliciousNums(|w.nodes|)
  }

  function Repliers(w: World, s: nat): (r: set<nat>) {
    if s in w.repliers then w.repliers[s] else {}
  }

  // ---------- broadcasts ----------

  ghost function PrePrepares(n: nat, request: Bytes, d: Digest, s: nat): (b: multiset<Msg>) {
    multiset(set to: nat | 0 <= to < n && to != LEADER :: PrePrepare(to, request, d, s))
  }

  ghost function Prepares(n: nat, from: nat, d: Digest, s: nat): (b: multiset<Msg>) {
    multiset(set to: nat | 0 <= to < n && to != from :: Prepare(to, from, d, s))
  }

  ghost function Commits(n: nat, from: nat, d: Digest, s: nat): (b: multiset<Msg>) {
    multiset(set to: nat | 0 <= to < n && to != from :: Commit(to, from, d, s))
  }

  // ---------- steps ----------

  datatype Event = SetSequence(number: nat) | Propose(request: Bytes) | Deliver(msg: Msg)

  /** New nodes, or nodes after a reset: whatever their sequence numbers, they know nothing else. */
  ghost predicate Init(w: World) {
    |w.nodes| > 0 &&
    (forall i :: 0 <= i < |w.nodes| ==> w.nodes[i] == NodeState(w.nodes[i].sequenceId, {}, map[], map[], {}, {}, 0, {})) &&
    w.net == multiset{} && !w.locked && w.rounds == [] && w.proposed == map[] && w.prepared == {} &&
    w.committed == {} && w.replied == {} && w.repliers == map[] && w.ended == []
  }

  /** The leader's caller sets the number of the next round; the sequence lock must be free. */
  ghost predicate CanSet(w: World) {
    |w.nodes| > 0 && !w.locked
  }

  function AfterSet(w: World, number: nat): (v: World)
    requires |w.nodes| > 0
  {
    w.(nodes := w.nodes[0 := w.nodes[0].(sequenceId := number)])
  }

  /**
    The leader proposes under its sequence number, which is new since the
    reset, and so is the request's digest; the sequence lock must be free.
   */
  ghost predicate CanPropose(dig: Bytes -> Digest, w: World, request: Bytes) {
    |w.nodes| > 0 && !w.locked && w.nodes[0].sequenceId !in w.proposed &&
    forall s :: s in w.proposed ==> dig(w.proposed[s]) != dig(request)
  }

  ghost function AfterPropose(dig: Bytes -> Digest, w: World, request: Bytes): (v: World)
    requires |w.nodes| > 0
  {
    var l := w.nodes[0];
    var d := dig(request);
    w.(nodes := w.nodes[0 := OnPropose(l, d)], locked := true, rounds := w.rounds + [l.sequenceId],
       proposed := w.proposed[l.sequenceId := request], net := w.net + PrePrepares(|w.nodes|, request, d, l.sequenceId))
  }

  ghost function AfterDeliver(dig: Bytes -> Digest, w: World, m: Msg): (v: World)
    requires m.to < |w.nodes|
  {
    var i := m.to;
    var u := w.(net := w.net - multiset{m});
    match m
    case PrePrepare(_, _, d, s) =>
      var (n, send) := OnPrePrepare(w.nodes[i], m, dig);
      if !send then u.(nodes := w.nodes[i := n])
      else u.(nodes := w.nodes[i := n], prepared := w.prepared + {(i, s)},
              net := u.net + Prepares(|w.nodes|, i, d, s))
    case Prepare(_, _, d, s) =>
      var (n, send) := OnPrepare(w.nodes[i], i, F(w), m);
      if !send then u.(nodes := w.nodes[i := n])
      else u.(nodes := w.nodes[i := n], committed := w.committed + {(i, s)},
              net := u.net + Commits(|w.nodes|, i, d, s))
    case Commit(_, _, d, s) =>
      var (n, send) := OnCommit(w.nodes[i], i, F(w), m);
      if !send then u.(nodes := w.nodes[i := n])
      else u.(nodes := w.nodes[i := n], replied := w.replied + {(i, s)},
              net := if i == LEADER then u.net else u.net + multiset{Reply(LEADER, i, s)})
    case Reply(_, from, s) =>
      var (n, done) := OnReply(w.nodes[i], i, F(w), m);
      var counted := i == LEADER && s !in w.nodes[i].enough;
      u.(nodes := w.nodes[i := n],
         repliers := if counted then w.repliers[s := Repliers(w, s) + {from}] else w.repliers,
         ended := if done then w.ended + [s] else w.ended, locked := w.locked && !done)
  }

  ghost predicate Step(dig: Bytes -> Digest, w: World, e: Event, v: World) {
    match e
    case SetSequence(number) => CanSet(w) && v == AfterSet(w, number)
    case Propose(request) => CanPropose(dig, w, request) && v == AfterPropose(dig, w, request)
    case Deliver(m) => m in w.net && m.to < |w.nodes| && v == AfterDeliver(dig, w, m)
  }

  ghost predicate Run(dig: Bytes -> Digest, ws: seq<World>, es: seq<Event>) {
    |ws| == |es| + 1 && Init(ws[0]) && forall k :: 0 <= k < |es| ==> Step(dig, ws[k], es[k], ws[k + 1])
  }

  // ---------- the invariant ----------

  function One(b: bool): (n: nat) {
    if b then 1 else 0
  }

  function D(dig: Bytes -> Digest, w: World, s: nat): (d: Digest)
    requires s in w.proposed
  {
    dig(w.proposed[s])
  }

  /** Each round is proposed once, with its own digest; the running one has the leader's number. */
  ghost predicate Rounds(dig: Bytes -> Digest, w: World) {
    |w.nodes| > 0 &&
    (forall s: nat :: s in w.proposed <==> s in w.rounds) &&
    (forall i, j :: 0 <= i < j < |w.rounds| ==> w.rounds[i] != w.rounds[j]) &&
    (w.locked ==> w.rounds != [] && w.rounds[|w.rounds| - 1] == w.nodes[0].sequenceId) &&
    forall s, t :: s in w.proposed && t in w.proposed && D(dig, w, s) == D(dig, w, t) ==> s == t
  }

  /** A message belongs to a proposed round. */
  ghost predicate MsgOk(dig: Bytes -> Digest, w: World, m: Msg) {
    m.to < |w.nodes| && m.seqId in w.proposed &&
    match m
    case PrePrepare(_, request, d, s) => request == w.proposed[s] && d == D(dig, w, s)
    case Prepare(_, _, d, s) => d == D(dig, w, s)
    case Commit(_, _, d, s) => d == D(dig, w, s)
    case Reply(to, from, _) => to == LEADER && from < |w.nodes|
  }

  /**
    Between two nodes there is at most one prepare of a round, on the way or
    counted, and only if it was sent; of a sent commit there is exactly one.
   */
  ghost predicate SlotOk(dig: Bytes -> Digest, w: World, s: nat, to: nat, from: nat)
    requires s in w.proposed && to < |w.nodes|
  {
    PrepareSlotOk(dig, w, s, to, from) && CommitSlotOk(dig, w, s, to, from)
  }

  ghost predicate PrepareSlotOk(dig: Bytes -> Digest, w: World, s: nat, to: nat, from: nat)
    requires s in w.proposed && to < |w.nodes|
  {
    var d := D(dig, w, s);
    w.net[Prepare(to, from, d, s)] + multiset(Got(w.nodes[to].prepares, d))[from]
      <= One(from != to && (from, s) in w.prepared)
  }

  ghost predicate CommitSlotOk(dig: Bytes -> Digest, w: World, s: nat, to: nat, from: nat)
    requires s in w.proposed && to < |w.nodes|
  {
    var d := D(dig, w, s);
    w.net[Commit(to, from, d, s)] + multiset(Got(w.nodes[to].commits, d))[from]
      == One(from != to && (from, s) in w.committed)
  }

  /**
    What a node did in a round: it prepares once, commits and finishes exactly
    with enough counted messages, and a reply reaches the leader's count or finds
    the round ended.
   */
  ghost predicate PartOk(dig: Bytes -> Digest, w: World, s: nat, i: nat)
    requires s in w.proposed && i < |w.nodes|
  {
    var d := D(dig, w, s);
    w.net[PrePrepare(i, w.proposed[s], d, s)] + One((i, s) in w.prepared) <= One(i != LEADER) &&
    (i != LEADER && d in w.nodes[i].pool ==> (i, s) in w.prepared) &&
    ((i, s) in w.committed <==> d in w.nodes[i].commitSent) &&
    ((i, s) in w.replied <==> d in w.nodes[i].replied) &&
    (Got(w.nodes[i].prepares, d) != [] ==> d in w.nodes[i].pool) &&
    ((i, s) in w.committed <==>
       |Got(w.nodes[i].prepares, d)| >= 1 &&
       |Got(w.nodes[i].prepares, d)| >= if i == LEADER then 2 * F(w) else 2 * F(w) - 1) &&
    ((i, s) in w.replied <==> |Got(w.nodes[i].commits, d)| >= 1 && |Got(w.nodes[i].commits, d)| >= 2 * F(w)) &&
    w.net[Reply(LEADER, i, s)] + One(i in Repliers(w, s)) <= One(i != LEADER && (i, s) in w.replied) &&
    (s !in w.ended ==>
       w.net[Reply(LEADER, i, s)] + One(i in Repliers(w, s)) == One(i != LEADER && (i, s) in w.replied))
  }

  /** The rounds before the running one. */
  function Earlier(w: World): (r: seq<nat>) {
    if w.locked && w.rounds != [] then w.rounds[..|w.rounds| - 1] else w.rounds
  }

  /** The leader has ended all rounds before the running one, each once. */
  ghost predicate EndedOk(w: World)
    requires |w.nodes| > 0
  {
    w.ended == Earlier(w) && forall s: nat :: s in w.nodes[0].enough <==> s in w.ended
  }

  /** It counts the replies of the running round, not enough yet, and counted enough in the others. */
  ghost predicate RepliesOk(w: World)
    requires |w.nodes| > 0
  {
    w.nodes[0].replyCnt == (if w.locked then |Repliers(w, w.nodes[0].sequenceId)| else 0) &&
    (w.locked ==> w.nodes[0].replyCnt == 0 || w.nodes[0].replyCnt < 2 * F(w)) &&
    (forall s: nat :: s in w.ended ==> |Repliers(w, s)| >= 1 && |Repliers(w, s)| >= 2 * F(w)) &&
    (forall s: nat :: s !in w.proposed ==> Repliers(w, s) == {}) &&
    forall s: nat, j :: j in Repliers(w, s) ==> j < |w.nodes|
  }

  ghost predicate LeaderOk(w: World)
    requires |w.nodes| > 0
  {
    EndedOk(w) && RepliesOk(w)
  }

  ghost predicate MsgsOk(dig: Bytes -> Digest, w: World) {
    forall m :: m in w.net ==> MsgOk(dig, w, m)
  }

  ghost predicate PartsOk(dig: Bytes -> Digest, w: World) {
    forall s, i :: s in w.proposed && 0 <= i < |w.nodes| ==> PartOk(dig, w, s, i)
  }

  ghost predicate SlotsOk(dig: Bytes -> Digest, w: World) {
    forall s, to, from: nat :: s in w.proposed && 0 <= to < |w.nodes| ==> SlotOk(dig, w, s, to, from)
  }

  ghost predicate IsProposed(dig: Bytes -> Digest, w: World, d: Digest) {
    exists s :: s in w.proposed && D(dig, w, s) == d
  }

  predicate Knows(n: NodeState, d: Digest) {
    d in n.pool || Got(n.prepares, d) != [] || Got(n.commits, d) != [] || d in n.commitSent || d in n.replied
  }

  /** Nobody has heard of a digest or a round that was not proposed. */
  ghost predicate NoRumours(dig: Bytes -> Digest, w: World) {
    (forall i, d :: 0 <= i < |w.nodes| && Knows(w.nodes[i], d) ==> IsProposed(dig, w, d)) &&
    forall i: nat, s: nat :: s !in w.proposed ==> (i, s) !in w.prepared && (i, s) !in w.committed && (i, s) !in w.replied
  }

  ghost predicate Inv(dig: Bytes -> Digest, w: World) {
    Rounds(dig, w) && LeaderOk(w) && MsgsOk(dig, w) && PartsOk(dig, w) && SlotsOk(dig, w) && NoRumours(dig, w)
  }

  // ---------- what a step leaves alone ----------

  /** Apart from round `s`, the messages and what the nodes know are the same. */
  ghost predicate OnlyRound(dig: Bytes -> Digest, w: World, v: World, s: nat)
    requires s in w.proposed
  {
    v.proposed == w.proposed && |v.nodes| == |w.nodes| &&
    (forall m: Msg :: m.seqId != s ==> v.net[m] == w.net[m]) &&
    (forall i, x :: x != s ==> ((i, x) in v.prepared <==> (i, x) in w.prepared) &&
                               ((i, x) in v.committed <==> (i, x) in w.committed) &&
                               ((i, x) in v.replied <==> (i, x) in w.replied)) &&
    (forall x: nat :: x != s ==> Repliers(v, x) == Repliers(w, x) && (x in v.ended <==> x in w.ended)) &&
    forall i :: 0 <= i < |w.nodes| ==> SameBut(w.nodes[i], v.nodes[i], D(dig, w, s))
  }

  ghost predicate SameBut(n: NodeState, m: NodeState, d: Digest) {
    forall e :: e != d ==> (e in m.pool <==> e in n.pool) && Got(m.prepares, e) == Got(n.prepares, e) &&
                           Got(m.commits, e) == Got(n.commits, e) && (e in m.commitSent <==> e in n.commitSent) &&
                           (e in m.replied <==> e in n.replied)
  }

  lemma OtherPart(dig: Bytes -> Digest, w: World, v: World, s: nat, x: nat, i: nat)
    requires Rounds(dig, w) && s in w.proposed && x in w.proposed && x != s && i < |w.nodes|
    requires OnlyRound(dig, w, v, s) && PartOk(dig, w, x, i)
    ensures PartOk(dig, v, x, i)
  {
    assert D(dig, w, x) != D(dig, w, s);
    assert SameBut(w.nodes[i], v.nodes[i], D(dig, w, s));
  }

  lemma OtherSlot(dig: Bytes -> Digest, w: World, v: World, s: nat, x: nat, to: nat, from: nat)
    requires Rounds(dig, w) && s in w.proposed && x in w.proposed && x != s && to < |w.nodes|
    requires OnlyRound(dig, w, v, s) && SlotOk(dig, w, x, to, from)
    ensures SlotOk(dig, v, x, to, from)
  {
    assert D(dig, w, x) != D(dig, w, s);
    assert SameBut(w.nodes[to], v.nodes[to], D(dig, w, s));
  }

  /** It is enough to look at the round that changed. */
  lemma OneRound(dig: Bytes -> Digest, w: World, v: World, s: nat)
    requires Inv(dig, w) && s in w.proposed && OnlyRound(dig, w, v, s)
    requires forall i :: 0 <= i < |w.nodes| ==> PartOk(dig, v, s, i)
    requires forall to: nat, from: nat :: to < |w.nodes| ==> SlotOk(dig, v, s, to, from)
    ensures PartsOk(dig, v) && SlotsOk(dig, v) && NoRumours(dig, v)
  {
    hide PartOk, SlotOk, OnlyRound, Rounds, LeaderOk, MsgsOk, NoRumours;
    RumoursSame(dig, w, v, s);
    assert v.proposed == w.proposed && |v.nodes| == |w.nodes| by {
      SameRounds(dig, w, v, s);
    }
    forall x, i | x in v.proposed && 0 <= i < |v.nodes| ensures PartOk(dig, v, x, i) {
      if x != s {
        OtherPart(dig, w, v, s, x, i);
      }
    }
    forall x, to, from: nat | x in v.proposed && 0 <= to < |v.nodes| ensures SlotOk(dig, v, x, to, from) {
      if x != s {
        OtherSlot(dig, w, v, s, x, to, from);
      }
    }
  }

  lemma RumoursSame(dig: Bytes -> Digest, w: World, v: World, s: nat)
    requires s in w.proposed && OnlyRound(dig, w, v, s) && NoRumours(dig, w)
    ensures NoRumours(dig, v)
  {
    forall i, d | 0 <= i < |v.nodes| && Knows(v.nodes[i], d) ensures IsProposed(dig, v, d) {
      if d == D(dig, w, s) {
        assert D(dig, v, s) == d;
      } else {
        assert SameBut(w.nodes[i], v.nodes[i], D(dig, w, s));
        assert Knows(w.nodes[i], d);
        assert IsProposed(dig, w, d);
        var t :| t in w.proposed && D(dig, w, t) == d;
        assert D(dig, v, t) == d;
      }
    }
  }

  lemma SameRounds(dig: Bytes -> Digest, w: World, v: World, s: nat)
    requires s in w.proposed && OnlyRound(dig, w, v, s)
    ensures v.proposed == w.proposed && |v.nodes| == |w.nodes|
  {
  }
}
