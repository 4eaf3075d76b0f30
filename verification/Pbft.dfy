/**
  A node of the committee's consensus (pbft/messageHandle.go, pbft/pbft.go),
  with node 0 as the fixed primary; the message counts are those of section 4.2
  of "Practical Byzantine Fault Tolerance" (Castro and Liskov, OSDI 1999).
 */
module Pbft {
  import opened Bytes

  type Digest = Bytes

  const LEADER: nat := 0

  /** One message to one receiver. */
  datatype Msg =
    | PrePrepare(to: nat, request: Bytes, digest: Digest, seqId: nat)
    | Prepare(to: nat, from: nat, digest: Digest, seqId: nat)
    | Commit(to: nat, from: nat, digest: Digest, seqId: nat)
    | Reply(to: nat, from: nat, seqId: nat)

  datatype NodeState = NodeState(
    sequenceId: nat,
    pool: set<Digest>,               // `requestPool`
    prepares: map<Digest, seq<nat>>, // `cntPrepareConfirm`: senders of the counted messages
    commits: map<Digest, seq<nat>>,  // `cntCommitConfirm`
    commitSent: set<Digest>,         // `isCommitBordcast`
    replied: set<Digest>,            // `isReply`
    replyCnt: nat,
    enough: set<nat>)                // `gotEnoughReply`

  function MaliciousNums(nodes: nat): (f: nat)
    ensures nodes > 0 ==> 3 * f + 1 <= nodes < 3 * f + 4
  {
    if nodes == 0 then 0 else (nodes - 1) / 3
  }

  function Got(m: map<Digest, seq<nat>>, d: Digest): (s: seq<nat>) {
    if d in m then m[d] else []
  }

  /** `set2DMap`: every message is counted, whoever sent it. */
  function Count(m: map<Digest, seq<nat>>, d: Digest, from: nat): (r: map<Digest, seq<nat>>) {
    m[d := Got(m, d) + [from]]
  }

  // ---------- the handlers ----------

  function OnPropose(n: NodeState, d: Digest): (r: NodeState) {
    n.(pool := n.pool + {d})
  }

  function OnPrePrepare(n: NodeState, m: Msg, dig: Bytes -> Digest): (r: (NodeState, bool))
    requires m.PrePrepare?
  {
    var s := n.(sequenceId := m.seqId);
    if dig(m.request) != m.digest then (s, false) else (s.(pool := s.pool + {m.digest}), true)
  }

  /** How many prepares a node has to count before it commits; its own one is not among them. */
  function PreparesNeeded(id: nat, f: nat): (n: int) {
    if id == LEADER then 2 * f else 2 * f - 1
  }

  function OnPrepare(n: NodeState, id: nat, f: nat, m: Msg): (r: (NodeState, bool))
    requires m.Prepare?
  {
    if m.digest !in n.pool || n.sequenceId < m.seqId then (n, false)
    else
      var s := n.(prepares := Count(n.prepares, m.digest, m.from));
      if |s.prepares[m.digest]| >= PreparesNeeded(id, f) && m.digest !in s.commitSent
      then (s.(commitSent := s.commitSent + {m.digest}), true)
      else (s, false)
  }

  function OnCommit(n: NodeState, id: nat, f: nat, m: Msg): (r: (NodeState, bool))
    requires m.Commit?
  {
    var s := n.(commits := Count(n.commits, m.digest, m.from));
    if |s.commits[m.digest]| >= 2 * f && m.digest !in s.replied
    then (s.(replied := s.replied + {m.digest}, sequenceId := if id == LEADER then s.sequenceId else s.sequenceId + 1), true)
    else (s, false)
  }

  function OnReply(n: NodeState, id: nat, f: nat, m: Msg): (r: (NodeState, bool))
    requires m.Reply?
  {
    if id != LEADER || m.seqId in n.enough then (n, false)
    else if n.replyCnt + 1 >= 2 * f
    then (n.(replyCnt := 0, enough := n.enough + {m.seqId}, sequenceId := n.sequenceId + 1), true)
    else (n.(replyCnt := n.replyCnt + 1), false)
  }

  // ---------- whatever messages arrive ----------

  function Handle(n: NodeState, id: nat, f: nat, dig: Bytes -> Digest, m: Msg): (r: NodeState) {
    match m
    case PrePrepare(_, _, _, _) => OnPrePrepare(n, m, dig).0
    case Prepare(_, _, _, _) => OnPrepare(n, id, f, m).0
    case Commit(_, _, _, _) => OnCommit(n, id, f, m).0
    case Reply(_, _, _) => OnReply(n, id, f, m).0
  }

  function HandleAll(n: NodeState, id: nat, f: nat, dig: Bytes -> Digest, ms: seq<Msg>): (r: NodeState) {
    if ms == [] then n else Handle(HandleAll(n, id, f, dig, ms[..|ms| - 1]), id, f, dig, ms[|ms| - 1])
  }

  /** One of the messages brought a request with this digest, and named it rightly. */
  ghost predicate Brought(dig: Bytes -> Digest, ms: seq<Msg>, d: Digest) {
    exists i :: 0 <= i < |ms| && ms[i].PrePrepare? && ms[i].digest == d && dig(ms[i].request) == d
  }

  /**
    Forged messages included: a node knows a digest exactly if it knew it before
    or was brought its request, and it commits to nothing else.
   */
  lemma {:induction false} OnlyBrought(n: NodeState, id: nat, f: nat, dig: Bytes -> Digest, ms: seq<Msg>, d: Digest)
    ensures var r := HandleAll(n, id, f, dig, ms);
            (d in r.pool <==> d in n.pool || Brought(dig, ms, d)) &&
            (d in r.commitSent ==> d in n.commitSent || d in r.pool)
  {
    if ms != [] {
      var last := |ms| - 1;
      var front := ms[..last];
      OnlyBrought(n, id, f, dig, front, d);
      assert ms == front + [ms[last]];
      assert Brought(dig, front, d) ==> Brought(dig, ms, d) by {
        if i :| 0 <= i < |front| && front[i].PrePrepare? && front[i].digest == d && dig(front[i].request) == d {
          assert ms[i] == front[i];
        }
      }
    }
  }

  // ---------- the node ----------

  class PbftNode {
    const id: nat
    const maliciousNums: nat
    var sequenceId: nat
    var requestPool: set<Digest>
    var cntPrepareConfirm: map<Digest, seq<nat>>
    var cntCommitConfirm: map<Digest, seq<nat>>
    var isCommitBroadcast: set<Digest>
    var isReply: set<Digest>
    var replyCnt: nat
    var gotEnoughReply: set<nat>

    function State(): (s: NodeState)
      reads this
    {
      NodeState(sequenceId, requestPool, cntPrepareConfirm, cntCommitConfirm, isCommitBroadcast, isReply, replyCnt, gotEnoughReply)
    }

    constructor (node: nat, nodes: nat)
      ensures State() == NodeState(0, {}, map[], map[], {}, {}, 0, {}) && id == node &&
              maliciousNums == MaliciousNums(nodes)
    {
      id, maliciousNums := node, MaliciousNums(nodes);
      sequenceId, requestPool, cntPrepareConfirm, cntCommitConfirm := 0, {}, map[], map[];
      isCommitBroadcast, isReply, replyCnt, gotEnoughReply := {}, {}, 0, {};
    }

    /** `Reset` forgets everything but the sequence number. */
    method Reset()
      modifies this
      ensures State() == NodeState(old(sequenceId), {}, map[], map[], {}, {}, 0, {})
    {
      requestPool, cntPrepareConfirm, cntCommitConfirm := {}, map[], map[];
      isCommitBroadcast, isReply, replyCnt, gotEnoughReply := {}, {}, 0, {};
    }

    /** Before each proposal the number is set to that of the block; this waits for a running round. */
    method SetSequenceID(number: nat)
      modifies this
      ensures State() == old(State()).(sequenceId := number)
    {
      sequenceId := number;
    }

    /** Only the primary proposes; the round takes its current sequence number. */
    method Propose(request: Bytes, dig: Bytes -> Digest) returns (round: Option<nat>)
      modifies this
      ensures State() == if id == LEADER then OnPropose(old(State()), dig(request)) else old(State())
      ensures round == if id == LEADER then Some(old(sequenceId)) else None
    {
      round := None;
      if id == LEADER {
        requestPool := requestPool + {dig(request)};
        round := Some(sequenceId);
      }
    }

    /** The node adopts the primary's sequence number, so its own one is never behind the message's. */
    method HandlePrePrepare(m: Msg, dig: Bytes -> Digest) returns (prepare: bool)
      requires m.PrePrepare?
      modifies this
      ensures (State(), prepare) == OnPrePrepare(old(State()), m, dig)
    {
      sequenceId := m.seqId;
      prepare := false;
      if dig(m.request) == m.digest {
        prepare := true;
        requestPool := requestPool + {dig(m.request)};
      }
    }

    method HandlePrepare(m: Msg) returns (commit: bool)
      requires m.Prepare?
      modifies this
      ensures (State(), commit) == OnPrepare(old(State()), id, maliciousNums, m)
    {
      commit := false;
      if m.digest !in requestPool {
        return;
      } else if sequenceId < m.seqId {
        return;
      }
      cntPrepareConfirm := Count(cntPrepareConfirm, m.digest, m.from);
      var cnt := |Got(cntPrepareConfirm, m.digest)|;
      var specifiedcnt := 2 * maliciousNums;
      if id != LEADER {
        specifiedcnt := specifiedcnt - 1;
      }
      if cnt >= specifiedcnt && m.digest !in isCommitBroadcast {
        commit := true;
        isCommitBroadcast := isCommitBroadcast + {m.digest};
      }
    }

    /** Commits are counted even for a request this node never saw. */
    method HandleCommit(m: Msg) returns (done: bool)
      requires m.Commit?
      modifies this
      ensures (State(), done) == OnCommit(old(State()), id, maliciousNums, m)
    {
      done := false;
      cntCommitConfirm := Count(cntCommitConfirm, m.digest, m.from);
      var cnt := |Got(cntCommitConfirm, m.digest)|;
      if cnt >= 2 * maliciousNums && m.digest !in isReply {
        done := true;
        isReply := isReply + {m.digest};
        if id != LEADER {
          sequenceId := sequenceId + 1;
        }
      }
    }

    method HandleReply(m: Msg) returns (ended: bool)
      requires m.Reply?
      modifies this
      ensures (State(), ended) == OnReply(old(State()), id, maliciousNums, m)
    {
      ended := false;
      if id != LEADER {
        return;
      }
      if m.seqId in gotEnoughReply {
        return;
      }
      replyCnt := replyCnt + 1;
      if replyCnt >= 2 * maliciousNums {
        ended := true;
        replyCnt := 0;
        gotEnoughReply := gotEnoughReply + {m.seqId};
        sequenceId := sequenceId + 1;
      }
    }
  }
}
