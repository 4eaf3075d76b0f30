/**
  When the committee moves on: a node commits, a node finishes and a round ends
  exactly with the messages counted, and with no message left on the way what
  has happened in a round is decided by who committed it.
 */
module PbftSettled {
  import opened Bytes
  import opened Pbft
  import opened PbftRuns
  import opened PbftInv

  // ---------- in every state ----------

  /** A node has broadcast its commit if and only if it counted a prepare, and 2f of them with its own one. */
  lemma CommittedExactly(dig: Bytes -> Digest, ws: seq<World>, es: seq<Event>, k: nat, i: nat, s: nat)
    requires Run(dig, ws, es) && k < |ws| && i < |ws[k].nodes| && s in ws[k].proposed
    ensures var n := |Got(ws[k].nodes[i].prepares, dig(ws[k].proposed[s]))|;
            (i, s) in ws[k].committed <==> n >= 1 && n + One(i != LEADER) >= 2 * F(ws[k])
    ensures Got(ws[k].nodes[i].prepares, dig(ws[k].proposed[s])) != [] ==> dig(ws[k].proposed[s]) in ws[k].nodes[i].pool
  {
    RunInv(dig, ws, es, k);
    hide Run, Inv;
    PartAt(dig, ws[k], s, i);
  }

  /** A node has finished the round if and only if it counted a commit, and 2f of them. */
  lemma RepliedExactly(dig: Bytes -> Digest, ws: seq<World>, es: seq<Event>, k: nat, i: nat, s: nat)
    requires Run(dig, ws, es) && k < |ws| && i < |ws[k].nodes| && s in ws[k].proposed
    ensures var n := |Got(ws[k].nodes[i].commits, dig(ws[k].proposed[s]))|;
            (i, s) in ws[k].replied <==> n >= 1 && n >= 2 * F(ws[k])
  {
    RunInv(dig, ws, es, k);
    hide Run, Inv;
    PartAt(dig, ws[k], s, i);
  }

  /** A round has ended if and only if the leader counted a reply, and replies of 2f different nodes. */
  lemma EndedExactly(dig: Bytes -> Digest, ws: seq<World>, es: seq<Event>, k: nat, s: nat)
    requires Run(dig, ws, es) && k < |ws|
    ensures s in ws[k].ended <==> |Repliers(ws[k], s)| >= 1 && |Repliers(ws[k], s)| >= 2 * F(ws[k])
  {
    RunInv(dig, ws, es, k);
    hide Run;
    EndedByReplies(dig, ws[k], s);
  }

  lemma EndedByReplies(dig: Bytes -> Digest, w: World, s: nat)
    requires Inv(dig, w)
    ensures s in w.ended <==> |Repliers(w, s)| >= 1 && |Repliers(w, s)| >= 2 * F(w)
  {
    hide MsgsOk, PartsOk, SlotsOk, NoRumours, Repliers;
    if s in w.rounds && s !in w.ended {
      assert w.locked && w.rounds == w.ended + [w.nodes[0].sequenceId];
    }
  }

  // ---------- members ----------

  /** Whoever prepared, committed or finished a round is a node of the committee. */
  ghost predicate Members(w: World) {
    forall i: nat, s: nat ::
      (i, s) in w.prepared || (i, s) in w.committed || (i, s) in w.replied ==> i < |w.nodes|
  }

  lemma {:induction false} RunMembers(dig: Bytes -> Digest, ws: seq<World>, es: seq<Event>, k: nat)
    requires Run(dig, ws, es) && k < |ws|
    ensures Members(ws[k])
  {
    if k > 0 {
      RunMembers(dig, ws, es, k - 1);
      StepMembers(dig, ws[k - 1], es[k - 1], ws[k]);
    }
  }

  lemma StepMembers(dig: Bytes -> Digest, w: World, e: Event, v: World)
    requires Members(w) && Step(dig, w, e, v)
    ensures Members(v)
  {
    hide OnPrePrepare, OnPrepare, OnCommit, OnReply, PrePrepares, Prepares, Commits, Repliers;
    if e.Deliver? {
      hide Members;
      DeliverMembers(dig, w, e.msg);
    }
  }

  lemma DeliverMembers(dig: Bytes -> Digest, w: World, m: Msg)
    requires Members(w) && m.to < |w.nodes|
    ensures Members(AfterDeliver(dig, w, m))
  {
    hide OnPrePrepare, OnPrepare, OnCommit, OnReply, PrePrepares, Prepares, Commits, Repliers;
    var v := AfterDeliver(dig, w, m);
    assert |v.nodes| == |w.nodes| && v.prepared <= w.prepared + {(m.to, m.seqId)} &&
           v.committed <= w.committed + {(m.to, m.seqId)} && v.replied <= w.replied + {(m.to, m.seqId)};
    hide AfterDeliver;
  }

  // ---------- with no message on the way ----------

  /** The nodes other than `i` in pairs of round `s`. */
  ghost function Others(w: World, pairs: set<(nat, nat)>, s: nat, i: nat): (r: set<nat>) {
    set j: nat | j < |w.nodes| && j != i && (j, s) in pairs
  }

  /** Then a node has counted the commits of all other nodes that committed. */
  lemma CommitsArrived(dig: Bytes -> Digest, w: World, i: nat, s: nat)
    requires Inv(dig, w) && Members(w) && w.net == multiset{} && i < |w.nodes| && s in w.proposed
    ensures |Got(w.nodes[i].commits, D(dig, w, s))| == |Others(w, w.committed, s, i)|
  {
    var l := Got(w.nodes[i].commits, D(dig, w, s));
    forall x: nat ensures Times(l, x) == One(x != i && (x, s) in w.committed) {
      hide Inv;
      SlotAt(dig, w, s, i, x);
    }
    hide Inv;
    DistinctSenders(l);
    forall x: nat ensures x in Senders(l) <==> x in Others(w, w.committed, s, i) {
      assert x in l <==> Times(l, x) > 0;
    }
    assert Senders(l) == Others(w, w.committed, s, i);
  }

  /** And the leader has counted the replies of all nodes that finished a round that has not ended. */
  lemma RepliesArrived(dig: Bytes -> Digest, w: World, s: nat)
    requires Inv(dig, w) && w.net == multiset{} && s in w.proposed
    ensures if s in w.ended then Repliers(w, s) <= Others(w, w.replied, s, LEADER)
            else Repliers(w, s) == Others(w, w.replied, s, LEADER)
  {
    forall j | j in Repliers(w, s) ensures j < |w.nodes| {
      hide MsgsOk, PartsOk, SlotsOk, NoRumours, Rounds;
    }
    hide Inv;
    forall j: nat | j < |w.nodes|
      ensures j in Repliers(w, s) ==> j in Others(w, w.replied, s, LEADER)
      ensures s !in w.ended && j in Others(w, w.replied, s, LEADER) ==> j in Repliers(w, s)
    {
      PartAt(dig, w, s, j);
    }
  }

  lemma {:induction false} Larger(a: set<nat>, b: set<nat>)
    requires a <= b
    ensures |a| <= |b|
  {
    if a != {} {
      var x :| x in a;
      Larger(a - {x}, b - {x});
    }
  }

  /**
    In a state of a run without messages, a node has finished a round if and only
    if another node, and 2f other nodes, committed it; and the round has ended if
    and only if a node, and 2f nodes besides the leader, finished it.
   */
  lemma Settled(dig: Bytes -> Digest, ws: seq<World>, es: seq<Event>, k: nat, s: nat)
    requires Run(dig, ws, es) && k < |ws| && ws[k].net == multiset{} && s in ws[k].proposed
    ensures var w := ws[k];
            forall i: nat :: i < |w.nodes| ==>
              ((i, s) in w.replied <==> |Others(w, w.committed, s, i)| >= 1 && |Others(w, w.committed, s, i)| >= 2 * F(w))
    ensures var w := ws[k]; var n := |Others(w, w.replied, s, LEADER)|;
            s in w.ended <==> n >= 1 && n >= 2 * F(w)
  {
    var w := ws[k];
    RunInv(dig, ws, es, k);
    RunMembers(dig, ws, es, k);
    hide Run, Inv, Members, Others, Repliers;
    forall i: nat | i < |w.nodes|
      ensures (i, s) in w.replied <==>
                |Others(w, w.committed, s, i)| >= 1 && |Others(w, w.committed, s, i)| >= 2 * F(w)
    {
      PartAt(dig, w, s, i);
      CommitsArrived(dig, w, i, s);
    }
    EndedByReplies(dig, w, s);
    RepliesArrived(dig, w, s);
    if s in w.ended {
      Larger(Repliers(w, s), Others(w, w.replied, s, LEADER));
    }
  }

  lemma {:induction false} CountUp(n: nat) returns (all: set<nat>)
    ensures |all| == n && forall j: nat :: j in all <==> j < n
  {
    all := {};
    if n > 0 {
      all := CountUp(n - 1);
      all := all + {n - 1};
    }
  }

  /** If all nodes but `i` are in pairs of the round, there are n - 1 of them. */
  lemma AllOthers(w: World, pairs: set<(nat, nat)>, s: nat, i: nat)
    requires i < |w.nodes| && forall j: nat :: j < |w.nodes| && j != i ==> (j, s) in pairs
    ensures |Others(w, pairs, s, i)| == |w.nodes| - 1
  {
    var all := CountUp(|w.nodes|);
    assert Others(w, pairs, s, i) == all - {i};
  }

  /** No round is stuck that all nodes committed: with no message on the way it has ended. */
  lemma NoneStuck(dig: Bytes -> Digest, ws: seq<World>, es: seq<Event>, k: nat, s: nat)
    requires Run(dig, ws, es) && k < |ws| && ws[k].net == multiset{} && |ws[k].nodes| > 1 && s in ws[k].proposed
    requires forall i: nat :: i < |ws[k].nodes| ==> (i, s) in ws[k].committed
    ensures s in ws[k].ended && forall i: nat :: i < |ws[k].nodes| ==> (i, s) in ws[k].replied
  {
    var w := ws[k];
    Settled(dig, ws, es, k, s);
    hide Run, Others;
    forall i: nat | i < |w.nodes| ensures (i, s) in w.replied {
      AllOthers(w, w.committed, s, i);
    }
    AllOthers(w, w.replied, s, LEADER);
  }

  /** So when all nodes committed every round, the sequence lock is free. */
  lemma Unlocked(dig: Bytes -> Digest, ws: seq<World>, es: seq<Event>, k: nat)
    requires Run(dig, ws, es) && k < |ws| && ws[k].net == multiset{} && |ws[k].nodes| > 1
    requires forall s: nat, i: nat :: s in ws[k].proposed && i < |ws[k].nodes| ==> (i, s) in ws[k].committed
    ensures !ws[k].locked && ws[k].ended == ws[k].rounds
  {
    var w := ws[k];
    RunInv(dig, ws, es, k);
    assert w.rounds != [] ==> w.rounds[|w.rounds| - 1] in w.rounds;
    forall s: nat | s in w.rounds ensures s in w.ended {
      hide PartsOk, SlotsOk, NoRumours, MsgsOk, LeaderOk, Run;
      NoneStuck(dig, ws, es, k, s);
    }
    hide PartsOk, SlotsOk, NoRumours, MsgsOk, Run;
  }

  /** A committee of one node never ends a round. */
  lemma AloneNeverEnds(dig: Bytes -> Digest, ws: seq<World>, es: seq<Event>, k: nat)
    requires Run(dig, ws, es) && k < |ws| && |ws[k].nodes| == 1
    ensures ws[k].ended == []
  {
    RunInv(dig, ws, es, k);
    hide Run, Inv;
    assert ws[k].ended != [] ==> ws[k].ended[0] in ws[k].ended;
    forall s: nat ensures s !in ws[k].ended {
      EndedByReplies(dig, ws[k], s);
      AloneNoReplies(dig, ws[k], s);
    }
  }

  lemma AloneNoReplies(dig: Bytes -> Digest, w: World, s: nat)
    requires Inv(dig, w) && |w.nodes| == 1
    ensures Repliers(w, s) == {}
  {
    if s in w.proposed {
      assert PartOk(dig, w, s, LEADER);
    }
    hide MsgsOk, PartsOk, SlotsOk, NoRumours, Rounds;
  }
}
