/**
  Every step of a run keeps the invariant of module `PbftRuns`, and what follows
  from it.
 */
module PbftInv {
  import opened Bytes
  import opened Pbft
  import opened PbftRuns

  // ---------- broadcasts ----------

  lemma PrePreparesCount(n: nat, request: Bytes, d: Digest, s: nat, m: Msg)
    ensures PrePrepares(n, request, d, s)[m] == One(m.to < n && m.to != LEADER && m == PrePrepare(m.to, request, d, s))
  {
    if m.to < n && m.to != LEADER && m == PrePrepare(m.to, request, d, s) {
      assert m in (set to: nat | 0 <= to < n && to != LEADER :: PrePrepare(to, request, d, s));
    }
  }

  lemma PreparesCount(n: nat, from: nat, d: Digest, s: nat, m: Msg)
    ensures Prepares(n, from, d, s)[m] == One(m.to < n && m.to != from && m == Prepare(m.to, from, d, s))
  {
    if m.to < n && m.to != from && m == Prepare(m.to, from, d, s) {
      assert m in (set to: nat | 0 <= to < n && to != from :: Prepare(to, from, d, s));
    }
  }

  lemma CommitsCount(n: nat, from: nat, d: Digest, s: nat, m: Msg)
    ensures Commits(n, from, d, s)[m] == One(m.to < n && m.to != from && m == Commit(m.to, from, d, s))
  {
    if m.to < n && m.to != from && m == Commit(m.to, from, d, s) {
      assert m in (set to: nat | 0 <= to < n && to != from :: Commit(to, from, d, s));
    }
  }

  lemma PartAt(dig: Bytes -> Digest, w: World, s: nat, i: nat)
    requires Inv(dig, w) && s in w.proposed && i < |w.nodes|
    ensures PartOk(dig, w, s, i)
  {
    hide PartOk, SlotOk;
  }

  lemma SlotAt(dig: Bytes -> Digest, w: World, s: nat, to: nat, from: nat)
    requires Inv(dig, w) && s in w.proposed && to < |w.nodes|
    ensures SlotOk(dig, w, s, to, from)
  {
    hide PartOk, SlotOk;
  }

  /** A step that does not touch the leader's round. */
  lemma LeaderSame(dig: Bytes -> Digest, w: World, v: World)
    requires Rounds(dig, w) && LeaderOk(w) && |v.nodes| == |w.nodes|
    requires v.locked == w.locked && v.rounds == w.rounds && v.proposed == w.proposed &&
             v.repliers == w.repliers && v.ended == w.ended
    requires v.nodes[0].sequenceId == w.nodes[0].sequenceId && v.nodes[0].enough == w.nodes[0].enough
    requires v.nodes[0].replyCnt == w.nodes[0].replyCnt
    ensures Rounds(dig, v) && LeaderOk(v)
  {
    assert forall s :: Repliers(v, s) == Repliers(w, s);
    assert forall s :: s in w.proposed ==> D(dig, v, s) == D(dig, w, s);
  }

  lemma SameNodes(w: World, d: Digest)
    ensures forall i :: 0 <= i < |w.nodes| ==> SameBut(w.nodes[i], w.nodes[i], d)
  {
  }

  // ---------- a pre-prepare arrives ----------

  /** What the invariant says about the message, and what delivering it changes. */
  lemma PrePrepareShape(dig: Bytes -> Digest, w: World, m: Msg)
    requires Inv(dig, w) && m in w.net && m.PrePrepare? && m.to < |w.nodes|
    ensures var i, s, v := m.to, m.seqId, AfterDeliver(dig, w, m);
            s in w.proposed && m == PrePrepare(i, w.proposed[s], D(dig, w, s), s) && i != LEADER && (i, s) !in w.prepared &&
            v == w.(nodes := v.nodes, net := v.net, prepared := w.prepared + {(i, s)}) &&
            v.nodes == w.nodes[i := w.nodes[i].(sequenceId := s, pool := w.nodes[i].pool + {m.digest})] &&
            v.net == w.net - multiset{m} + Prepares(|w.nodes|, i, m.digest, s)
  {
    assert MsgOk(dig, w, m) && PartOk(dig, w, m.seqId, m.to);
    hide Prepares;
  }

  lemma PrePrepareNet(dig: Bytes -> Digest, w: World, m: Msg, x: Msg)
    requires Inv(dig, w) && m in w.net && m.PrePrepare? && m.to < |w.nodes|
    ensures AfterDeliver(dig, w, m).net[x] ==
            w.net[x] - One(x == m) + One(x.to < |w.nodes| && x.to != m.to && x == Prepare(x.to, m.to, m.digest, m.seqId))
  {
    PrePrepareShape(dig, w, m);
    PreparesCount(|w.nodes|, m.to, m.digest, m.seqId, x);
    hide Prepares, Inv, AfterDeliver;
  }

  lemma PrePrepareOnly(dig: Bytes -> Digest, w: World, m: Msg)
    requires Inv(dig, w) && m in w.net && m.PrePrepare? && m.to < |w.nodes|
    ensures m.seqId in w.proposed && OnlyRound(dig, w, AfterDeliver(dig, w, m), m.seqId)
  {
    hide Inv, AfterDeliver;
    PrePrepareShape(dig, w, m);
    var v := AfterDeliver(dig, w, m);
    forall x: Msg | x.seqId != m.seqId ensures v.net[x] == w.net[x] {
      PrePrepareNet(dig, w, m, x);
    }
  }

  lemma PrePreparePart(dig: Bytes -> Digest, w: World, m: Msg, j: nat)
    requires Inv(dig, w) && m in w.net && m.PrePrepare? && m.to < |w.nodes| && j < |w.nodes|
    ensures m.seqId in w.proposed && PartOk(dig, AfterDeliver(dig, w, m), m.seqId, j)
  {
    hide Inv, AfterDeliver;
    PrePrepareShape(dig, w, m);
    var s := m.seqId;
    PartAt(dig, w, s, j);
    PrePrepareNet(dig, w, m, PrePrepare(j, w.proposed[s], D(dig, w, s), s));
    PrePrepareNet(dig, w, m, Reply(LEADER, j, s));
  }

  lemma PrePrepareSlot(dig: Bytes -> Digest, w: World, m: Msg, to: nat, from: nat)
    requires Inv(dig, w) && m in w.net && m.PrePrepare? && m.to < |w.nodes| && to < |w.nodes|
    ensures m.seqId in w.proposed && SlotOk(dig, AfterDeliver(dig, w, m), m.seqId, to, from)
  {
    hide Inv, AfterDeliver;
    PrePrepareShape(dig, w, m);
    var s := m.seqId;
    SlotAt(dig, w, s, to, from);
    PrePrepareNet(dig, w, m, Prepare(to, from, D(dig, w, s), s));
    PrePrepareNet(dig, w, m, Commit(to, from, D(dig, w, s), s));
  }

  lemma PrePrepareKeeps(dig: Bytes -> Digest, w: World, m: Msg)
    requires Inv(dig, w) && m in w.net && m.PrePrepare? && m.to < |w.nodes|
    ensures Inv(dig, AfterDeliver(dig, w, m))
  {
    PrePrepareShape(dig, w, m);
    PrePrepareOnly(dig, w, m);
    var v := AfterDeliver(dig, w, m);
    hide AfterDeliver, OnlyRound, PartOk, SlotOk, NoRumours;
    forall j | 0 <= j < |w.nodes| ensures PartOk(dig, v, m.seqId, j) {
      PrePreparePart(dig, w, m, j);
    }
    forall to: nat, from: nat | to < |w.nodes| ensures SlotOk(dig, v, m.seqId, to, from) {
      PrePrepareSlot(dig, w, m, to, from);
    }
    OneRound(dig, w, v, m.seqId);
    LeaderSame(dig, w, v);
    hide Rounds, LeaderOk, PartsOk, SlotsOk, NoRumours;
    forall x | x in v.net ensures MsgOk(dig, v, x) {
      PrePrepareNet(dig, w, m, x);
      assert x in w.net ==> MsgOk(dig, w, x);
    }
  }

  // ---------- a prepare arrives ----------

  /** What counting a prepare changes in a node. */
  lemma OnPrepareChanges(n: NodeState, id: nat, f: nat, m: Msg)
    requires m.Prepare?
    ensures var (k, sent) := OnPrepare(n, id, f, m);
            SameBut(n, k, m.digest) && k == n.(prepares := k.prepares, commitSent := k.commitSent) &&
            (m.digest in k.commitSent <==> m.digest in n.commitSent || sent) &&
            ((k == n && !sent && (m.digest !in n.pool || n.sequenceId < m.seqId)) ||
             (m.digest in n.pool && m.seqId <= n.sequenceId && Got(k.prepares, m.digest) == Got(n.prepares, m.digest) + [m.from] &&
              (sent <==> m.digest !in n.commitSent &&
                         |Got(k.prepares, m.digest)| >= if id == LEADER then 2 * f else 2 * f - 1)))
  {
  }

  /** What counting a commit changes in a node. */
  lemma OnCommitChanges(n: NodeState, id: nat, f: nat, m: Msg)
    requires m.Commit?
    ensures var (k, done) := OnCommit(n, id, f, m);
            SameBut(n, k, m.digest) && k == n.(commits := k.commits, replied := k.replied, sequenceId := k.sequenceId) &&
            (id == LEADER ==> k.sequenceId == n.sequenceId) &&
            Got(k.commits, m.digest) == Got(n.commits, m.digest) + [m.from] &&
            (m.digest in k.replied <==> m.digest in n.replied || done) &&
            (done <==> m.digest !in n.replied && |Got(k.commits, m.digest)| >= 2 * f)
  {
  }

  lemma TimesMore(l: seq<nat>, from: nat, x: nat)
    ensures multiset(l + [from])[x] == multiset(l)[x] + One(x == from)
  {
  }

  /** Refused, counted, or counted and followed by a commit. */
  lemma PrepareShape(dig: Bytes -> Digest, w: World, m: Msg)
    requires Inv(dig, w) && m in w.net && m.Prepare? && m.to < |w.nodes|
    ensures var i, s, v := m.to, m.seqId, AfterDeliver(dig, w, m);
            var n, k := w.nodes[i], OnPrepare(w.nodes[i], i, F(w), m);
            s in w.proposed && m == Prepare(i, m.from, D(dig, w, s), s) &&
            v == w.(nodes := w.nodes[i := k.0], net := v.net, committed := if k.1 then w.committed + {(i, s)} else w.committed) &&
            v.net == w.net - multiset{m} + (if k.1 then Commits(|w.nodes|, i, m.digest, s) else multiset{})
  {
    assert MsgOk(dig, w, m);
    hide Commits;
  }

  lemma PrepareNet(dig: Bytes -> Digest, w: World, m: Msg, x: Msg)
    requires Inv(dig, w) && m in w.net && m.Prepare? && m.to < |w.nodes|
    ensures var sent := OnPrepare(w.nodes[m.to], m.to, F(w), m).1;
            AfterDeliver(dig, w, m).net[x] == w.net[x] - One(x == m) +
              One(sent && x.to < |w.nodes| && x.to != m.to && x == Commit(x.to, m.to, m.digest, m.seqId))
  {
    PrepareShape(dig, w, m);
    CommitsCount(|w.nodes|, m.to, m.digest, m.seqId, x);
    hide Commits, Inv, AfterDeliver, OnPrepare;
  }

  lemma PrepareOnly(dig: Bytes -> Digest, w: World, m: Msg)
    requires Inv(dig, w) && m in w.net && m.Prepare? && m.to < |w.nodes|
    ensures m.seqId in w.proposed && OnlyRound(dig, w, AfterDeliver(dig, w, m), m.seqId)
  {
    hide Inv, AfterDeliver, OnPrepare, SameBut;
    PrepareShape(dig, w, m);
    var v := AfterDeliver(dig, w, m);
    OnPrepareChanges(w.nodes[m.to], m.to, F(w), m);
    SameNodes(w, m.digest);
    forall x: Msg | x.seqId != m.seqId ensures v.net[x] == w.net[x] {
      PrepareNet(dig, w, m, x);
    }
  }

  lemma PreparePart(dig: Bytes -> Digest, w: World, m: Msg, j: nat)
    requires Inv(dig, w) && m in w.net && m.Prepare? && m.to < |w.nodes| && j < |w.nodes|
    ensures m.seqId in w.proposed && PartOk(dig, AfterDeliver(dig, w, m), m.seqId, j)
  {
    hide Inv, AfterDeliver, OnPrepare, SameBut;
    PrepareShape(dig, w, m);
    var s := m.seqId;
    PartAt(dig, w, s, j);
    PrepareNet(dig, w, m, PrePrepare(j, w.proposed[s], D(dig, w, s), s));
    PrepareNet(dig, w, m, Reply(LEADER, j, s));
    OnPrepareChanges(w.nodes[m.to], m.to, F(w), m);
  }

  lemma PrepareSlot(dig: Bytes -> Digest, w: World, m: Msg, to: nat, from: nat)
    requires Inv(dig, w) && m in w.net && m.Prepare? && m.to < |w.nodes| && to < |w.nodes|
    ensures m.seqId in w.proposed && SlotOk(dig, AfterDeliver(dig, w, m), m.seqId, to, from)
  {
    hide Inv, AfterDeliver, PrepareSlotOk, CommitSlotOk;
    CountedPrepare(dig, w, m, to, from);
    SentCommit(dig, w, m, to, from);
  }

  lemma CountedPrepare(dig: Bytes -> Digest, w: World, m: Msg, to: nat, from: nat)
    requires Inv(dig, w) && m in w.net && m.Prepare? && m.to < |w.nodes| && to < |w.nodes|
    ensures m.seqId in w.proposed && AfterDeliver(dig, w, m).proposed == w.proposed &&
            |AfterDeliver(dig, w, m).nodes| == |w.nodes| &&
            PrepareSlotOk(dig, AfterDeliver(dig, w, m), m.seqId, to, from)
  {
    hide Inv, AfterDeliver, OnPrepare, SameBut, CommitSlotOk;
    PrepareShape(dig, w, m);
    SlotAt(dig, w, m.seqId, to, from);
    OnPrepareChanges(w.nodes[m.to], m.to, F(w), m);
    PrepareNet(dig, w, m, Prepare(to, from, D(dig, w, m.seqId), m.seqId));
    TimesMore(Got(w.nodes[m.to].prepares, m.digest), m.from, from);
  }

  lemma SentCommit(dig: Bytes -> Digest, w: World, m: Msg, to: nat, from: nat)
    requires Inv(dig, w) && m in w.net && m.Prepare? && m.to < |w.nodes| && to < |w.nodes|
    ensures m.seqId in w.proposed && AfterDeliver(dig, w, m).proposed == w.proposed &&
            |AfterDeliver(dig, w, m).nodes| == |w.nodes| &&
            CommitSlotOk(dig, AfterDeliver(dig, w, m), m.seqId, to, from)
  {
    hide Inv, AfterDeliver, OnPrepare, SameBut, PrepareSlotOk;
    PrepareShape(dig, w, m);
    SlotAt(dig, w, m.seqId, to, from);
    OnPrepareChanges(w.nodes[m.to], m.to, F(w), m);
    NotCommitted(dig, w, m);
    PrepareNet(dig, w, m, Commit(to, from, D(dig, w, m.seqId), m.seqId));
  }

  /** A node commits a round once. */
  lemma NotCommitted(dig: Bytes -> Digest, w: World, m: Msg)
    requires Inv(dig, w) && m in w.net && m.Prepare? && m.to < |w.nodes|
    ensures OnPrepare(w.nodes[m.to], m.to, F(w), m).1 ==> (m.to, m.seqId) !in w.committed
  {
    hide Inv, AfterDeliver, OnPrepare, SameBut;
    PrepareShape(dig, w, m);
    PartAt(dig, w, m.seqId, m.to);
    OnPrepareChanges(w.nodes[m.to], m.to, F(w), m);
  }

  lemma SlotParts(dig: Bytes -> Digest, w: World, s: nat, to: nat, from: nat)
    requires s in w.proposed && to < |w.nodes| && PrepareSlotOk(dig, w, s, to, from) &&
             CommitSlotOk(dig, w, s, to, from)
    ensures SlotOk(dig, w, s, to, from)
  {
  }

  lemma PrepareKeeps(dig: Bytes -> Digest, w: World, m: Msg)
    requires Inv(dig, w) && m in w.net && m.Prepare? && m.to < |w.nodes|
    ensures Inv(dig, AfterDeliver(dig, w, m))
  {
    PrepareShape(dig, w, m);
    PrepareOnly(dig, w, m);
    OnPrepareChanges(w.nodes[m.to], m.to, F(w), m);
    hide OnPrepare;
    var v := AfterDeliver(dig, w, m);
    hide AfterDeliver, OnlyRound, PartOk, SlotOk, NoRumours;
    forall j | 0 <= j < |w.nodes| ensures PartOk(dig, v, m.seqId, j) {
      PreparePart(dig, w, m, j);
    }
    forall to: nat, from: nat | to < |w.nodes| ensures SlotOk(dig, v, m.seqId, to, from) {
      PrepareSlot(dig, w, m, to, from);
    }
    OneRound(dig, w, v, m.seqId);
    LeaderSame(dig, w, v);
    hide Rounds, LeaderOk, PartsOk, SlotsOk, NoRumours;
    forall x | x in v.net ensures MsgOk(dig, v, x) {
      PrepareNet(dig, w, m, x);
      assert x in w.net ==> MsgOk(dig, w, x);
    }
  }

  // ---------- a commit arrives ----------

  lemma CommitShape(dig: Bytes -> Digest, w: World, m: Msg)
    requires Inv(dig, w) && m in w.net && m.Commit? && m.to < |w.nodes|
    ensures var i, s, v := m.to, m.seqId, AfterDeliver(dig, w, m);
            var n, k := w.nodes[i], OnCommit(w.nodes[i], i, F(w), m);
            s in w.proposed && m == Commit(i, m.from, D(dig, w, s), s) &&
            v == w.(nodes := w.nodes[i := k.0], net := v.net, replied := if k.1 then w.replied + {(i, s)} else w.replied) &&
            v.net == w.net - multiset{m} + (if k.1 && i != LEADER then multiset{Reply(LEADER, i, s)} else multiset{})
  {
    assert MsgOk(dig, w, m);
  }

  lemma CommitNet(dig: Bytes -> Digest, w: World, m: Msg, x: Msg)
    requires Inv(dig, w) && m in w.net && m.Commit? && m.to < |w.nodes|
    ensures var sent := OnCommit(w.nodes[m.to], m.to, F(w), m).1;
            AfterDeliver(dig, w, m).net[x] ==
              w.net[x] - One(x == m) + One(sent && m.to != LEADER && x == Reply(LEADER, m.to, m.seqId))
  {
    CommitShape(dig, w, m);
    hide Inv, AfterDeliver, OnCommit;
  }

  lemma CommitOnly(dig: Bytes -> Digest, w: World, m: Msg)
    requires Inv(dig, w) && m in w.net && m.Commit? && m.to < |w.nodes|
    ensures m.seqId in w.proposed && OnlyRound(dig, w, AfterDeliver(dig, w, m), m.seqId)
  {
    hide Inv, AfterDeliver, OnCommit, SameBut;
    CommitShape(dig, w, m);
    var v := AfterDeliver(dig, w, m);
    OnCommitChanges(w.nodes[m.to], m.to, F(w), m);
    SameNodes(w, m.digest);
    forall x: Msg | x.seqId != m.seqId ensures v.net[x] == w.net[x] {
      CommitNet(dig, w, m, x);
    }
  }

  lemma CommitPart(dig: Bytes -> Digest, w: World, m: Msg, j: nat)
    requires Inv(dig, w) && m in w.net && m.Commit? && m.to < |w.nodes| && j < |w.nodes|
    ensures m.seqId in w.proposed && PartOk(dig, AfterDeliver(dig, w, m), m.seqId, j)
  {
    hide Inv, AfterDeliver, OnCommit, SameBut;
    CommitShape(dig, w, m);
    var s := m.seqId;
    PartAt(dig, w, s, j);
    CommitNet(dig, w, m, PrePrepare(j, w.proposed[s], D(dig, w, s), s));
    CommitNet(dig, w, m, Reply(LEADER, j, s));
    OnCommitChanges(w.nodes[m.to], m.to, F(w), m);
  }

  lemma CommitSlot(dig: Bytes -> Digest, w: World, m: Msg, to: nat, from: nat)
    requires Inv(dig, w) && m in w.net && m.Commit? && m.to < |w.nodes| && to < |w.nodes|
    ensures m.seqId in w.proposed && SlotOk(dig, AfterDeliver(dig, w, m), m.seqId, to, from)
  {
    hide Inv, AfterDeliver, OnCommit, SameBut, PartOk;
    CommitShape(dig, w, m);
    var s, v := m.seqId, AfterDeliver(dig, w, m);
    SlotAt(dig, w, s, to, from);
    OnCommitChanges(w.nodes[m.to], m.to, F(w), m);
    assert PrepareSlotOk(dig, v, s, to, from) by {
      hide CommitSlotOk;
      CommitNet(dig, w, m, Prepare(to, from, D(dig, w, s), s));
    }
    assert CommitSlotOk(dig, v, s, to, from) by {
      hide PrepareSlotOk;
      CommitNet(dig, w, m, Commit(to, from, D(dig, w, s), s));
      TimesMore(Got(w.nodes[m.to].commits, m.digest), m.from, from);
    }
    hide PrepareSlotOk, CommitSlotOk, SlotOk;
    SlotParts(dig, v, s, to, from);
  }

  lemma CommitKeeps(dig: Bytes -> Digest, w: World, m: Msg)
    requires Inv(dig, w) && m in w.net && m.Commit? && m.to < |w.nodes|
    ensures Inv(dig, AfterDeliver(dig, w, m))
  {
    CommitShape(dig, w, m);
    CommitOnly(dig, w, m);
    OnCommitChanges(w.nodes[m.to], m.to, F(w), m);
    hide OnCommit;
    var v := AfterDeliver(dig, w, m);
    hide AfterDeliver, OnlyRound, PartOk, SlotOk, NoRumours;
    forall j | 0 <= j < |w.nodes| ensures PartOk(dig, v, m.seqId, j) {
      CommitPart(dig, w, m, j);
    }
    forall to: nat, from: nat | to < |w.nodes| ensures SlotOk(dig, v, m.seqId, to, from) {
      CommitSlot(dig, w, m, to, from);
    }
    OneRound(dig, w, v, m.seqId);
    LeaderSame(dig, w, v);
    hide Rounds, LeaderOk, PartsOk, SlotsOk, NoRumours;
    forall x | x in v.net ensures MsgOk(dig, v, x) {
      CommitNet(dig, w, m, x);
      assert x in w.net ==> MsgOk(dig, w, x);
    }
  }

  // ---------- a reply arrives ----------

  lemma ReplyShape(dig: Bytes -> Digest, w: World, m: Msg)
    requires Inv(dig, w) && m in w.net && m.Reply? && m.to < |w.nodes|
    ensures var s, v, k := m.seqId, AfterDeliver(dig, w, m), OnReply(w.nodes[0], LEADER, F(w), m);
            var l := w.nodes[0];
            m == Reply(LEADER, m.from, s) && s in w.proposed && m.from !in Repliers(w, s) &&
            (s in l.enough <==> s in w.ended) && (s !in l.enough ==> s == l.sequenceId && w.locked) &&
            v == w.(nodes := w.nodes[0 := k.0], net := w.net - multiset{m},
                    repliers := if s in l.enough then w.repliers else w.repliers[s := Repliers(w, s) + {m.from}],
                    ended := if k.1 then w.ended + [s] else w.ended, locked := w.locked && !k.1)
  {
    assert MsgOk(dig, w, m);
    ReplierKnown(dig, w, m);
  }

  /** A reply comes from a node of the committee, and was not counted before. */
  lemma ReplierKnown(dig: Bytes -> Digest, w: World, m: Msg)
    requires Inv(dig, w) && m in w.net && m.Reply? && m.to < |w.nodes|
    ensures m.from < |w.nodes| && m.from !in Repliers(w, m.seqId)
  {
    assert MsgOk(dig, w, m);
    assert PartOk(dig, w, m.seqId, m.from);
  }

  lemma ReplyNet(dig: Bytes -> Digest, w: World, m: Msg, x: Msg)
    requires Inv(dig, w) && m in w.net && m.Reply? && m.to < |w.nodes|
    ensures AfterDeliver(dig, w, m).net[x] == w.net[x] - One(x == m)
  {
    ReplyShape(dig, w, m);
    hide Inv, AfterDeliver, OnReply;
  }

  lemma ReplyOnly(dig: Bytes -> Digest, w: World, m: Msg)
    requires Inv(dig, w) && m in w.net && m.Reply? && m.to < |w.nodes|
    ensures m.seqId in w.proposed && OnlyRound(dig, w, AfterDeliver(dig, w, m), m.seqId)
  {
    hide Inv, AfterDeliver;
    ReplyShape(dig, w, m);
    var v := AfterDeliver(dig, w, m);
    forall x: Msg | x.seqId != m.seqId ensures v.net[x] == w.net[x] {
      ReplyNet(dig, w, m, x);
    }
  }

  lemma ReplyPart(dig: Bytes -> Digest, w: World, m: Msg, j: nat)
    requires Inv(dig, w) && m in w.net && m.Reply? && m.to < |w.nodes| && j < |w.nodes|
    ensures m.seqId in w.proposed && PartOk(dig, AfterDeliver(dig, w, m), m.seqId, j)
  {
    hide Inv, AfterDeliver;
    ReplyShape(dig, w, m);
    var s := m.seqId;
    PartAt(dig, w, s, j);
    ReplyNet(dig, w, m, PrePrepare(j, w.proposed[s], D(dig, w, s), s));
    ReplyNet(dig, w, m, Reply(LEADER, j, s));
  }

  lemma ReplySlot(dig: Bytes -> Digest, w: World, m: Msg, to: nat, from: nat)
    requires Inv(dig, w) && m in w.net && m.Reply? && m.to < |w.nodes| && to < |w.nodes|
    ensures m.seqId in w.proposed && SlotOk(dig, AfterDeliver(dig, w, m), m.seqId, to, from)
  {
    hide Inv, AfterDeliver;
    ReplyShape(dig, w, m);
    var s := m.seqId;
    SlotAt(dig, w, s, to, from);
    ReplyNet(dig, w, m, Prepare(to, from, D(dig, w, s), s));
    ReplyNet(dig, w, m, Commit(to, from, D(dig, w, s), s));
  }

  lemma ReplyRounds(dig: Bytes -> Digest, w: World, m: Msg)
    requires Inv(dig, w) && m in w.net && m.Reply? && m.to < |w.nodes|
    ensures Rounds(dig, AfterDeliver(dig, w, m))
  {
    hide AfterDeliver, MsgsOk, PartsOk, SlotsOk, NoRumours, LeaderOk, Repliers;
    ReplyShape(dig, w, m);
    var v := AfterDeliver(dig, w, m);
    assert forall x :: x in w.proposed ==> D(dig, v, x) == D(dig, w, x);
  }

  /** The round ends exactly when its counted replies are 2f (or the first one, when f is zero). */
  lemma ReplyLeader(dig: Bytes -> Digest, w: World, m: Msg)
    requires Inv(dig, w) && m in w.net && m.Reply? && m.to < |w.nodes|
    ensures |w.nodes| > 0 && LeaderOk(AfterDeliver(dig, w, m))
  {
    hide AfterDeliver, MsgsOk, PartsOk, SlotsOk, NoRumours, LeaderOk, OnReply;
    ReplyShape(dig, w, m);
    ReplierKnown(dig, w, m);
    var v, s, l := AfterDeliver(dig, w, m), m.seqId, w.nodes[0];
    OnReplyChanges(l, F(w), m);
    if s in l.enough {
      LeaderSame(dig, w, v);
    } else {
      hide Rounds;
      RunningCounted(dig, w, v, m.from);
    }
  }

  lemma OnReplyChanges(n: NodeState, f: nat, m: Msg)
    requires m.Reply?
    ensures var (k, done) := OnReply(n, LEADER, f, m);
            if m.seqId in n.enough then k == n && !done
            else (done <==> n.replyCnt + 1 >= 2 * f) &&
                 k == if done then n.(replyCnt := 0, enough := n.enough + {m.seqId}, sequenceId := n.sequenceId + 1)
                      else n.(replyCnt := n.replyCnt + 1)
  {
  }

  /** `v` is `w` after a reply to the running round was counted. */
  ghost predicate Counted(w: World, v: World, from: nat)
    requires |w.nodes| == |v.nodes| > 0
  {
    var l, s := w.nodes[0], w.nodes[0].sequenceId;
    v.rounds == w.rounds && v.proposed == w.proposed && v.repliers == w.repliers[s := Repliers(w, s) + {from}] &&
    if l.replyCnt + 1 >= 2 * F(w)
    then !v.locked && v.ended == w.ended + [s] &&
         v.nodes[0] == l.(replyCnt := 0, enough := l.enough + {s}, sequenceId := s + 1)
    else v.locked && v.ended == w.ended && v.nodes[0] == l.(replyCnt := l.replyCnt + 1)
  }

  lemma RunningCounted(dig: Bytes -> Digest, w: World, v: World, from: nat)
    requires Rounds(dig, w) && LeaderOk(w) && w.locked && from < |w.nodes| == |v.nodes|
    requires from !in Repliers(w, w.nodes[0].sequenceId) && Counted(w, v, from)
    ensures LeaderOk(v)
  {
    assert w.nodes[0].sequenceId in w.proposed && w.rounds == Earlier(w) + [w.nodes[0].sequenceId];
    hide Rounds;
    EndedCounted(w, v, from);
    RepliesCounted(w, v, from);
  }

  lemma EndedCounted(w: World, v: World, from: nat)
    requires |w.nodes| == |v.nodes| > 0 && EndedOk(w) && w.locked && Counted(w, v, from)
    requires w.rounds == Earlier(w) + [w.nodes[0].sequenceId]
    ensures EndedOk(v)
  {
    hide Repliers;
  }

  lemma RepliesCounted(w: World, v: World, from: nat)
    requires from < |w.nodes| == |v.nodes| && RepliesOk(w) && w.locked && Counted(w, v, from)
    requires w.nodes[0].sequenceId in w.proposed && from !in Repliers(w, w.nodes[0].sequenceId)
    ensures RepliesOk(v)
  {
    var s := w.nodes[0].sequenceId;
    assert Repliers(v, s) == Repliers(w, s) + {from};
    assert forall x: nat :: x != s ==> Repliers(v, x) == Repliers(w, x);
    hide Repliers;
  }

  lemma ReplyKeeps(dig: Bytes -> Digest, w: World, m: Msg)
    requires Inv(dig, w) && m in w.net && m.Reply? && m.to < |w.nodes|
    ensures Inv(dig, AfterDeliver(dig, w, m))
  {
    ReplyShape(dig, w, m);
    ReplyOnly(dig, w, m);
    ReplyRounds(dig, w, m);
    ReplyLeader(dig, w, m);
    var v := AfterDeliver(dig, w, m);
    hide AfterDeliver, OnlyRound, PartOk, SlotOk, NoRumours, Rounds, LeaderOk;
    forall j | 0 <= j < |w.nodes| ensures PartOk(dig, v, m.seqId, j) {
      ReplyPart(dig, w, m, j);
    }
    forall to: nat, from: nat | to < |w.nodes| ensures SlotOk(dig, v, m.seqId, to, from) {
      ReplySlot(dig, w, m, to, from);
    }
    OneRound(dig, w, v, m.seqId);
    hide PartsOk, SlotsOk, OnReply;
    forall x | x in v.net ensures MsgOk(dig, v, x) {
      ReplyNet(dig, w, m, x);
      assert MsgOk(dig, w, x);
    }
  }

  // ---------- the leader proposes ----------

  /** Nothing about the new round exists yet. */
  lemma NewRound(dig: Bytes -> Digest, w: World, request: Bytes, s: nat)
    requires Inv(dig, w) && CanPropose(dig, w, request) && s == w.nodes[0].sequenceId
    ensures s !in w.proposed && Repliers(w, s) == {}
    ensures forall m :: m in w.net ==> m.seqId != s
    ensures forall i :: 0 <= i < |w.nodes| ==> !Knows(w.nodes[i], dig(request))
    ensures forall i: nat :: (i, s) !in w.prepared && (i, s) !in w.committed && (i, s) !in w.replied
  {
    hide PartsOk, SlotsOk;
    assert s !in w.proposed;
    forall m | m in w.net ensures m.seqId != s {
      assert MsgOk(dig, w, m);
    }
    assert !IsProposed(dig, w, dig(request));
  }

  lemma ProposeNet(dig: Bytes -> Digest, w: World, request: Bytes, x: Msg)
    requires |w.nodes| > 0
    ensures var s := w.nodes[0].sequenceId;
            AfterPropose(dig, w, request).net[x] == w.net[x] +
              One(x.to < |w.nodes| && x.to != LEADER && x == PrePrepare(x.to, request, dig(request), s))
  {
    PrePreparesCount(|w.nodes|, request, dig(request), w.nodes[0].sequenceId, x);
    hide PrePrepares;
  }

  lemma ProposeOld(dig: Bytes -> Digest, w: World, request: Bytes, x: nat, i: nat, from: nat)
    requires Inv(dig, w) && CanPropose(dig, w, request) && x in w.proposed && i < |w.nodes|
    ensures x in AfterPropose(dig, w, request).proposed
    ensures PartOk(dig, AfterPropose(dig, w, request), x, i) && SlotOk(dig, AfterPropose(dig, w, request), x, i, from)
  {
    var v := AfterPropose(dig, w, request);
    hide Inv, PrePrepares;
    NewRound(dig, w, request, w.nodes[0].sequenceId);
    PartAt(dig, w, x, i);
    SlotAt(dig, w, x, i, from);
    assert D(dig, v, x) == D(dig, w, x) != dig(request);
    ProposeNet(dig, w, request, PrePrepare(i, w.proposed[x], D(dig, w, x), x));
    ProposeNet(dig, w, request, Reply(LEADER, i, x));
    ProposeNet(dig, w, request, Prepare(i, from, D(dig, w, x), x));
    ProposeNet(dig, w, request, Commit(i, from, D(dig, w, x), x));
    hide CanPropose;
    assert PartOk(dig, v, x, i) by {
      hide SlotOk;
    }
    hide PartOk;
  }

  lemma ProposeNew(dig: Bytes -> Digest, w: World, request: Bytes, i: nat, from: nat)
    requires Inv(dig, w) && CanPropose(dig, w, request) && i < |w.nodes|
    ensures var v, s := AfterPropose(dig, w, request), w.nodes[0].sequenceId;
            s in v.proposed && PartOk(dig, v, s, i) && SlotOk(dig, v, s, i, from)
  {
    var s := w.nodes[0].sequenceId;
    var v, d := AfterPropose(dig, w, request), dig(request);
    NewRound(dig, w, request, s);
    ProposeNet(dig, w, request, PrePrepare(i, request, d, s));
    ProposeNet(dig, w, request, Reply(LEADER, i, s));
    ProposeNet(dig, w, request, Prepare(i, from, d, s));
    ProposeNet(dig, w, request, Commit(i, from, d, s));
    assert !Knows(w.nodes[i], d);
    hide Inv, CanPropose, PrePrepares;
  }

  lemma ProposeRest(dig: Bytes -> Digest, w: World, request: Bytes)
    requires Inv(dig, w) && CanPropose(dig, w, request)
    ensures var v := AfterPropose(dig, w, request); Rounds(dig, v) && LeaderOk(v)
  {
    hide PartsOk, SlotsOk, MsgsOk, NoRumours, PrePrepares, Rounds, LeaderOk;
    ProposeRounds(dig, w, request);
    ProposeLeader(dig, w, request);
  }

  lemma ProposeRounds(dig: Bytes -> Digest, w: World, request: Bytes)
    requires Rounds(dig, w) && CanPropose(dig, w, request)
    ensures Rounds(dig, AfterPropose(dig, w, request))
  {
    hide PrePrepares;
    var v := AfterPropose(dig, w, request);
    assert forall x :: x in w.proposed ==> x in v.proposed && D(dig, v, x) == D(dig, w, x);
    assert forall i :: 0 <= i < |w.rounds| ==> w.rounds[i] in w.proposed;
  }

  lemma ProposeLeader(dig: Bytes -> Digest, w: World, request: Bytes)
    requires CanPropose(dig, w, request) && LeaderOk(w)
    ensures LeaderOk(AfterPropose(dig, w, request))
  {
    hide PrePrepares;
    var v := AfterPropose(dig, w, request);
    assert forall x :: Repliers(v, x) == Repliers(w, x);
    assert Earlier(v) == w.rounds;
    hide Repliers;
  }

  lemma ProposeMsgs(dig: Bytes -> Digest, w: World, request: Bytes)
    requires Inv(dig, w) && CanPropose(dig, w, request)
    ensures MsgsOk(dig, AfterPropose(dig, w, request))
  {
    var v, s := AfterPropose(dig, w, request), w.nodes[0].sequenceId;
    NewRound(dig, w, request, s);
    hide PartsOk, SlotsOk, NoRumours, Rounds, LeaderOk, PrePrepares;
    forall m | m in v.net ensures MsgOk(dig, v, m) {
      ProposeNet(dig, w, request, m);
      assert m in w.net ==> MsgOk(dig, w, m);
    }
  }

  lemma ProposeRumours(dig: Bytes -> Digest, w: World, request: Bytes)
    requires Inv(dig, w) && CanPropose(dig, w, request)
    ensures NoRumours(dig, AfterPropose(dig, w, request))
  {
    var v, s := AfterPropose(dig, w, request), w.nodes[0].sequenceId;
    NewRound(dig, w, request, s);
    hide PartsOk, SlotsOk, PrePrepares, LeaderOk, MsgsOk;
    forall i, d | 0 <= i < |v.nodes| && Knows(v.nodes[i], d) ensures IsProposed(dig, v, d) {
      if d == dig(request) {
        assert D(dig, v, s) == d;
      } else {
        assert Knows(w.nodes[i], d);
        assert IsProposed(dig, w, d);
        var t :| t in w.proposed && D(dig, w, t) == d;
        assert D(dig, v, t) == d;
      }
    }
  }

  lemma ProposeKeeps(dig: Bytes -> Digest, w: World, request: Bytes)
    requires Inv(dig, w) && CanPropose(dig, w, request)
    ensures Inv(dig, AfterPropose(dig, w, request))
  {
    var v, s := AfterPropose(dig, w, request), w.nodes[0].sequenceId;
    ProposeRest(dig, w, request);
    ProposeMsgs(dig, w, request);
    ProposeRumours(dig, w, request);
    hide PartOk, SlotOk, Rounds, LeaderOk, MsgsOk, NoRumours, PrePrepares;
    forall x, i | x in v.proposed && 0 <= i < |v.nodes| ensures PartOk(dig, v, x, i) {
      if x in w.proposed {
        ProposeOld(dig, w, request, x, i, 0);
      } else {
        ProposeNew(dig, w, request, i, 0);
      }
    }
    forall x, to, from: nat | x in v.proposed && 0 <= to < |v.nodes| ensures SlotOk(dig, v, x, to, from) {
      if x in w.proposed {
        ProposeOld(dig, w, request, x, to, from);
      } else {
        ProposeNew(dig, w, request, to, from);
      }
    }
  }

  // ---------- the number is set ----------

  lemma SetKeeps(dig: Bytes -> Digest, w: World, number: nat)
    requires Inv(dig, w) && CanSet(w)
    ensures Inv(dig, AfterSet(w, number))
  {
    var v := AfterSet(w, number);
    assert forall x :: x in w.proposed ==> D(dig, v, x) == D(dig, w, x);
    assert forall x :: Repliers(v, x) == Repliers(w, x);
    SetParts(dig, w, number);
    SetRumours(dig, w, number);
    hide PartsOk, SlotsOk, NoRumours;
    forall m | m in v.net ensures MsgOk(dig, v, m) {
      assert MsgOk(dig, w, m);
    }
  }

  lemma SetParts(dig: Bytes -> Digest, w: World, number: nat)
    requires PartsOk(dig, w) && SlotsOk(dig, w) && |w.nodes| > 0
    ensures PartsOk(dig, AfterSet(w, number)) && SlotsOk(dig, AfterSet(w, number))
  {
    var v := AfterSet(w, number);
    forall s, i | s in v.proposed && 0 <= i < |v.nodes| ensures PartOk(dig, v, s, i) {
      assert PartOk(dig, w, s, i);
    }
    forall s, to, from: nat | s in v.proposed && 0 <= to < |v.nodes| ensures SlotOk(dig, v, s, to, from) {
      assert SlotOk(dig, w, s, to, from);
    }
  }

  lemma SetRumours(dig: Bytes -> Digest, w: World, number: nat)
    requires NoRumours(dig, w) && |w.nodes| > 0
    ensures NoRumours(dig, AfterSet(w, number))
  {
    var v := AfterSet(w, number);
    forall i, d | 0 <= i < |v.nodes| && Knows(v.nodes[i], d) ensures IsProposed(dig, v, d) {
      assert Knows(w.nodes[i], d) && IsProposed(dig, w, d);
      var t :| t in w.proposed && D(dig, w, t) == d;
      assert D(dig, v, t) == d;
    }
  }

  // ---------- runs ----------

  lemma InitInv(dig: Bytes -> Digest, w: World)
    requires Init(w)
    ensures Inv(dig, w)
  {
  }

  lemma StepKeeps(dig: Bytes -> Digest, w: World, e: Event, v: World)
    requires Inv(dig, w) && Step(dig, w, e, v)
    ensures Inv(dig, v)
  {
    hide Inv, AfterDeliver, AfterPropose, CanPropose, AfterSet;
    match e
    case SetSequence(number) => SetKeeps(dig, w, number);
    case Propose(request) => ProposeKeeps(dig, w, request);
    case Deliver(m) =>
      match m {
        case PrePrepare(_, _, _, _) => PrePrepareKeeps(dig, w, m);
        case Prepare(_, _, _, _) => PrepareKeeps(dig, w, m);
        case Commit(_, _, _, _) => CommitKeeps(dig, w, m);
        case Reply(_, _, _) => ReplyKeeps(dig, w, m);
      }
  }

  lemma {:induction false} RunInv(dig: Bytes -> Digest, ws: seq<World>, es: seq<Event>, k: nat)
    requires Run(dig, ws, es) && k < |ws|
    ensures Inv(dig, ws[k])
  {
    hide Inv, Init, Step;
    if k == 0 {
      InitInv(dig, ws[0]);
    } else {
      RunInv(dig, ws, es, k - 1);
      StepKeeps(dig, ws[k - 1], es[k - 1], ws[k]);
    }
  }

  // ---------- quorums ----------

  ghost function Senders(l: seq<nat>): (s: set<nat>) {
    set x | x in l
  }

  function Times(l: seq<nat>, x: nat): (n: nat) {
    multiset(l)[x]
  }

  lemma MemberCount(l: seq<nat>, x: nat)
    requires x in l
    ensures Times(l, x) >= 1
  {
  }

  lemma {:induction false} DistinctSenders(l: seq<nat>)
    requires forall x :: Times(l, x) <= 1
    ensures |Senders(l)| == |l|
  {
    if l != [] {
      var n := |l| - 1;
      var front, last := l[..n], l[n];
      assert l == front + [last];
      assert multiset(l) == multiset(front) + multiset{last};
      assert forall x :: Times(front, x) <= Times(l, x);
      DistinctSenders(front);
      assert Times(l, last) == Times(front, last) + 1;
      assert last !in front;
      assert Senders(l) == Senders(front) + {last};
    }
  }

  /** The senders of the prepares a node counted in a round: different, other nodes, and all of them prepared. */
  lemma Preparers(dig: Bytes -> Digest, w: World, i: nat, s: nat) returns (p: set<nat>)
    requires Inv(dig, w) && s in w.proposed && i < |w.nodes|
    ensures |p| == |Got(w.nodes[i].prepares, D(dig, w, s))| && i !in p && forall x :: x in p ==> (x, s) in w.prepared
  {
    var l := Got(w.nodes[i].prepares, D(dig, w, s));
    forall x: nat ensures Times(l, x) <= One(x != i && (x, s) in w.prepared) {
      assert SlotOk(dig, w, s, i, x);
    }
    hide Inv;
    p := Senders(l);
    DistinctSenders(l);
    forall x | x in p ensures x != i && (x, s) in w.prepared {
      MemberCount(l, x);
    }
  }

  lemma Committers(dig: Bytes -> Digest, w: World, i: nat, s: nat) returns (c: set<nat>)
    requires Inv(dig, w) && s in w.proposed && i < |w.nodes|
    ensures |c| == |Got(w.nodes[i].commits, D(dig, w, s))| && i !in c && forall x :: x in c ==> (x, s) in w.committed
  {
    var l := Got(w.nodes[i].commits, D(dig, w, s));
    forall x: nat ensures Times(l, x) <= One(x != i && (x, s) in w.committed) {
      assert SlotOk(dig, w, s, i, x);
    }
    hide Inv;
    c := Senders(l);
    DistinctSenders(l);
    forall x | x in c ensures x != i && (x, s) in w.committed {
      MemberCount(l, x);
    }
  }

  /** The leader never prepares. */
  lemma LeaderNeverPrepares(dig: Bytes -> Digest, w: World, s: nat)
    requires Inv(dig, w) && s in w.proposed
    ensures (LEADER, s) !in w.prepared
  {
    assert PartOk(dig, w, s, LEADER);
  }

  /** A node broadcasts a commit only after 2f different non-leaders prepared the round, itself among them unless it leads. */
  lemma CommitQuorum(dig: Bytes -> Digest, ws: seq<World>, es: seq<Event>, k: nat, i: nat, s: nat) returns (p: set<nat>)
    requires Run(dig, ws, es) && k < |ws| && i < |ws[k].nodes| && s in ws[k].proposed && (i, s) in ws[k].committed
    ensures |p| >= 2 * F(ws[k]) && LEADER !in p && (forall x :: x in p ==> (x, s) in ws[k].prepared)
    ensures i != LEADER ==> i in p
  {
    RunInv(dig, ws, es, k);
    hide Run;
    var w := ws[k];
    assert PartOk(dig, w, s, i);
    LeaderNeverPrepares(dig, w, s);
    p := Preparers(dig, w, i, s);
    if i != LEADER {
      p := p + {i};
    }
  }

  /** A node finishes a round only after 2f different other nodes broadcast their commit for it. */
  lemma ReplyQuorum(dig: Bytes -> Digest, ws: seq<World>, es: seq<Event>, k: nat, i: nat, s: nat) returns (c: set<nat>)
    requires Run(dig, ws, es) && k < |ws| && i < |ws[k].nodes| && s in ws[k].proposed && (i, s) in ws[k].replied
    ensures |c| >= 2 * F(ws[k]) && i !in c && forall x :: x in c ==> (x, s) in ws[k].committed
  {
    RunInv(dig, ws, es, k);
    hide Run;
    assert PartOk(dig, ws[k], s, i);
    c := Committers(dig, ws[k], i, s);
  }

  /**
    The leader ends the rounds in the order they were proposed, each once and
    each before the next one is proposed, each after replies of 2f different
    nodes that finished it.
   */
  lemma RoundsEnd(dig: Bytes -> Digest, ws: seq<World>, es: seq<Event>, k: nat, s: nat)
    requires Run(dig, ws, es) && k < |ws|
    ensures ws[k].ended <= ws[k].rounds && |ws[k].rounds| == |ws[k].ended| + One(ws[k].locked)
    ensures forall i, j :: 0 <= i < j < |ws[k].rounds| ==> ws[k].rounds[i] != ws[k].rounds[j]
    ensures s in ws[k].ended ==> s in ws[k].proposed && |Repliers(ws[k], s)| >= 2 * F(ws[k])
    ensures s in ws[k].ended ==> forall j :: j in Repliers(ws[k], s) ==> j != LEADER && (j, s) in ws[k].replied
  {
    RunInv(dig, ws, es, k);
    hide Run;
    var w := ws[k];
    if s in w.ended {
      assert s in w.rounds;
      forall j | j in Repliers(w, s) ensures j != LEADER && (j, s) in w.replied {
        PartAt(dig, w, s, j);
      }
    }
  }

  // ---------- numbers that never go back ----------

  /** The caller's numbers are block numbers: none is below the leader's own one. */
  ghost predicate NeverBack(ws: seq<World>, es: seq<Event>)
    requires |ws| == |es| + 1
  {
    forall k :: 0 <= k < |es| && es[k].SetSequence? && |ws[k].nodes| > 0 ==> es[k].number >= ws[k].nodes[0].sequenceId
  }

  /** All rounds so far have lower numbers than the next one. */
  ghost predicate Lower(w: World) {
    |w.nodes| > 0 && forall s :: s in w.proposed ==> s < w.nodes[0].sequenceId || (w.locked && s == w.nodes[0].sequenceId)
  }

  /** With such numbers the next one is always new, and rounds are proposed in increasing order. */
  lemma {:induction false} NumbersRise(dig: Bytes -> Digest, ws: seq<World>, es: seq<Event>, k: nat)
    requires Run(dig, ws, es) && k < |ws| && NeverBack(ws, es)
    ensures Lower(ws[k]) && (!ws[k].locked ==> ws[k].nodes[0].sequenceId !in ws[k].proposed)
    ensures forall i, j :: 0 <= i < j < |ws[k].rounds| ==> ws[k].rounds[i] < ws[k].rounds[j]
  {
    RunInv(dig, ws, es, k);
    if k > 0 {
      NumbersRise(dig, ws, es, k - 1);
      RunInv(dig, ws, es, k - 1);
      RiseStep(dig, ws[k - 1], es[k - 1], ws[k]);
    }
  }

  lemma RiseStep(dig: Bytes -> Digest, w: World, e: Event, v: World)
    requires Inv(dig, w) && Step(dig, w, e, v) && Lower(w)
    requires forall i, j :: 0 <= i < j < |w.rounds| ==> w.rounds[i] < w.rounds[j]
    requires e.SetSequence? ==> e.number >= w.nodes[0].sequenceId
    ensures Lower(v) && forall i, j :: 0 <= i < j < |v.rounds| ==> v.rounds[i] < v.rounds[j]
  {
    hide MsgsOk, PartsOk, SlotsOk, NoRumours, LeaderOk, AfterDeliver, PrePrepares;
    match e
    case SetSequence(number) =>
    case Propose(request) =>
      hide Lower;
      RiseOnPropose(dig, w, request);
    case Deliver(m) =>
      LeaderNumber(dig, w, m);
      hide Rounds;
  }

  lemma RiseOnPropose(dig: Bytes -> Digest, w: World, request: Bytes)
    requires Rounds(dig, w) && CanPropose(dig, w, request) && Lower(w)
    requires forall i, j :: 0 <= i < j < |w.rounds| ==> w.rounds[i] < w.rounds[j]
    ensures var v := AfterPropose(dig, w, request);
            Lower(v) && forall i, j :: 0 <= i < j < |v.rounds| ==> v.rounds[i] < v.rounds[j]
  {
    hide PrePrepares;
    assert forall i :: 0 <= i < |w.rounds| ==> w.rounds[i] in w.proposed;
  }

  /** A delivery leaves the leader's number alone, or ends its round. */
  lemma LeaderNumber(dig: Bytes -> Digest, w: World, m: Msg)
    requires Inv(dig, w) && m in w.net && m.to < |w.nodes|
    ensures var v := AfterDeliver(dig, w, m);
            v.rounds == w.rounds && v.proposed == w.proposed && |v.nodes| == |w.nodes| > 0 &&
            if v.locked == w.locked then v.nodes[0].sequenceId == w.nodes[0].sequenceId
            else w.locked && v.nodes[0].sequenceId == w.nodes[0].sequenceId + 1
  {
    match m {
      case PrePrepare(_, _, _, _) => PrePrepareShape(dig, w, m);
      case Prepare(_, _, _, _) =>
        PrepareShape(dig, w, m);
        OnPrepareChanges(w.nodes[m.to], m.to, F(w), m);
      case Commit(_, _, _, _) =>
        CommitShape(dig, w, m);
        OnCommitChanges(w.nodes[m.to], m.to, F(w), m);
      case Reply(_, _, _) => ReplyShape(dig, w, m);
    }
  }
}
