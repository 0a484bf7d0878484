/** From acknowledgement to fail-over: what whoever a majority elects next holds
    of a quorum write. */
module Failover {
  import opened Records
  import opened Sets
  import opened Erasure
  import opened Replication
  import opened Queues
  import opened Durability
  import opened Completion
  import opened Retention
  import opened Survival
  import Following
  import opened Transactions
  import Election

  /** The databases of the Primary and its replicas. */
  ghost function Databases(s: Cluster, primary: NodeId): map<NodeId, Table> {
    (map n | n in s.nodes :: s.nodes[n].rows)[primary := s.rows]
  }

  ghost function Members(s: Cluster, primary: NodeId): set<NodeId> {
    s.nodes.Keys + {primary}
  }

  /** The write was acknowledged under majority quorum, all replicas clean. */
  ghost predicate MajorityWrite(w: QuorumWrite, primary: NodeId) {
    && Acked(w) && AllClean(w) && primary !in w.before.nodes
    && w.begin.required == RequiredReceipts(-1, |w.before.nodes| + 1)
  }

  /** From then on it is stored on a strict majority. */
  lemma MajorityStores(w: QuorumWrite, primary: NodeId) returns (holders: set<NodeId>)
    requires MajorityWrite(w, primary)
    ensures holders <= Members(w.now, primary) && |holders| >= 1 + |Members(w.now, primary)| / 2
    ensures Members(w.now, primary) <= Databases(w.now, primary).Keys
    ensures holders <= Election.Storing(Databases(w.now, primary), w.before.next, Written(w))
  {
    hide Acked, AllClean, HeldBy, Members, Databases, Election.Storing, Written, RowEvolves;
    QuorumAckDurable(w);
    assert |w.before.nodes| == |w.before.nodes.Keys| && |w.now.nodes| == |w.now.nodes.Keys|;
    holders := HeldWithPrimary(w.now, primary, w.ready.txn.value.acked, w.before.next, Written(w));
  }

  lemma HeldWithPrimary(s: Cluster, primary: NodeId, acked: set<NodeId>, rev: nat, row: Record) returns (holders: set<NodeId>)
    requires HeldBy(s, acked, RequiredReceipts(-1, |s.nodes| + 1), row) && row.revision == rev && primary !in s.nodes
    requires rev in s.rows && RowEvolves(row, s.rows[rev])
    ensures holders <= Members(s, primary) && |holders| >= 1 + |Members(s, primary)| / 2
    ensures Members(s, primary) <= Databases(s, primary).Keys
    ensures holders <= Election.Storing(Databases(s, primary), rev, row)
  {
    hide RowEvolves;
    holders := acked + {primary};
    assert |holders| == |acked| + 1;
    assert |Members(s, primary)| == |s.nodes.Keys| + 1 == |s.nodes| + 1;
  }

  /** At any later moment of the term, every election by a healthy majority
      without an Active node gives a winner at or above the revision. */
  lemma AckedWriteReachesNextPrimary(w: QuorumWrite, primary: NodeId, states: seq<Election.Candidate>, e: Election.Candidate)
    requires MajorityWrite(w, primary)
    requires Election.MajorityElection(Members(w.now, primary), Databases(w.now, primary), states, e)
    ensures e.latest >= w.before.next
  {
    hide MajorityWrite, Members, Databases, RowEvolves, Written, Acked;
    MajorityAcked(w, primary);
    var holders := MajorityStores(w, primary);
    Election.ElectedReachesQuorumWrites(Members(w.now, primary), holders, Databases(w.now, primary), w.before.next, states, e);
  }

  ghost predicate AllGapFree(rows: map<NodeId, Table>) {
    forall n | n in rows :: GapFree(rows[n], MaxRev(rows[n]))
  }

  /** With gap-free databases every winner then stores the acknowledged record,
      its value erased or not, if and only if no replica that can win stores
      another in its place. */
  lemma AckedRecordSurvivesIff(w: QuorumWrite, primary: NodeId)
    requires MajorityWrite(w, primary) && AllGapFree(Databases(w.now, primary))
    ensures Members(w.now, primary) <= Databases(w.now, primary).Keys
    ensures var nodes, rows := Members(w.now, primary), Databases(w.now, primary);
            Election.WinnersAmong(nodes, rows, Election.Storing(rows, w.before.next, Written(w))) <==>
            forall n | n in w.now.nodes && Election.CanWin(nodes, rows, n) :: StoredOnly(w.now.nodes[n], Written(w))
  {
    hide MajorityWrite, Acked, Written, Members, RowEvolves, Election.WinnersAmong, Election.CanWin;
    MajorityAcked(w, primary);
    var nodes, rows, rev, row := Members(w.now, primary), Databases(w.now, primary), w.before.next, Written(w);
    var holders := MajorityStores(w, primary);
    var good := Election.Storing(rows, rev, row);
    Election.WinnersAmongIff(nodes, rows, good);
    PrimaryStores(w, primary);
    forall n | n in w.now.nodes && Election.CanWin(nodes, rows, n) ensures n in good <==> StoredOnly(w.now.nodes[n], row) {
      CanWinStoresSome(nodes, holders, rows, rev, n);
    }
    CanWinIsMember(nodes, rows, w.now, primary);
  }

  /** And with its value, where the revision was new, if and only if no
      compaction at or above it ran on a node that can win while that node
      stored a newer row of its key, a rolled-back one included. */
  lemma AckedValueSurvivesIff(w: QuorumWrite, primary: NodeId)
    requires MajorityWrite(w, primary) && AllGapFree(Databases(w.now, primary)) && (MajorityAcked(w, primary); NewEverywhere(w))
    ensures Members(w.now, primary) <= Databases(w.now, primary).Keys
    ensures var nodes, rows := Members(w.now, primary), Databases(w.now, primary);
            Election.WinnersAmong(nodes, rows, Election.Intact(rows, w.before.next, Written(w))) <==>
            && (forall n | n in w.now.nodes && Election.CanWin(nodes, rows, n) :: !HitDuring(w, n))
            && (Election.CanWin(nodes, rows, primary) ==> !PrimaryHitIn(Step(w.ready, QuorumCommit(w.dropped)), w.rest, w.now, w.before.next))
  {
    hide MajorityWrite, Acked, Written, Members, HitDuring, PrimaryHitIn, Step, WellFormed, Run, RowEvolves, Election.WinnersAmong, Election.CanWin;
    MajorityAcked(w, primary);
    var nodes, rows, rev, row := Members(w.now, primary), Databases(w.now, primary), w.before.next, Written(w);
    var holders := MajorityStores(w, primary);
    var good := Election.Intact(rows, rev, row);
    Election.WinnersAmongIff(nodes, rows, good);
    PrimaryStores(w, primary);
    PrimaryValueIntactIff(w);
    forall n | n in w.now.nodes && Election.CanWin(nodes, rows, n) ensures n in good <==> !HitDuring(w, n) {
      CanWinStoresSome(nodes, holders, rows, rev, n);
      ReplicaIntactIff(w, n);
    }
    CanWinIsMember(nodes, rows, w.now, primary);
  }

  /** The revision was neither broadcast before nor stored on any replica. */
  ghost predicate NewEverywhere(w: QuorumWrite)
    requires Acked(w)
  {
    w.before.next !in w.before.sent && forall n | n in w.before.nodes :: w.before.next !in w.before.nodes[n].rows
  }

  lemma ReplicaIntactIff(w: QuorumWrite, n: NodeId)
    requires Acked(w) && NewEverywhere(w) && n in w.now.nodes && w.before.next in w.now.nodes[n].rows
    ensures w.now.nodes[n].rows[w.before.next] == Written(w) <==> !HitDuring(w, n)
  {
    hide Acked, Written, HitDuring;
    LogHasRow(w);
    ValueIntactIff(w, n);
  }

  lemma CanWinIsMember(nodes: set<NodeId>, rows: map<NodeId, Table>, s: Cluster, primary: NodeId)
    requires nodes == Members(s, primary) && nodes <= rows.Keys
    ensures forall n | Election.CanWin(nodes, rows, n) :: n in s.nodes || n == primary
  {
  }

  lemma MajorityAcked(w: QuorumWrite, primary: NodeId)
    requires MajorityWrite(w, primary)
    ensures Acked(w)
  {
  }

  lemma PrimaryStores(w: QuorumWrite, primary: NodeId)
    requires MajorityWrite(w, primary)
    ensures w.before.next in w.now.rows && RowEvolves(Written(w), w.now.rows[w.before.next]) && w.before.next > 0
    ensures primary !in w.now.nodes
  {
    hide RowEvolves, Clean, HeldBy;
    QuorumAckDurable(w);
  }

  /** Whoever can win reaches every revision a majority stores. */
  lemma CanWinStoresSome(nodes: set<NodeId>, holders: set<NodeId>, rows: map<NodeId, Table>, rev: nat, n: NodeId)
    requires nodes <= rows.Keys && Election.CanWin(nodes, rows, n) && AllGapFree(rows) && rev > 0
    requires holders <= nodes && |holders| >= 1 + |nodes| / 2 && forall k | k in holders :: rev in rows[k]
    ensures rev in rows[n]
  {
    var k := Election.MajoritiesMeet(nodes, holders, Election.NoHigher(nodes, rows, n));
    assert rev <= MaxRev(rows[k]) <= MaxRev(rows[n]);
  }

  /** So the next Primary stores the acknowledged record wherever no replica
      stored another of its revision when the write began. */
  lemma AckedRecordOnNextPrimary(s0: Cluster, past: seq<Event>, w: QuorumWrite, primary: NodeId)
    requires TermStart(s0) && Run(s0, past, w.before) && Happens(w) && w.before.next !in w.before.sent
    requires (AckedInTerm(s0, past, w); NoneStored(w)) && primary !in w.before.nodes
    requires w.begin.required == RequiredReceipts(-1, |w.before.nodes| + 1) && AllGapFree(Databases(w.now, primary))
    ensures Acked(w)
    ensures var rows := Databases(w.now, primary); Election.WinnersAmong(Members(w.now, primary), rows, Election.Storing(rows, w.before.next, Written(w)))
  {
    hide *;
    AckedInTerm(s0, past, w);
    FreshIsAllClean(w);
    IsMajorityWrite(w, primary);
    QuorumAckDurable(w);
    AckedRecordSurvivesIff(w, primary);
  }

  lemma IsMajorityWrite(w: QuorumWrite, primary: NodeId)
    requires Acked(w) && AllClean(w) && primary !in w.before.nodes && w.begin.required == RequiredReceipts(-1, |w.before.nodes| + 1)
    ensures MajorityWrite(w, primary)
  {
  }

  /** A follower in step has no gap. */
  lemma InStepGapFree(s: Cluster, n: NodeId, from: nat)
    requires Following.InStep(s, n, from)
    ensures GapFree(s.nodes[n].rows, MaxRev(s.nodes[n].rows))
  {
    hide Handle, Drain, RowEvolves;
    var f := s.nodes[n];
    var head := if f.committed + 1 in f.rows then f.committed + 1 else f.committed;
    MaxRevGapFree(f.rows, head);
  }

  // ---- Replicas in step complete a write ----

  lemma InStepIsLive(s: Cluster, begin: Event, n: NodeId, from: nat)
    requires Following.InStep(s, n, from) && from <= s.committed && begin.QuorumBegin? && Enabled(s, begin) && n !in begin.dropped
    ensures PrimaryInv(s) && Live(Step(s, begin), n)
  {
    hide Handle, Row, Drain;
    Following.StepKeepsInStep(s, begin, n, from);
    StepWellFormed(s, begin);
    var b := Step(s, begin);
    Following.AllLocalLast(b.nodes[n], b.down[n], b.log, b.committed, from);
  }

  /** Any replicas in step that are sent the record complete the write, if they
      are as many as it needs: they read their queues, store it and receipt it. */
  lemma InStepReplicasCompleteWrite(s: Cluster, begin: Event, ns: set<NodeId>, from: map<NodeId, nat>) returns (es: seq<Event>, s': Cluster)
    requires PrimaryInv(s) && begin.QuorumBegin? && Enabled(s, begin) && |ns| >= begin.required
    requires forall n | n in ns :: n in from && Following.InStep(s, n, from[n]) && from[n] <= s.committed && n !in begin.dropped
    ensures InFlight(Step(s, begin), es, s') && Enabled(s', QuorumCommit({}))
  {
    hide Step, Row, CanReceipt, InFlight, PrimaryInv, Following.InStep, Live, Clean;
    PrimaryWellFormed(s);
    BeginFacts(s, begin);
    forall n | n in ns ensures CanReceipt(Step(s, begin), n, s.next) {
      InStepIsLive(s, begin, n, from[n]);
      LiveInCluster(Step(s, begin), n);
      SentCanReceipt(s, begin, n);
    }
    es, s' := AllCounted(Step(s, begin), ns);
    if ns <= s'.txn.value.acked {
      SubsetCount(ns, s'.txn.value.acked);
    }
  }

  lemma LiveInCluster(s: Cluster, n: NodeId)
    requires Live(s, n)
    ensures n in s.nodes
  {
  }
}
