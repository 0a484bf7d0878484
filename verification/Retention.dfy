/** What becomes of an acknowledged row on the Primary and the replicas for the
    rest of the term: it stays, and its value stays or is erased. */
module Retention {
  import opened Records
  import opened Erasure
  import opened Replicate
  import opened Replication
  import opened Queues
  import opened Durability
  import opened Completion

  /** No other row of the revision is read by `n`. */
  ghost predicate QueuedOnly(s: Cluster, n: NodeId, row: Record) {
    n in s.nodes && n in s.down && PositiveRevisions(s.down[n]) && OthersUnread(s.nodes[n], s.down[n], row)
  }

  /** No event broadcasts another row at the revision. */
  ghost predicate NoOther(s: Cluster, e: Event, row: Record)
    requires Enabled(s, e)
  {
    (e.SyncWrite? || e.QuorumBegin?) && s.next == row.revision ==> Row(s, e).value == row
  }

  lemma StepKeeps(s: Cluster, e: Event, n: NodeId, row: Record)
    requires WellFormed(s) && Enabled(s, e) && NoOther(s, e, row) && row.revision >= 0 && QueuedOnly(s, n, row)
    ensures var s' := Step(s, e); s'.nodes.Keys == s.nodes.Keys && QueuedOnly(s', n, row) && Keeps(s.nodes[n], s'.nodes[n], row)
  {
    hide Keeps, Row, Clean, WellFormed, QueuedOnly, Handle, Executed, Broadcast;
    InQueue(s, n, row);
    if e.Read? {
      ReadKeeps(s, e.node, n, row);
    } else if e.ReplicaExecutes? || e.Reopen? {
      AsideKeeps(s, e, n, row);
    } else {
      BroadcastKeeps(s, e, n, row);
      KeepsItself(s.nodes[n], row);
    }
  }

  lemma InQueue(s: Cluster, n: NodeId, row: Record)
    requires QueuedOnly(s, n, row)
    ensures n in s.nodes && n in s.down
  {
  }

  lemma ReadKeeps(s: Cluster, k: NodeId, n: NodeId, row: Record)
    requires WellFormed(s) && Enabled(s, Read(k)) && row.revision >= 0 && QueuedOnly(s, n, row)
    ensures var s' := Step(s, Read(k));
            s'.nodes.Keys == s.nodes.Keys && QueuedOnly(s', n, row) && Keeps(s.nodes[n], s'.nodes[n], row)
  {
    hide Handle, Keeps, OthersUnread, Indexed, AsWritten;
    QueueLess(s.down[k]);
    if k == n {
      UnreadRead(s.nodes[n], s.down[n], row);
      HandleKeeps(s.nodes[n], s.down[n][0], row);
    } else {
      KeepsItself(s.nodes[n], row);
    }
  }

  lemma AsideKeeps(s: Cluster, e: Event, n: NodeId, row: Record)
    requires WellFormed(s) && Enabled(s, e) && (e.ReplicaExecutes? || e.Reopen?) && row.revision >= 0 && QueuedOnly(s, n, row)
    ensures var s' := Step(s, e); s'.nodes.Keys == s.nodes.Keys && QueuedOnly(s', n, row) && Keeps(s.nodes[n], s'.nodes[n], row)
  {
    hide Executed, Compact, Keeps, OthersUnread, Indexed;
    var f, q := s.nodes[n], s.down[n];
    if e.node != n {
      KeepsItself(f, row);
    } else if e.ReplicaExecutes? {
      ExecutedIsErased(f, e.i, e.at);
      UnreadErased(f, Executed(f, e.i, e.at), q, row);
      ExecutedKeeps(f, e.i, e.at, row);
    } else {
      NewQueue(s.committed);
      UnreadAbsent(Reconnected(f), [Initial(s.committed)], row);
      ReconnectedKeeps(f, row);
    }
  }

  /** Broadcasts add no other row, and nothing else touches the queue. */
  lemma BroadcastKeeps(s: Cluster, e: Event, n: NodeId, row: Record)
    requires WellFormed(s) && Enabled(s, e) && NoOther(s, e, row) && QueuedOnly(s, n, row)
    requires !e.Read? && !e.ReplicaExecutes? && !e.Reopen?
    ensures var s' := Step(s, e); s'.nodes == s.nodes && QueuedOnly(s', n, row)
  {
    hide QueuedOnly, WellFormed, Clean, Compact, Row, Broadcast;
    if e.SyncWrite? {
      RowRevision(s, e);
      var m, t := RecordMsg(Row(s, e).value), s.(down := Broadcast(s.down, RecordMsg(Row(s, e).value), e.dropped));
      SendKeeps(s, t, m, e.dropped, n, row);
      SendKeeps(t, Step(s, e), Commit(s.next), e.commitDropped, n, row);
    } else if e.QuorumBegin? {
      RowRevision(s, e);
      SendKeeps(s, Step(s, e), RecordMsg(Row(s, e).value), e.dropped, n, row);
    } else if e.QuorumCommit? {
      SendKeeps(s, Step(s, e), Commit(s.next), e.dropped, n, row);
    } else if e.CompactionSent? {
      SendKeeps(s, Step(s, e), CompactMsg(e.revision), e.dropped, n, row);
    } else {
      SameQueue(s, Step(s, e), n, row);
    }
  }

  lemma SendKeeps(s: Cluster, s': Cluster, m: Msg, dropped: set<NodeId>, n: NodeId, row: Record)
    requires QueuedOnly(s, n, row) && (m.RecordMsg? ==> m.rec.revision > 0) && !Other(m, row)
    requires s'.nodes == s.nodes && s'.down == Broadcast(s.down, m, dropped)
    ensures QueuedOnly(s', n, row)
  {
    hide OthersUnread;
    UnreadSnoc(s.nodes[n], s.down[n], m, row);
  }

  lemma SameQueue(s: Cluster, s': Cluster, n: NodeId, row: Record)
    requires QueuedOnly(s, n, row) && s'.nodes == s.nodes && s'.down == s.down
    ensures QueuedOnly(s', n, row)
  {
  }

  /** Over the rest of the term. */
  lemma {:induction false} RunKeeps(s: Cluster, es: seq<Event>, s': Cluster, n: NodeId, row: Record)
    requires PrimaryInv(s) && Run(s, es, s') && 0 <= row.revision < s.next && QueuedOnly(s, n, row)
    ensures n in s.nodes && n in s'.nodes && s'.nodes.Keys == s.nodes.Keys && Keeps(s.nodes[n], s'.nodes[n], row)
    decreases |es|
  {
    hide Step, Enabled, Keeps, QueuedOnly, PrimaryInv, WellFormed;
    InQueue(s, n, row);
    if es == [] {
      KeepsItself(s.nodes[n], row);
    } else {
      PrimaryWellFormed(s);
      StepKeepsPrimary(s, es[0]);
      StepKeeps(s, es[0], n, row);
      RunKeeps(Step(s, es[0]), es[1..], s', n, row);
      KeepsTransitive(s.nodes[n], Step(s, es[0]).nodes[n], s'.nodes[n], row);
    }
  }

  /** While the write is in flight. */
  lemma {:induction false} FlightKeeps(s: Cluster, es: seq<Event>, s': Cluster, n: NodeId, row: Record)
    requires InFlight(s, es, s') && row.revision >= 0 && QueuedOnly(s, n, row)
    ensures n in s.nodes && n in s'.nodes && QueuedOnly(s', n, row) && Keeps(s.nodes[n], s'.nodes[n], row)
    decreases |es|
  {
    hide Step, Enabled, Keeps, QueuedOnly, WellFormed;
    InQueue(s, n, row);
    if es == [] {
      KeepsItself(s.nodes[n], row);
    } else {
      assert Meanwhile(es[0]);
      StepKeeps(s, es[0], n, row);
      StepWellFormed(s, es[0]);
      FlightKeeps(Step(s, es[0]), es[1..], s', n, row);
      KeepsTransitive(s.nodes[n], Step(s, es[0]).nodes[n], s'.nodes[n], row);
    }
  }

  // ---- An acknowledged write ----

  /** A quorum write that began at `before`, was in flight up to `ready`, was
      committed and acknowledged there, and the rest of the term up to `now`. */
  datatype QuorumWrite = QuorumWrite(
    before: Cluster,
    begin: Event,
    flight: seq<Event>,
    ready: Cluster,
    dropped: set<NodeId>,
    rest: seq<Event>,
    now: Cluster)

  /** Its events follow one another. */
  ghost predicate Happens(w: QuorumWrite) {
    && WellFormed(w.before) && w.begin.QuorumBegin? && Enabled(w.before, w.begin)
    && InFlight(Step(w.before, w.begin), w.flight, w.ready)
    && WellFormed(w.ready) && Enabled(w.ready, QuorumCommit(w.dropped))
    && WellFormed(Step(w.ready, QuorumCommit(w.dropped))) && Run(Step(w.ready, QuorumCommit(w.dropped)), w.rest, w.now)
  }

  ghost predicate Acked(w: QuorumWrite) {
    PrimaryInv(w.before) && DurInv(w.before) && Happens(w)
  }

  /** Every write of a term is such a write. */
  lemma AckedInTerm(s0: Cluster, past: seq<Event>, w: QuorumWrite)
    requires TermStart(s0) && Run(s0, past, w.before) && Happens(w)
    ensures Acked(w)
  {
    hide Run, Happens;
    TermBegins(s0);
    RunKeepsDurInv(s0, past, w.before);
  }

  /** The row the write inserted. */
  ghost function Written(w: QuorumWrite): (row: Record)
    requires Acked(w)
    ensures row == Row(w.before, w.begin).value && row.revision == w.before.next > 0 && row.compactedAt.None?
  {
    RowRevision(w.before, w.begin);
    Row(w.before, w.begin).value
  }

  /** No replica has a trace of another row of the revision under way. */
  ghost predicate AllClean(w: QuorumWrite)
    requires Acked(w)
  {
    forall n | n in w.before.nodes :: Clean(w.before, n, Written(w))
  }

  /** No replica stores another row at the revision. */
  ghost predicate NoneStored(w: QuorumWrite)
    requires Acked(w)
  {
    forall n | n in w.before.nodes :: StoredOnly(w.before.nodes[n], Written(w))
  }

  lemma CommitFacts(w: QuorumWrite)
    requires Acked(w)
    ensures var c := Step(w.ready, QuorumCommit(w.dropped));
            && PrimaryInv(c) && c.nodes == w.ready.nodes && c.nodes.Keys == w.before.nodes.Keys
            && c.next == w.before.next + 1 == c.committed + 1 && w.before.next in c.log && c.log[w.before.next] == Written(w)
            && w.before.next in c.rows && c.rows[w.before.next] == Written(w)
            && w.ready.txn.Some? && |w.ready.txn.value.acked| >= w.begin.required
  {
    hide Run, Row, Step, PrimaryInv, DurInv, WellFormed;
    BeginFacts(w.before, w.begin);
    StepKeepsPrimary(w.before, w.begin);
    StepKeepsDurInv(w.before, w.begin);
    var b := Step(w.before, w.begin);
    BeginLeaves(w.before, w.begin);
    RunKeepsDurInv(b, w.flight, w.ready);
    TxnStays(b, w.flight, w.ready);
    StepKeepsPrimary(w.ready, QuorumCommit(w.dropped));
    CommitLeaves(w.ready, w.dropped);
    NextIsFree(Step(w.ready, QuorumCommit(w.dropped)));
  }

  lemma BeginLeaves(s: Cluster, begin: Event)
    requires WellFormed(s) && begin.QuorumBegin? && Enabled(s, begin)
    ensures Step(s, begin).next == s.next
  {
  }

  lemma CommitLeaves(s: Cluster, dropped: set<NodeId>)
    requires WellFormed(s) && Enabled(s, QuorumCommit(dropped))
    ensures var c := Step(s, QuorumCommit(dropped));
            c.nodes == s.nodes && c.next == s.next + 1 && c.log == s.log[s.next := s.txn.value.row] && c.rows == s.rows[s.next := s.txn.value.row]
  {
  }

  lemma CleanQueue(w: QuorumWrite, n: NodeId)
    requires Acked(w) && n in w.before.nodes && Clean(w.before, n, Written(w))
    ensures QueuedOnly(Step(w.before, w.begin), n, Written(w))
  {
    hide Run, Step, Row, QueuedOnly, InFlight, DurInv, WellFormed, OthersUnread, Holds;
    BeginFacts(w.before, w.begin);
    ReadablyQueued(w.before, n);
    ReadablyQueued(Step(w.before, w.begin), n);
    AppendedQueue(w.before, Step(w.before, w.begin), n, Written(w));
  }

  lemma AppendedQueue(s: Cluster, b: Cluster, n: NodeId, row: Record)
    requires n in s.nodes && n in s.down && n in b.down && b.nodes == s.nodes && PositiveRevisions(s.down[n]) && row.revision > 0
    requires OthersUnread(s.nodes[n], s.down[n], row) && (b.down[n] == s.down[n] || b.down[n] == s.down[n] + [RecordMsg(row)])
    ensures QueuedOnly(b, n, row)
  {
    hide OthersUnread;
    UnreadSnoc(s.nodes[n], s.down[n], RecordMsg(row), row);
  }

  /** A replica with no other row of the revision under way keeps what it has of
      the row from the beginning of the write to any later moment of the term. */
  lemma WriteKeeps(w: QuorumWrite, n: NodeId)
    requires Acked(w) && n in w.before.nodes && Clean(w.before, n, Written(w))
    ensures n in w.ready.nodes && n in w.now.nodes
    ensures Keeps(w.before.nodes[n], w.ready.nodes[n], Written(w)) && Keeps(w.ready.nodes[n], w.now.nodes[n], Written(w))
  {
    hide Step, Enabled, Row, Keeps, QueuedOnly, InFlight, Run, PrimaryInv, DurInv, WellFormed, Clean;
    CommitFacts(w);
    BeginFacts(w.before, w.begin);
    CleanQueue(w, n);
    FlightKeeps(Step(w.before, w.begin), w.flight, w.ready, n, Written(w));
    CommitQueues(w.ready, w.dropped, n, Written(w));
    RunKeeps(Step(w.ready, QuorumCommit(w.dropped)), w.rest, w.now, n, Written(w));
  }

  lemma CommitQueues(s: Cluster, dropped: set<NodeId>, n: NodeId, row: Record)
    requires WellFormed(s) && Enabled(s, QuorumCommit(dropped)) && QueuedOnly(s, n, row)
    ensures QueuedOnly(Step(s, QuorumCommit(dropped)), n, row)
  {
    BroadcastKeeps(s, QuorumCommit(dropped), n, row);
  }

  /** Where every replica was clean, an acknowledged quorum write is, at any
      later moment of the term, on the Primary and on at least the required
      number of replicas, its value erased at most; and where none stored
      another row of its revision, none ever does. */
  lemma QuorumAckDurable(w: QuorumWrite)
    requires Acked(w) && AllClean(w)
    ensures w.before.next in w.now.log && w.now.log[w.before.next] == Written(w)
    ensures w.before.next in w.now.rows && RowEvolves(Written(w), w.now.rows[w.before.next])
    ensures w.now.nodes.Keys == w.before.nodes.Keys && w.ready.txn.Some?
    ensures HeldBy(w.now, w.ready.txn.value.acked, w.begin.required, Written(w))
    ensures NoneStored(w) ==> forall n | n in w.now.nodes :: StoredOnly(w.now.nodes[n], Written(w))
  {
    hide *;
    LogHasRow(w);
    ReplicasHold(w);
    StillNoneStored(w);
  }

  lemma LogHasRow(w: QuorumWrite)
    requires Acked(w)
    ensures w.before.next in w.now.log && w.now.log[w.before.next] == Written(w) && w.now.nodes.Keys == w.before.nodes.Keys
    ensures w.before.next in w.now.rows && RowEvolves(Written(w), w.now.rows[w.before.next])
  {
    hide Step, Enabled, Row, Run, InFlight, PrimaryInv, DurInv, WellFormed, RowEvolves;
    CommitFacts(w);
    var c := Step(w.ready, QuorumCommit(w.dropped));
    RunKeepsPrimary(c, w.rest, w.now);
    RunKeepsNodes(c, w.rest, w.now);
  }

  lemma ReplicasHold(w: QuorumWrite)
    requires Acked(w) && AllClean(w)
    ensures w.ready.txn.Some? && HeldBy(w.now, w.ready.txn.value.acked, w.begin.required, Written(w))
  {
    hide Step, Row, Clean, Holds, Acked, AllClean;
    CommitFacts(w);
    LogHasRow(w);
    ReadyHolds(w);
    forall n | n in w.ready.txn.value.acked ensures n in w.now.nodes && Holds(w.now.nodes[n], Written(w)) {
      CountedIsClean(w, n);
      WriteKeeps(w, n);
    }
  }

  lemma ReadyHolds(w: QuorumWrite)
    requires Acked(w) && AllClean(w) && w.ready.txn.Some?
    ensures AllHold(w.ready, Written(w))
  {
    hide Step, Clean, AllHold, Run, Row, InFlight;
    CleanCompletion(w.before, w.begin, w.flight, w.ready);
  }

  lemma CountedIsClean(w: QuorumWrite, n: NodeId)
    requires Acked(w) && AllClean(w) && n in w.before.nodes
    ensures Clean(w.before, n, Written(w))
  {
    hide Acked, Clean;
  }

  lemma StillNoneStored(w: QuorumWrite)
    requires Acked(w) && AllClean(w)
    ensures NoneStored(w) ==> forall n | n in w.now.nodes :: StoredOnly(w.now.nodes[n], Written(w))
  {
    LogHasRow(w);
    hide Acked, Clean, StoredOnly, Holds;
    forall n | n in w.now.nodes && StoredOnly(w.before.nodes[n], Written(w)) ensures StoredOnly(w.now.nodes[n], Written(w)) {
      WriteKeeps(w, n);
    }
  }

  lemma {:induction false} RunKeepsNodes(s: Cluster, es: seq<Event>, s': Cluster)
    requires WellFormed(s) && Run(s, es, s')
    ensures s'.nodes.Keys == s.nodes.Keys
    decreases |es|
  {
    hide Step, Enabled, WellFormed;
    if es != [] {
      StepWellFormed(s, es[0]);
      StepKeepsNodes(s, es[0]);
      RunKeepsNodes(Step(s, es[0]), es[1..], s');
    }
  }

  lemma StepKeepsNodes(s: Cluster, e: Event)
    requires WellFormed(s) && Enabled(s, e)
    ensures Step(s, e).nodes.Keys == s.nodes.Keys
  {
    hide Handle, Row, Clean, WellFormed, Broadcast, Compact;
  }

  /** A revision not broadcast before in the term is clean everywhere. */
  lemma FreshIsAllClean(w: QuorumWrite)
    requires Acked(w) && w.before.next !in w.before.sent
    ensures AllClean(w)
  {
    hide Happens, PrimaryInv, WellFormed, Clean;
    PrimaryWellFormed(w.before);
    forall n | n in w.before.nodes ensures Clean(w.before, n, Written(w)) {
      FreshIsClean(w.before, n, Written(w));
    }
  }
}
