/** What an acknowledgement promises: a synchronous write is in object storage, a
    quorum write sits on the Primary and on the required number of distinct
    replicas, provided no other row of its revision was under way. */
module Durability {
  import opened Records
  import opened Erasure
  import opened Replicate
  import opened Replication
  import opened Queues

  /** Everything under way carries a revision broadcast in this term. */
  ghost predicate OnlySentUnderWay(s: Cluster) {
    && (forall n, rev | n in s.up && rev in s.up[n] :: rev in s.sent)
    && (forall n, m | n in s.down && m in s.down[n] :: m.RecordMsg? ==> m.rec.revision in s.sent)
  }

  /** For a clean replica, whatever is read or receipted at the transaction's
      revision is the transaction's own row. */
  ghost predicate OwnReceipts(s: Cluster, t: Txn, n: NodeId) {
    && n in s.nodes && n in s.down && n in s.up && PositiveRevisions(s.down[n])
    && t.row.revision >= 0
    && OthersUnread(s.nodes[n], s.down[n], t.row)
    && (t.row.revision as nat in s.up[n] || n in t.acked ==> Holds(s.nodes[n], t.row))
  }

  ghost predicate DurInv(s: Cluster) {
    && OnlySentUnderWay(s)
    && (s.txn.Some? ==> s.txn.value.acked <= s.nodes.Keys && forall n | n in s.txn.value.clean :: OwnReceipts(s, s.txn.value, n))
  }

  /** A term begins with nothing sent: fresh sessions carry no record. */
  ghost predicate TermStart(s: Cluster) {
    && PrimaryInv(s) && s.txn.None? && s.sent == {}
    && (forall n | n in s.up :: s.up[n] == [])
    && forall n, m | n in s.down && m in s.down[n] :: !m.RecordMsg?
  }

  lemma TermBegins(s: Cluster)
    requires TermStart(s)
    ensures DurInv(s)
  {
  }

  // ---- Nothing appears under way that was not sent ----

  lemma BroadcastSent(s: Cluster, m: Msg, dropped: set<NodeId>, sent: set<nat>)
    requires OnlySentUnderWay(s) && s.sent <= sent && (m.RecordMsg? ==> m.rec.revision in sent)
    ensures OnlySentUnderWay(s.(down := Broadcast(s.down, m, dropped), sent := sent))
  {
  }

  lemma ReadSent(s: Cluster, n: NodeId)
    requires WellFormed(s) && OnlySentUnderWay(s) && Enabled(s, Read(n))
    ensures OnlySentUnderWay(Step(s, Read(n)))
  {
  }

  lemma StepSent(s: Cluster, e: Event)
    requires WellFormed(s) && OnlySentUnderWay(s) && Enabled(s, e)
    ensures OnlySentUnderWay(Step(s, e))
  {
    hide Handle, Compact, Clean, WellFormed;
    match e
    case SyncWrite(_, _, _, dropped, commitDropped) =>
      RowRevision(s, e);
      var m := RecordMsg(Row(s, e).value);
      BroadcastSent(s, m, dropped, s.sent + {s.next});
      BroadcastSent(s.(down := Broadcast(s.down, m, dropped), sent := s.sent + {s.next}), Commit(s.next), commitDropped, s.sent + {s.next});
    case QuorumBegin(_, _, _, _, dropped) =>
      RowRevision(s, e);
      BroadcastSent(s, RecordMsg(Row(s, e).value), dropped, s.sent + {s.next});
    case QuorumCommit(dropped) =>
      BroadcastSent(s, Commit(s.next), dropped, s.sent);
    case Read(n) =>
      ReadSent(s, n);
    case CompactionSent(c, dropped) =>
      BroadcastSent(s, CompactMsg(c), dropped, s.sent);
    case _ =>
  }

  // ---- Receipts during a transaction ----

  lemma ReadKeepsOwn(s: Cluster, t: Txn, n: NodeId, k: NodeId)
    requires WellFormed(s) && OwnReceipts(s, t, k) && Enabled(s, Read(n))
    ensures OwnReceipts(Step(s, Read(n)), t, k)
  {
    hide Handle, Holds, Indexed, OthersUnread, AsWritten;
    if n == k {
      QueueLess(s.down[n]);
      UnreadRead(s.nodes[n], s.down[n], t.row);
      HandleKeeps(s.nodes[n], s.down[n][0], t.row);
      FailedStays(s.nodes[n], s.down[n][0]);
    }
  }

  lemma FailedStays(f: Replica, m: Msg)
    requires m.RecordMsg? ==> m.rec.revision > 0
    ensures f.failed ==> Handle(f, m).failed
  {
  }

  lemma ReceiptKeepsOwn(s: Cluster, t: Txn, n: NodeId, k: NodeId)
    requires WellFormed(s) && OwnReceipts(s, t, k) && Enabled(s, Receipt(n)) && s.txn == Some(t)
    ensures var s' := Step(s, Receipt(n)); s'.txn.Some? && OwnReceipts(s', s'.txn.value, k)
  {
    hide OthersUnread, Holds;
  }

  lemma BeginOwn(s: Cluster, e: Event, n: NodeId)
    requires WellFormed(s) && e.QuorumBegin? && Enabled(s, e) && n in Step(s, e).txn.value.clean
    ensures OwnReceipts(Step(s, e), Step(s, e).txn.value, n)
  {
    hide OthersUnread, Holds, Indexed, AsWritten;
    RowRevision(s, e);
    UnreadSnoc(s.nodes[n], s.down[n], RecordMsg(Row(s, e).value), Row(s, e).value);
  }

  /** Compact messages, compactions on replicas and reconnects. */
  lemma AsideKeepsOwn(s: Cluster, e: Event, t: Txn, n: NodeId)
    requires WellFormed(s) && OwnReceipts(s, t, n) && Enabled(s, e) && (e.CompactionSent? || e.ReplicaExecutes? || e.Reopen?)
    ensures OwnReceipts(Step(s, e), t, n)
  {
    hide OthersUnread, Holds, Indexed, Executed, Compact;
    var f, q := s.nodes[n], s.down[n];
    match e
    case CompactionSent(c, _) =>
      UnreadSnoc(f, q, CompactMsg(c), t.row);
    case ReplicaExecutes(k, i, at) =>
      if k == n {
        ExecutedIsErased(f, i, at);
        UnreadErased(f, Executed(f, i, at), q, t.row);
        ExecutedKeeps(f, i, at, t.row);
      }
    case Reopen(k, _) =>
      NewQueue(s.committed);
      UnreadAbsent(Reconnected(f), [Initial(s.committed)], t.row);
      ReconnectedKeeps(f, t.row);
  }

  lemma StepKeepsDurInv(s: Cluster, e: Event)
    requires PrimaryInv(s) && DurInv(s) && Enabled(s, e)
    ensures DurInv(Step(s, e))
  {
    hide OnlySentUnderWay, OwnReceipts, Enabled, Step, PrimaryInv, WellFormed;
    PrimaryWellFormed(s);
    StepSent(s, e);
    StepKeepsAcked(s, e);
    TxnAfter(s, e);
    var s' := Step(s, e);
    if s'.txn.Some? {
      forall n | n in s'.txn.value.clean ensures OwnReceipts(s', s'.txn.value, n) {
        if e.QuorumBegin? {
          BeginOwn(s, e, n);
        } else {
          MeanwhileKeepsOwn(s, e, n);
        }
      }
    }
  }

  /** A transaction is in flight after an event that began or left it. */
  lemma TxnAfter(s: Cluster, e: Event)
    requires WellFormed(s) && Enabled(s, e)
    ensures var s' := Step(s, e);
            s'.txn.Some? && !e.QuorumBegin? ==> Meanwhile(e) && s.txn.Some? && s'.txn.value.clean == s.txn.value.clean
  {
    hide Handle, Clean, Compact, Row, WellFormed, Broadcast;
  }

  lemma MeanwhileKeepsOwn(s: Cluster, e: Event, n: NodeId)
    requires WellFormed(s) && Enabled(s, e) && Meanwhile(e) && s.txn.Some? && OwnReceipts(s, s.txn.value, n)
    ensures var s' := Step(s, e); s'.txn.Some? && OwnReceipts(s', s'.txn.value, n)
  {
    hide OwnReceipts, Handle, Compact, WellFormed, Broadcast;
    if e.Read? {
      ReadKeepsOwn(s, s.txn.value, e.node, n);
    } else if e.Receipt? {
      ReceiptKeepsOwn(s, s.txn.value, e.node, n);
    } else if e.SnapshotTaken? {
      SnapshotKeepsOwn(s, Step(s, e), s.txn.value, n);
    } else {
      AsideKeepsOwn(s, e, s.txn.value, n);
    }
  }

  lemma SnapshotKeepsOwn(s: Cluster, s': Cluster, t: Txn, n: NodeId)
    requires OwnReceipts(s, t, n) && s'.nodes == s.nodes && s'.down == s.down && s'.up == s.up
    ensures OwnReceipts(s', t, n)
  {
  }

  lemma StepKeepsAcked(s: Cluster, e: Event)
    requires WellFormed(s) && Enabled(s, e) && (s.txn.Some? ==> s.txn.value.acked <= s.nodes.Keys)
    ensures var s' := Step(s, e); s'.txn.Some? ==> s'.txn.value.acked <= s'.nodes.Keys
  {
    hide Row, Handle, Clean, Compact;
  }

  lemma {:induction false} RunKeepsDurInv(s: Cluster, es: seq<Event>, s': Cluster)
    requires PrimaryInv(s) && DurInv(s) && Run(s, es, s')
    ensures PrimaryInv(s') && DurInv(s')
    decreases |es|
  {
    hide PrimaryInv, DurInv, Enabled;
    if es != [] {
      StepKeepsDurInv(s, es[0]);
      PrimaryWellFormed(s);
      StepKeepsPrimary(s, es[0]);
      RunKeepsDurInv(Step(s, es[0]), es[1..], s');
    }
  }

  // ---- The acknowledgement ----

  /** What can happen while a transaction is in flight. */
  predicate Meanwhile(e: Event) {
    e.Read? || e.Receipt? || e.CompactionSent? || e.ReplicaExecutes? || e.Reopen? || e.SnapshotTaken?
  }

  lemma {:induction false} TxnStays(s: Cluster, es: seq<Event>, s': Cluster)
    requires WellFormed(s) && s.txn.Some? && Run(s, es, s') && forall i | 0 <= i < |es| :: Meanwhile(es[i])
    ensures s'.txn.Some? && s'.nodes.Keys == s.nodes.Keys && s'.next == s.next && s'.log == s.log && s'.rows == s.rows
    ensures s'.txn.value == s.txn.value.(acked := s'.txn.value.acked)
    decreases |es|
  {
    hide Step, Enabled;
    if es != [] {
      assert Meanwhile(es[0]);
      TxnStep(s, es[0]);
      TxnStays(Step(s, es[0]), es[1..], s');
    }
  }

  lemma TxnStep(s: Cluster, e: Event)
    requires WellFormed(s) && s.txn.Some? && Meanwhile(e) && Enabled(s, e)
    ensures var t := Step(s, e);
            && WellFormed(t) && t.txn.Some? && t.nodes.Keys == s.nodes.Keys && t.next == s.next && t.log == s.log && t.rows == s.rows
            && t.txn.value == s.txn.value.(acked := t.txn.value.acked)
  {
    hide Handle, WellFormed, Compact;
    StepWellFormed(s, e);
  }

  /** The row is in object storage: its chunk, or a snapshot that covers it. */
  ghost predicate Stored(s: Cluster, r: nat, row: Record) {
    || (r in s.chunks && s.chunks[r] == row)
    || exists u :: u in s.snapshots && r <= u && r in s.snapshots[u] && RowEvolves(row, s.snapshots[u][r])
  }

  /** An acknowledged synchronous write is a new chunk equal to the committed
      row. From then on storage holds the row: no write replaces the chunk, and
      clean-up takes it only behind a snapshot that holds the row or what a
      compaction left of it. */
  lemma SyncAckDurable(s: Cluster, e: Event, es: seq<Event>, s': Cluster)
    requires PrimaryInv(s) && e.SyncWrite? && Enabled(s, e) && (StepWellFormed(s, e); Run(Step(s, e), es, s'))
    ensures var row := Row(s, e).value;
            && s.next !in s.chunks && s.next in Step(s, e).chunks && Step(s, e).chunks[s.next] == row
            && s.next in s'.log && s'.log[s.next] == row && s.next in s'.rows && RowEvolves(row, s'.rows[s.next])
            && Stored(s', s.next, row)
  {
    hide Run, Stored, PrimaryInv, WellFormed, Row;
    PrimaryWellFormed(s);
    NextIsFree(s);
    StepKeepsPrimary(s, e);
    RunKeepsPrimary(Step(s, e), es, s');
    StoredStays(Step(s, e), es, s', s.next, Row(s, e).value);
    StoredNow(s', s.next, Row(s, e).value);
  }

  lemma NextIsFree(s: Cluster)
    requires PrimaryInv(s)
    ensures s.next == s.committed + 1
  {
  }

  /** The chunk, or any snapshot at or above it. */
  ghost predicate ChunkOrSnapshot(s: Cluster, r: nat, row: Record) {
    (r in s.chunks && s.chunks[r] == row) || exists u :: u in s.snapshots && r <= u
  }

  lemma {:induction false} StoredStays(s: Cluster, es: seq<Event>, s': Cluster, r: nat, row: Record)
    requires PrimaryInv(s) && Run(s, es, s') && r < s.next && ChunkOrSnapshot(s, r, row)
    ensures ChunkOrSnapshot(s', r, row)
    decreases |es|
  {
    hide Step, Enabled, PrimaryInv, ChunkOrSnapshot, WellFormed;
    if es != [] {
      PrimaryWellFormed(s);
      StepKeepsPrimary(s, es[0]);
      StoredStep(s, es[0], r, row);
      StoredStays(Step(s, es[0]), es[1..], s', r, row);
    }
  }

  lemma StoredStep(s: Cluster, e: Event, r: nat, row: Record)
    requires WellFormed(s) && Enabled(s, e) && r < s.next && ChunkOrSnapshot(s, r, row)
    ensures ChunkOrSnapshot(Step(s, e), r, row)
  {
    hide Handle, Clean, Compact, Row, WellFormed;
    var s' := Step(s, e);
    if u :| u in s.snapshots && r <= u {
      assert u in s'.snapshots;
    } else if e.SnapshotTaken? && r !in s'.chunks {
      assert e.upTo in s'.snapshots;
    }
  }

  lemma StoredNow(s: Cluster, r: nat, row: Record)
    requires PrimaryInv(s) && ChunkOrSnapshot(s, r, row) && r in s.log && s.log[r] == row
    ensures Stored(s, r, row)
  {
    hide ErasedBelow, WellFormed, Extends;
    if !(r in s.chunks && s.chunks[r] == row) {
      var u :| u in s.snapshots && r <= u;
      assert SnapshotOf(s.snapshots[u], s.log, s.committed, u);
      assert r in UpTo(s.log, u);
    }
  }

  /** A revision never broadcast before in the term is clean everywhere. */
  lemma FreshIsClean(s: Cluster, n: NodeId, row: Record)
    requires WellFormed(s) && OnlySentUnderWay(s) && row.revision >= 0 && row.revision as nat !in s.sent
    ensures Clean(s, n, row)
  {
    if n in s.nodes {
      UnreadAbsent(s.nodes[n], s.down[n], row);
    }
    hide OthersUnread, Handle;
  }

  ghost predicate HeldBy(s: Cluster, holders: set<NodeId>, required: nat, row: Record) {
    |holders| >= required && forall n | n in holders :: n in s.nodes && Holds(s.nodes[n], row)
  }
}
