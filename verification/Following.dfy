/** A follower that misses no message: over every run of the term, compactions on
    either side included, its committed rows are the Primary's as written, or
    erased, and its watch deliveries are the committed records, in order. */
module Following {
  import opened Records
  import opened Mvcc
  import opened Erasure
  import opened Replicate
  import opened Replication
  import opened Queues

  /** `b` is `a`, or a tombstone `a` erased. */
  predicate Exact(a: Record, b: Record) {
    b == a || (a.deleted && RowEvolves(a, b))
  }

  /** The rows of revisions from+1..c have been delivered, each once. */
  ghost predicate Delivered(ds: seq<Record>, log: Table, from: nat, c: nat) {
    && |ds| == (if c < from then 0 else c - from)
    && forall i | 0 <= i < |ds| :: from + 1 + i in log && Exact(log[from + 1 + i], ds[i])
  }

  /** Its rows are the log up to its own committed revision, some erased, plus at
      most one tentative row right above it. */
  ghost predicate LocalRows(rows: Table, log: Table, c: nat) {
    && (forall r: nat | r != c + 1 :: r in rows <==> 1 <= r <= c)
    && forall r: nat | 1 <= r <= c :: r in log && RowEvolves(log[r], rows[r])
  }

  /** What holds of the follower between any two messages, against a log of
      which `n` revisions are committed. */
  ghost predicate Local(f: Replica, log: Table, n: nat, from: nat) {
    && !f.failed
    && f.committed <= n
    && LocalRows(f.rows, log, f.committed)
    && f.pending <= {f.committed + 1}
    && Delivered(f.delivered, log, from, f.committed)
  }

  /** Records come right above the committed revision, as written, and commits
      do not go back. */
  predicate InOrder(f: Replica, m: Msg) {
    match m
    case Initial(c) => c >= f.committed
    case Commit(c) => c >= f.committed
    case RecordMsg(rec) => rec.revision == f.committed + 1 && rec.compactedAt.None?
    case CompactMsg(_) => true
  }

  /** Local holds now and after every message still queued. */
  ghost predicate AllLocal(f: Replica, q: seq<Msg>, log: Table, n: nat, from: nat)
    requires PositiveRevisions(q)
    decreases |q|
  {
    && Local(f, log, n, from)
    && (q != [] ==> assert q[0] in q; InOrder(f, q[0]) && AllLocal(Handle(f, q[0]), q[1..], log, n, from))
  }

  /** Once everything queued is read, the follower stands where the Primary does. */
  ghost predicate CaughtUp(f: Replica, s: Cluster) {
    && f.committed == s.committed
    && (s.txn.Some? ==> Tentative(f, s.txn.value.row))
  }

  /** The row is stored above the committed revision and waits for its commit. */
  ghost predicate Tentative(f: Replica, row: Record) {
    f.committed + 1 in f.rows && Exact(row, f.rows[f.committed + 1]) && f.committed + 1 in f.pending
  }

  ghost predicate InStep(s: Cluster, n: NodeId, from: nat) {
    && PrimaryInv(s)
    && n in s.nodes
    && AllLocal(s.nodes[n], s.down[n], s.log, s.committed, from)
    && CaughtUp(Drain(s.nodes[n], s.down[n]), s)
  }

  // ---- Queues ----

  lemma {:induction false} AllLocalSnoc(f: Replica, q: seq<Msg>, m: Msg, log: Table, n: nat, from: nat)
    requires PositiveRevisions(q) && (m.RecordMsg? ==> m.rec.revision > 0)
    requires AllLocal(f, q, log, n, from) && InOrder(Drain(f, q), m) && Local(Handle(Drain(f, q), m), log, n, from)
    ensures PositiveRevisions(q + [m]) && AllLocal(f, q + [m], log, n, from)
    decreases |q|
  {
    if q == [] {
      assert (q + [m])[1..] == [];
    } else {
      assert q[0] in q;
      assert (q + [m])[1..] == q[1..] + [m];
      AllLocalSnoc(Handle(f, q[0]), q[1..], m, log, n, from);
    }
  }

  lemma {:induction false} AllLocalLast(f: Replica, q: seq<Msg>, log: Table, n: nat, from: nat)
    requires PositiveRevisions(q) && AllLocal(f, q, log, n, from)
    ensures Local(Drain(f, q), log, n, from)
    decreases |q|
  {
    if q != [] {
      assert q[0] in q;
      AllLocalLast(Handle(f, q[0]), q[1..], log, n, from);
    }
  }

  /** A growing log disturbs nothing that refers to its committed part. */
  lemma {:induction false} AllLocalGrows(f: Replica, q: seq<Msg>, log: Table, n: nat, row: Record, from: nat)
    requires PositiveRevisions(q) && GapFree(log, n) && AllLocal(f, q, log, n, from)
    ensures AllLocal(f, q, log[n + 1 := row], n + 1, from)
    decreases |q|
  {
    LocalGrows(f, log, n, row, from);
    if q != [] {
      assert q[0] in q;
      AllLocalGrows(Handle(f, q[0]), q[1..], log, n, row, from);
    }
  }

  lemma LocalGrows(f: Replica, log: Table, n: nat, row: Record, from: nat)
    requires GapFree(log, n) && Local(f, log, n, from)
    ensures Local(f, log[n + 1 := row], n + 1, from)
  {
  }

  // ---- The two messages of a write, on a caught-up follower ----

  lemma RecordHandled(f: Replica, log: Table, n: nat, row: Record, from: nat)
    requires GapFree(log, n) && Extends(log, n, row) && Local(f, log, n, from) && f.committed == n
    ensures var g := Handle(f, RecordMsg(row)); Local(g, log, n, from) && g.committed == n && Tentative(g, row)
  {
    hide ReplicateTentativeRecord, Linked, IndexConflict, RowEvolves;
    NextAccepted(f.rows, log, n, row);
  }

  lemma NextAccepted(rows: Table, log: Table, n: nat, row: Record)
    requires GapFree(log, n) && Extends(log, n, row) && LocalRows(rows, log, n)
    ensures ReplicateTentativeRecord(rows, row, n) == Outcome(rows[n + 1 := row], None)
  {
    hide Linked, ReplicateTentativeRecord;
    var base := rows - {n + 1};
    assert base.Keys == log.Keys;
    EvolvedConflict(log, base, row);
    TentativeAccepted(rows, base, n, row);
    assert base[n + 1 := row] == rows[n + 1 := row];
  }

  lemma CommitHandled(f: Replica, log: Table, n: nat, row: Record, from: nat)
    requires GapFree(log, n) && from <= n && Local(f, log, n, from) && f.committed == n && Tentative(f, row)
    ensures var g := Handle(f, Commit(n + 1)); Local(g, log[n + 1 := row], n + 1, from) && g.committed == n + 1
  {
    NothingReady(f.rows, f.pending, n);
    assert Ready(f.rows, f.pending, n + 1) == [f.rows[n + 1]];
  }

  lemma {:induction false} NothingReady(rows: Table, pending: set<nat>, n: nat)
    requires pending <= {n + 1} || forall r | r in pending :: r > n
    ensures Ready(rows, pending, n) == []
    decreases n
  {
    if n > 0 {
      NothingReady(rows, pending, n - 1);
    }
  }

  // ---- Every event ----

  /** The stream to `n` stays open and drops nothing it must not in this event; a
      compact message may be dropped. */
  predicate Lossless(e: Event, n: NodeId) {
    && ((e.SyncWrite? || e.QuorumBegin? || e.QuorumCommit?) ==> n !in e.dropped)
    && (e.SyncWrite? ==> n !in e.commitDropped)
    && !(e.Reopen? && e.node == n)
  }

  /** Sending one more message to a follower in step. */
  lemma SendKeepsLocal(f: Replica, q: seq<Msg>, m: Msg, log: Table, n: nat, from: nat)
    requires PositiveRevisions(q) && (m.RecordMsg? ==> m.rec.revision > 0)
    requires AllLocal(f, q, log, n, from) && InOrder(Drain(f, q), m) && Local(Handle(Drain(f, q), m), log, n, from)
    ensures PositiveRevisions(q + [m]) && AllLocal(f, q + [m], log, n, from)
    ensures Drain(f, q + [m]) == Handle(Drain(f, q), m)
  {
    AllLocalSnoc(f, q, m, log, n, from);
    DrainSnoc(f, q, m);
  }

  /** The record of a write reaches the end of the queue. */
  lemma RecordSent(f: Replica, q: seq<Msg>, log: Table, n: nat, row: Record, from: nat)
    requires PositiveRevisions(q) && GapFree(log, n) && Extends(log, n, row) && row.compactedAt.None?
    requires AllLocal(f, q, log, n, from) && Drain(f, q).committed == n
    ensures PositiveRevisions(q + [RecordMsg(row)]) && AllLocal(f, q + [RecordMsg(row)], log, n, from)
    ensures var g := Drain(f, q + [RecordMsg(row)]); g.committed == n && Tentative(g, row)
  {
    AllLocalLast(f, q, log, n, from);
    RecordHandled(Drain(f, q), log, n, row, from);
    SendKeepsLocal(f, q, RecordMsg(row), log, n, from);
  }

  /** The commit of the record reaches the end of the queue. */
  lemma CommitSent(f: Replica, q: seq<Msg>, log: Table, n: nat, row: Record, from: nat)
    requires PositiveRevisions(q) && GapFree(log, n) && from <= n
    requires AllLocal(f, q, log, n, from)
    requires var g := Drain(f, q); g.committed == n && Tentative(g, row)
    ensures PositiveRevisions(q + [Commit(n + 1)]) && AllLocal(f, q + [Commit(n + 1)], log[n + 1 := row], n + 1, from)
    ensures Drain(f, q + [Commit(n + 1)]).committed == n + 1
  {
    AllLocalLast(f, q, log, n, from);
    CommitHandled(Drain(f, q), log, n, row, from);
    AllLocalGrows(f, q, log, n, row, from);
    SendKeepsLocal(f, q, Commit(n + 1), log[n + 1 := row], n + 1, from);
  }

  // ---- Compactions on the follower ----

  /** `g` is the follower `f` with rows erased. */
  ghost predicate Alike(f: Replica, g: Replica) {
    && g.failed == f.failed && g.committed == f.committed && g.pending == f.pending
    && Evolved(f.rows, g.rows)
    && (f.committed + 1 in f.rows ==> Exact(f.rows[f.committed + 1], g.rows[f.committed + 1]))
    && AllExact(f.delivered, g.delivered)
  }

  ghost predicate AllExact(a: seq<Record>, b: seq<Record>) {
    |a| == |b| && forall i | 0 <= i < |a| :: Exact(a[i], b[i])
  }

  lemma LocalAlike(f: Replica, g: Replica, log: Table, n: nat, from: nat)
    requires Local(f, log, n, from) && Alike(f, g)
    ensures Local(g, log, n, from)
  {
    forall r: nat | 1 <= r <= f.committed ensures RowEvolves(log[r], g.rows[r]) {
      EvolvesTransitive(log[r], f.rows[r], g.rows[r]);
    }
  }

  lemma {:induction false} ReadyAlike(t: Table, u: Table, pending: set<nat>, rev: nat)
    requires u.Keys == t.Keys && forall r | r in pending && r in t :: Exact(t[r], u[r])
    ensures AllExact(Ready(t, pending, rev), Ready(u, pending, rev))
  {
    if rev > 0 {
      ReadyAlike(t, u, pending, rev - 1);
    }
  }

  lemma HandleAlike(f: Replica, g: Replica, m: Msg, log: Table, n: nat, from: nat)
    requires Local(f, log, n, from) && Alike(f, g) && Indexed(f.rows) && InOrder(f, m) && (m.RecordMsg? ==> m.rec.revision > 0)
    requires !Handle(f, m).failed
    ensures Alike(Handle(f, m), Handle(g, m))
  {
    if m.RecordMsg? {
      RecordAlike(f, g, m.rec);
    } else if !m.CompactMsg? {
      ReadyAlike(f.rows, g.rows, f.pending, m.committed);
    }
  }

  lemma RecordAlike(f: Replica, g: Replica, rec: Record)
    requires Alike(f, g) && Indexed(f.rows) && rec.revision == f.committed + 1 && rec.compactedAt.None? && !f.failed
    requires !Handle(f, RecordMsg(rec)).failed
    ensures Alike(Handle(f, RecordMsg(rec)), Handle(g, RecordMsg(rec)))
  {
    ReplicateErased(f.rows, g.rows, rec, f.committed);
    ReplicatedRecordStored(f.rows, rec, f.committed);
    ReplicatedRecordStored(g.rows, rec, f.committed);
    hide ReplicateTentativeRecord, Indexed, Evolved;
  }

  lemma {:induction false} AllLocalAlike(f: Replica, g: Replica, q: seq<Msg>, log: Table, n: nat, from: nat)
    requires PositiveRevisions(q) && AllLocal(f, q, log, n, from) && Alike(f, g) && Indexed(f.rows)
    ensures AllLocal(g, q, log, n, from) && Alike(Drain(f, q), Drain(g, q))
    decreases |q|
  {
    hide Local, Alike, Handle, Indexed, InOrder;
    LocalAlike(f, g, log, n, from);
    if q != [] {
      assert q[0] in q;
      LocalNow(Handle(f, q[0]), q[1..], log, n, from);
      HandleAlike(f, g, q[0], log, n, from);
      SameOrder(f, g, q[0]);
      HandleKeepsIndex(f, q[0]);
      AllLocalAlike(Handle(f, q[0]), Handle(g, q[0]), q[1..], log, n, from);
    }
  }

  lemma LocalNow(f: Replica, q: seq<Msg>, log: Table, n: nat, from: nat)
    requires PositiveRevisions(q) && AllLocal(f, q, log, n, from)
    ensures Local(f, log, n, from) && !f.failed
  {
  }

  lemma SameOrder(f: Replica, g: Replica, m: Msg)
    requires Alike(f, g) && InOrder(f, m)
    ensures InOrder(g, m)
  {
  }

  /** The tentative row is the newest of its key, so only a tombstone is erased. */
  lemma ExecutedAlike(f: Replica, i: nat, at: int, log: Table, n: nat, from: nat)
    requires i < |f.started| && Local(f, log, n, from)
    ensures Alike(f, Executed(f, i, at))
  {
    CompactEvolves(f.rows, f.started[i], at);
    if f.committed + 1 in f.rows {
      assert !Superseded(f.rows, f.committed + 1);
    }
  }

  // ---- Every step ----

  lemma StepKeepsInStep(s: Cluster, e: Event, n: NodeId, from: nat)
    requires InStep(s, n, from) && Enabled(s, e) && Lossless(e, n) && from <= s.committed
    ensures InStep(Step(s, e), n, from)
  {
    if e.SyncWrite? {
      SyncWriteKeepsInStep(s, e, n, from);
    } else if e.QuorumBegin? || e.QuorumCommit? {
      QuorumKeepsInStep(s, e, n, from);
    } else if e.CompactionSent? {
      CompactionKeepsInStep(s, e, n, from);
    } else if e.ReplicaExecutes? {
      ExecutionKeepsInStep(s, e, n, from);
    } else {
      OtherKeepsInStep(s, e, n, from);
    }
  }

  lemma SyncWriteKeepsInStep(s: Cluster, e: Event, n: NodeId, from: nat)
    requires e.SyncWrite? && InStep(s, n, from) && Enabled(s, e) && Lossless(e, n) && from <= s.committed
    ensures InStep(Step(s, e), n, from)
  {
    hide LogInv, InsertRow, AllLocal, Drain, Extends, Handle, WellFormed, ErasedBelow, SnapshotOf;
    StepKeepsPrimary(s, e);
    QueueReadable(s, n);
    var f, q := s.nodes[n], s.down[n];
    var row := Row(s, e).value;
    RowAsWritten(s, e);
    RowRevision(s, e);
    LogIsGapFree(s.log, s.committed);
    RecordSent(f, q, s.log, s.committed, row, from);
    CommitSent(f, q + [RecordMsg(row)], s.log, s.committed, row, from);
  }

  lemma QuorumKeepsInStep(s: Cluster, e: Event, n: NodeId, from: nat)
    requires (e.QuorumBegin? || e.QuorumCommit?) && InStep(s, n, from) && Enabled(s, e) && Lossless(e, n) && from <= s.committed
    ensures InStep(Step(s, e), n, from)
  {
    hide LogInv, InsertRow, AllLocal, Drain, Extends, Handle, WellFormed, Clean, ErasedBelow, SnapshotOf;
    StepKeepsPrimary(s, e);
    LogIsGapFree(s.log, s.committed);
    QueueReadable(s, n);
    if e.QuorumBegin? {
      RowAsWritten(s, e);
      RowRevision(s, e);
      RecordSent(s.nodes[n], s.down[n], s.log, s.committed, Row(s, e).value, from);
    } else {
      CommitSent(s.nodes[n], s.down[n], s.log, s.committed, s.txn.value.row, from);
    }
  }

  lemma CompactionKeepsInStep(s: Cluster, e: Event, n: NodeId, from: nat)
    requires e.CompactionSent? && InStep(s, n, from) && Enabled(s, e)
    ensures InStep(Step(s, e), n, from)
  {
    hide LogInv, AllLocal, Drain, Extends, WellFormed, ErasedBelow, SnapshotOf;
    StepKeepsPrimary(s, e);
    QueueReadable(s, n);
    AllLocalLast(s.nodes[n], s.down[n], s.log, s.committed, from);
    SendKeepsLocal(s.nodes[n], s.down[n], CompactMsg(e.revision), s.log, s.committed, from);
  }

  lemma ExecutionKeepsInStep(s: Cluster, e: Event, n: NodeId, from: nat)
    requires e.ReplicaExecutes? && InStep(s, n, from) && Enabled(s, e)
    ensures InStep(Step(s, e), n, from)
  {
    hide LogInv, AllLocal, Drain, Extends, WellFormed, ErasedBelow, SnapshotOf, Compact, Local, Executed, Indexed;
    StepKeepsPrimary(s, e);
    QueueReadable(s, n);
    if e.node == n {
      var f, q := s.nodes[n], s.down[n];
      LocalNow(f, q, s.log, s.committed, from);
      ExecutedAlike(f, e.i, e.at, s.log, s.committed, from);
      AllLocalAlike(f, Executed(f, e.i, e.at), q, s.log, s.committed, from);
    }
  }

  lemma OtherKeepsInStep(s: Cluster, e: Event, n: NodeId, from: nat)
    requires !e.SyncWrite? && !e.QuorumBegin? && !e.QuorumCommit? && !e.CompactionSent? && !e.ReplicaExecutes?
    requires InStep(s, n, from) && Enabled(s, e) && Lossless(e, n)
    ensures InStep(Step(s, e), n, from)
  {
    hide LogInv, InsertRow, AllLocal, Drain, Extends, Handle, WellFormed, ErasedBelow, SnapshotOf, Compact;
    StepKeepsPrimary(s, e);
    QueueReadable(s, n);
    if e == Read(n) {
      ReadKeepsLocal(s.nodes[n], s.down[n], s.log, s.committed, from);
    }
  }

  lemma QueueReadable(s: Cluster, n: NodeId)
    requires WellFormed(s) && n in s.nodes
    ensures n in s.down && PositiveRevisions(s.down[n]) && Indexed(s.nodes[n].rows)
  {
    hide Indexed;
  }

  lemma ReadKeepsLocal(f: Replica, q: seq<Msg>, log: Table, n: nat, from: nat)
    requires q != [] && PositiveRevisions(q) && AllLocal(f, q, log, n, from)
    ensures q[0] in q && AllLocal(Handle(f, q[0]), q[1..], log, n, from)
    ensures Drain(Handle(f, q[0]), q[1..]) == Drain(f, q)
  {
  }

  /** A follower holding the Primary's log is put in step by the Initial message. */
  lemma InitialPutsInStep(s: Cluster, n: NodeId, f: Replica)
    requires PrimaryInv(s) && s.txn.None? && n in s.nodes && s.down[n] == []
    requires !f.failed && Evolved(s.log, f.rows) && f.pending == {} && f.delivered == []
    requires s.nodes[n] == Handle(f, Initial(s.committed))
    ensures InStep(s, n, s.committed)
  {
    hide ErasedBelow, SnapshotOf;
    LogIsGapFree(s.log, s.committed);
    hide LogInv;
    NothingReady(f.rows, {}, s.committed);
  }

  /** Over every run of the term. */
  lemma {:induction false} RunKeepsInStep(s: Cluster, es: seq<Event>, s': Cluster, n: NodeId, from: nat)
    requires InStep(s, n, from) && from <= s.committed && Run(s, es, s')
    requires forall i | 0 <= i < |es| :: Lossless(es[i], n)
    ensures InStep(s', n, from) && from <= s'.committed
    decreases |es|
  {
    hide InStep, Lossless, Enabled;
    if es != [] {
      InStepPrimary(s, n, from);
      StepKeepsInStep(s, es[0], n, from);
      StepKeepsPrimary(s, es[0]);
      RunKeepsInStep(Step(s, es[0]), es[1..], s', n, from);
    }
  }

  lemma InStepPrimary(s: Cluster, n: NodeId, from: nat)
    requires InStep(s, n, from)
    ensures PrimaryInv(s)
  {
  }

  /** At every moment of every run: the follower's rows up to its committed
      revision are the Primary's as written, or erased, and its deliveries are
      exactly the committed records after `from`, each once, in ascending
      revision, tombstones perhaps stamped as erased. */
  lemma FollowerExact(s: Cluster, es: seq<Event>, s': Cluster, n: NodeId, from: nat)
    requires InStep(s, n, from) && from <= s.committed && Run(s, es, s')
    requires forall i | 0 <= i < |es| :: Lossless(es[i], n)
    ensures n in s'.nodes && !s'.nodes[n].failed
    ensures var f := s'.nodes[n];
            && f.committed <= s'.committed
            && (forall r: nat | 1 <= r <= f.committed :: r in f.rows && r in s'.log && RowEvolves(s'.log[r], f.rows[r]))
            && (forall i | 0 <= i < |f.delivered| :: from + 1 + i in s'.log && Exact(s'.log[from + 1 + i], f.delivered[i]) && f.delivered[i].revision == from + 1 + i)
            && |f.delivered| == if f.committed < from then 0 else f.committed - from
  {
    hide Run, Lossless;
    RunKeepsInStep(s, es, s', n, from);
    assert Keyed(s'.log);
  }
}
