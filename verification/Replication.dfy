/** One Primary term: the write path with its two commit protocols, the follow
    streams, and the replicas that store, receipt and deliver. */
module Replication {
  import opened Records
  import opened Mvcc
  import opened Erasure
  import opened Replicate

  // ---- A replica ----

  datatype Msg = Initial(committed: nat) | RecordMsg(rec: Record) | Commit(committed: nat) | CompactMsg(revision: int)

  /** `delivered` is what the watch manager has distributed, `started` the
      compactions started and not yet executed; `failed` means the stream
      handler returned an error and the stream is closed. */
  datatype Replica = Replica(rows: Table, committed: nat, pending: set<nat>, delivered: seq<Record>, started: seq<int>, failed: bool)

  /** The rows of the pending revisions up to `rev`, in ascending order. */
  function Ready(rows: Table, pending: set<nat>, rev: nat): seq<Record> {
    if rev == 0 then []
    else Ready(rows, pending, rev - 1) + if rev in pending && rev in rows then [rows[rev]] else []
  }

  /** SetCommitted followed by AdvanceCommittedRevision. */
  function Advance(f: Replica, rev: nat): Replica {
    f.(committed := rev,
       pending := (set r | r in f.pending && r > rev),
       delivered := f.delivered + Ready(f.rows, f.pending, rev))
  }

  function Handle(f: Replica, m: Msg): Replica
    requires m.RecordMsg? ==> m.rec.revision > 0
  {
    if f.failed then f
    else match m
      case Initial(c) => Advance(f, c)
      case Commit(c) => Advance(f, c)
      case RecordMsg(rec) =>
        var o := ReplicateTentativeRecord(f.rows, rec, f.committed);
        if o.error.Some? then f.(rows := o.table, failed := true)
        else f.(rows := o.table, pending := f.pending + {rec.revision as nat})
      case CompactMsg(c) => f.(started := f.started + [c])
  }

  function Without(started: seq<int>, i: nat): seq<int>
    requires i < |started|
  {
    started[..i] + started[i + 1..]
  }

  /** One of the compactions started runs, whichever is its turn. */
  function Executed(f: Replica, i: nat, at: int): Replica
    requires i < |f.started|
  {
    f.(rows := Compact(f.rows, f.started[i], at), started := Without(f.started, i))
  }

  /** The follower connects again: nothing pending, the initial message to come. */
  function Reconnected(f: Replica): Replica {
    f.(pending := {}, failed := false)
  }

  predicate PositiveRevisions(q: seq<Msg>) {
    forall m | m in q :: m.RecordMsg? ==> m.rec.revision > 0
  }

  /** Records are broadcast as they were inserted. */
  predicate AsWritten(q: seq<Msg>) {
    forall m | m in q :: m.RecordMsg? ==> m.rec.compactedAt.None?
  }

  /** The replica after reading a whole queue. */
  function Drain(f: Replica, q: seq<Msg>): Replica
    requires PositiveRevisions(q)
    decreases |q|
  {
    if q == [] then f else
      assert q[0] in q;
      Drain(Handle(f, q[0]), q[1..])
  }

  /** Another row than `row` at its revision. */
  predicate Other(m: Msg, row: Record) {
    m.RecordMsg? && m.rec.revision == row.revision && m.rec != row
  }

  /** Of the queue, up to the error that ends it, no other row of the revision
      is read. */
  ghost predicate OthersUnread(f: Replica, q: seq<Msg>, row: Record)
    requires PositiveRevisions(q)
    decreases |q|
  {
    q == [] || f.failed || (assert q[0] in q; !Other(q[0], row) && OthersUnread(Handle(f, q[0]), q[1..], row))
  }

  /** The row is stored, its value erased or not. */
  predicate Holds(f: Replica, row: Record) {
    row.revision >= 0 && row.revision as nat in f.rows && RowEvolves(row, f.rows[row.revision as nat])
  }

  // ---- The cluster ----

  /** A quorum transaction in flight. `clean` is history: the replicas that had
      no trace of another row at its revision under way when it began. */
  datatype Txn = Txn(row: Record, required: nat, acked: set<NodeId>, clean: set<NodeId>)

  /** `rows` is the Primary's database and `log`, which is history, the same rows
      as they were written. `down` holds the messages sent and not yet read,
      `up` the receipts sent and not yet read, `sent` every revision broadcast
      so far in the term. */
  datatype Cluster = Cluster(
    log: Table,
    rows: Table,
    next: nat,
    committed: nat,
    txn: Option<Txn>,
    started: seq<int>,
    chunks: map<nat, Record>,
    snapshots: map<nat, Table>,
    nodes: map<NodeId, Replica>,
    down: map<NodeId, seq<Msg>>,
    up: map<NodeId, seq<nat>>,
    sent: set<nat>)

  datatype Event =
    | SyncWrite(req: Request, leader: string, at: int, dropped: set<NodeId>, commitDropped: set<NodeId>)
    | SyncFail(req: Request, leader: string, at: int, stored: bool)
    | QuorumBegin(req: Request, leader: string, at: int, required: nat, dropped: set<NodeId>)
    | QuorumCommit(dropped: set<NodeId>)
    | QuorumAbort
    | Read(node: NodeId)
    | Receipt(node: NodeId)
    | CompactionSent(revision: int, dropped: set<NodeId>)
    | PrimaryExecutes(i: nat, at: int)
    | ReplicaExecutes(node: NodeId, i: nat, at: int)
    | Reopen(node: NodeId, receiptsLost: bool)
    | SnapshotTaken(upTo: nat, kept: set<nat>)

  /** The row the write would insert at the next revision. */
  function Row(s: Cluster, e: Event): Result<Record, InsertError>
    requires e.SyncWrite? || e.SyncFail? || e.QuorumBegin?
  {
    InsertRow(s.rows, ToRecord(e.req, s.next, e.leader), e.at)
  }

  function Broadcast(down: map<NodeId, seq<Msg>>, m: Msg, dropped: set<NodeId>): map<NodeId, seq<Msg>> {
    map n | n in down :: if n in dropped then down[n] else down[n] + [m]
  }

  /** A collector that has met its threshold takes no further receipts. */
  function Collect(t: Txn, n: NodeId): Txn {
    if |t.acked| >= t.required then t else t.(acked := t.acked + {n})
  }

  /** Only `row` itself is read by `n` at its revision, and a receipt of that
      revision is under way only from a replica that stores it. */
  ghost predicate Clean(s: Cluster, n: NodeId, row: Record)
    requires WellFormed(s)
  {
    n in s.nodes ==>
      && OthersUnread(s.nodes[n], s.down[n], row)
      && (row.revision >= 0 && row.revision as nat in s.up[n] ==> Holds(s.nodes[n], row))
  }

  ghost predicate WellFormed(s: Cluster) {
    && s.nodes.Keys == s.down.Keys == s.up.Keys
    && (forall n | n in s.down :: PositiveRevisions(s.down[n]) && AsWritten(s.down[n]))
    && forall n | n in s.nodes :: Indexed(s.nodes[n].rows)
  }

  /** When an event can happen. Writes hold the gate, so they start only with
      no transaction in flight; a timeout may abort one at any time. The open
      SQLite transaction keeps the Primary's compactions out. */
  predicate Enabled(s: Cluster, e: Event) {
    match e
    case SyncWrite(_, _, _, _, _) => s.txn.None? && Row(s, e).Ok? && s.next !in s.chunks
    case SyncFail(_, _, _, _) => s.txn.None? && Row(s, e).Ok?
    case QuorumBegin(_, _, _, required, _) => s.txn.None? && Row(s, e).Ok? && required > 0
    case QuorumCommit(_) => s.txn.Some? && |s.txn.value.acked| >= s.txn.value.required
    case QuorumAbort => s.txn.Some?
    case Read(n) => n in s.nodes && n in s.down && s.down[n] != []
    case Receipt(n) => n in s.up && s.up[n] != []
    case CompactionSent(_, _) => true
    case PrimaryExecutes(i, _) => s.txn.None? && i < |s.started|
    case ReplicaExecutes(n, i, _) => n in s.nodes && i < |s.nodes[n].started|
    case Reopen(n, _) => n in s.nodes
    case SnapshotTaken(upTo, _) => 0 < upTo <= s.committed
  }

  /** The effect of an enabled event. */
  ghost function Step(s: Cluster, e: Event): Cluster
    requires WellFormed(s) && Enabled(s, e)
  {
    match e
    case SyncWrite(_, _, _, dropped, commitDropped) =>
      // The chunk is created, SQLite commits, then record and commit are broadcast.
      var row := Row(s, e).value;
      s.(log := s.log[s.next := row],
         rows := s.rows[s.next := row],
         next := s.next + 1,
         committed := s.next,
         chunks := s.chunks[s.next := row],
         down := Broadcast(Broadcast(s.down, RecordMsg(row), dropped), Commit(s.next), commitDropped),
         sent := s.sent + {s.next})
    case SyncFail(_, _, _, stored) =>
      // The upload was reported failed; the object may exist all the same.
      if stored && s.next !in s.chunks then s.(chunks := s.chunks[s.next := Row(s, e).value]) else s
    case QuorumBegin(_, _, _, required, dropped) =>
      var row := Row(s, e).value;
      s.(txn := Some(Txn(row, required, {}, (set n | n in s.nodes && Clean(s, n, row)))),
         down := Broadcast(s.down, RecordMsg(row), dropped),
         sent := s.sent + {s.next})
    case QuorumCommit(dropped) =>
      s.(log := s.log[s.next := s.txn.value.row],
         rows := s.rows[s.next := s.txn.value.row],
         next := s.next + 1,
         committed := s.next,
         txn := None,
         down := Broadcast(s.down, Commit(s.next), dropped))
    case QuorumAbort =>
      s.(txn := None)
    case Read(n) =>
      var m := s.down[n][0];
      assert m in s.down[n];
      var f := Handle(s.nodes[n], m);
      s.(nodes := s.nodes[n := f],
         down := s.down[n := s.down[n][1..]],
         up := if m.RecordMsg? && !f.failed then s.up[n := s.up[n] + [m.rec.revision as nat]] else s.up)
    case Receipt(n) =>
      // Receipts are matched by revision only.
      var rev := s.up[n][0];
      s.(up := s.up[n := s.up[n][1..]],
         txn := if s.txn.Some? && s.txn.value.row.revision == rev then Some(Collect(s.txn.value, n)) else s.txn)
    case CompactionSent(c, dropped) =>
      // Persisted, broadcast, and started here too, beside any write.
      s.(started := s.started + [c], down := Broadcast(s.down, CompactMsg(c), dropped))
    case PrimaryExecutes(i, at) =>
      s.(rows := Compact(s.rows, s.started[i], at), started := Without(s.started, i))
    case ReplicaExecutes(n, i, at) =>
      s.(nodes := s.nodes[n := Executed(s.nodes[n], i, at)])
    case Reopen(n, receiptsLost) =>
      // What was queued is gone; receipts of the old stream may still be read.
      s.(nodes := s.nodes[n := Reconnected(s.nodes[n])],
         down := s.down[n := [Initial(s.committed)]],
         up := if receiptsLost then s.up[n := []] else s.up)
    case SnapshotTaken(upTo, kept) =>
      // The rows up to a revision are uploaded and their chunks deleted, but
      // for those whose delete failed.
      s.(snapshots := s.snapshots[upTo := UpTo(s.rows, upTo)],
         chunks := map r | r in s.chunks && (r > upTo || r in kept) :: s.chunks[r])
  }

  // ---- The Primary's own state ----

  /** `row` can extend the log of revisions 1..n. */
  ghost predicate Extends(log: Table, n: nat, row: Record) {
    && row.revision == n + 1
    && Linked(log[n + 1 := row], n + 1)
    && !IndexConflict(log, row)
  }

  /** What was written is gap-free and linked, the database holds it with some
      superseded rows and tombstones erased, committed revision = log head =
      next revision - 1, a transaction in flight extends exactly this log, and
      every snapshot holds the rows up to its revision. */
  ghost predicate PrimaryInv(s: Cluster) {
    && WellFormed(s)
    && s.next == s.committed + 1
    && LogInv(s.log, s.committed)
    && ErasedBelow(s.log, s.rows, s.committed)
    && (s.txn.Some? ==> Extends(s.log, s.committed, s.txn.value.row))
    && forall u | u in s.snapshots :: SnapshotOf(s.snapshots[u], s.log, s.committed, u)
  }

  ghost predicate SnapshotOf(t: Table, log: Table, n: nat, u: nat) {
    u <= n && Evolved(UpTo(log, u), t)
  }

  lemma InsertedExtends(log: Table, n: nat, q: Record, at: int)
    requires LogInv(log, n) && q.revision == n + 1 && InsertRow(log, q, at).Ok?
    ensures Extends(log, n, InsertRow(log, q, at).value)
  {
    NewRowLinked(log, n, q, at);
  }

  /** Erased rows make no difference to the row a write inserts. */
  lemma RowAsWritten(s: Cluster, e: Event)
    requires PrimaryInv(s) && (e.SyncWrite? || e.SyncFail? || e.QuorumBegin?)
    ensures Row(s, e) == InsertRow(s.log, ToRecord(e.req, s.next, e.leader), e.at)
    ensures Row(s, e).Ok? ==> Extends(s.log, s.committed, Row(s, e).value)
  {
    hide LogInv, ErasedBelow, InsertRow, WellFormed;
    InsertIgnoresErasure(s.log, s.rows, s.committed, ToRecord(e.req, s.next, e.leader), e.at);
    if Row(s, e).Ok? {
      InsertedExtends(s.log, s.committed, ToRecord(e.req, s.next, e.leader), e.at);
    }
  }

  /** An event either leaves log, counter and committed revision alone or
      commits one row at the next revision. */
  ghost predicate CommitsAtMostOne(s: Cluster, s': Cluster) {
    || (s'.log == s.log && s'.next == s.next && s'.committed == s.committed)
    || (s'.next == s.next + 1 && s'.committed == s.next && s.next in s'.log && s'.log == s.log[s.next := s'.log[s.next]])
  }

  lemma BroadcastWellFormed(s: Cluster, m: Msg, dropped: set<NodeId>)
    requires WellFormed(s) && (m.RecordMsg? ==> m.rec.revision > 0 && m.rec.compactedAt.None?)
    ensures WellFormed(s.(down := Broadcast(s.down, m, dropped)))
  {
    hide Indexed, PositiveRevisions, AsWritten;
    forall n | n in s.down ensures PositiveRevisions(s.down[n] + [m]) && AsWritten(s.down[n] + [m]) {
      QueueMore(s.down[n], m);
    }
  }

  lemma QueueMore(q: seq<Msg>, m: Msg)
    requires PositiveRevisions(q) && AsWritten(q) && (m.RecordMsg? ==> m.rec.revision > 0 && m.rec.compactedAt.None?)
    ensures PositiveRevisions(q + [m]) && AsWritten(q + [m])
  {
  }

  lemma QueueLess(q: seq<Msg>)
    requires PositiveRevisions(q) && AsWritten(q) && q != []
    ensures q[0] in q && (q[0].RecordMsg? ==> q[0].rec.revision > 0 && q[0].rec.compactedAt.None?)
    ensures PositiveRevisions(q[1..]) && AsWritten(q[1..])
  {
    assert q[0] in q;
  }

  lemma HandleKeepsIndex(f: Replica, m: Msg)
    requires (m.RecordMsg? ==> m.rec.revision > 0) && Indexed(f.rows)
    ensures Indexed(Handle(f, m).rows)
  {
    hide Indexed, ReplicateTentativeRecord;
    if m.RecordMsg? {
      ReplicateKeepsIndex(f.rows, m.rec, f.committed);
    }
  }

  lemma ReadWellFormed(s: Cluster, n: NodeId)
    requires WellFormed(s) && Enabled(s, Read(n))
    ensures WellFormed(Step(s, Read(n)))
  {
    hide Indexed, Handle, PositiveRevisions, AsWritten;
    QueueLess(s.down[n]);
    HandleKeepsIndex(s.nodes[n], s.down[n][0]);
  }

  lemma ReopenWellFormed(s: Cluster, n: NodeId, receiptsLost: bool)
    requires WellFormed(s) && n in s.nodes
    ensures WellFormed(Step(s, Reopen(n, receiptsLost)))
  {
    hide Indexed, PositiveRevisions, AsWritten;
    NewQueue(s.committed);
  }

  lemma NewQueue(c: nat)
    ensures PositiveRevisions([Initial(c)]) && AsWritten([Initial(c)])
  {
  }

  lemma ExecutedWellFormed(s: Cluster, n: NodeId, i: nat, at: int)
    requires WellFormed(s) && Enabled(s, ReplicaExecutes(n, i, at))
    ensures WellFormed(Step(s, ReplicaExecutes(n, i, at)))
  {
    hide Indexed, Compact, Evolved, PositiveRevisions, AsWritten;
    CompactEvolves(s.nodes[n].rows, s.nodes[n].started[i], at);
    EvolvedKeepsIndex(s.nodes[n].rows, Executed(s.nodes[n], i, at).rows);
  }

  lemma StepWellFormed(s: Cluster, e: Event)
    requires WellFormed(s) && Enabled(s, e)
    ensures WellFormed(Step(s, e))
  {
    hide InsertRow, Handle, Compact, Clean, Indexed, PositiveRevisions, AsWritten;
    match e
    case SyncWrite(_, _, _, dropped, commitDropped) =>
      RowRevision(s, e);
      BroadcastWellFormed(s, RecordMsg(Row(s, e).value), dropped);
      BroadcastWellFormed(s.(down := Broadcast(s.down, RecordMsg(Row(s, e).value), dropped)), Commit(s.next), commitDropped);
    case QuorumBegin(_, _, _, _, dropped) =>
      RowRevision(s, e);
      BroadcastWellFormed(s, RecordMsg(Row(s, e).value), dropped);
    case QuorumCommit(dropped) =>
      BroadcastWellFormed(s, Commit(s.next), dropped);
    case CompactionSent(c, dropped) =>
      BroadcastWellFormed(s, CompactMsg(c), dropped);
    case Read(n) => ReadWellFormed(s, n);
    case ReplicaExecutes(n, i, at) => ExecutedWellFormed(s, n, i, at);
    case Reopen(n, receiptsLost) => ReopenWellFormed(s, n, receiptsLost);
    case _ =>
  }

  lemma RowRevision(s: Cluster, e: Event)
    requires (e.SyncWrite? || e.SyncFail? || e.QuorumBegin?) && Row(s, e).Ok?
    ensures Row(s, e).value.revision == s.next > 0 && Row(s, e).value.compactedAt.None?
  {
  }

  lemma StepKeepsPrimary(s: Cluster, e: Event)
    requires PrimaryInv(s) && Enabled(s, e)
    ensures PrimaryInv(Step(s, e)) && CommitsAtMostOne(s, Step(s, e))
  {
    StepWellFormed(s, e);
    if e.SyncWrite? || e.QuorumCommit? {
      CommitKeepsPrimary(s, e);
    } else if e.PrimaryExecutes? || e.SnapshotTaken? {
      ErasureKeepsPrimary(s, e);
    } else {
      OtherKeepsPrimary(s, e);
    }
  }

  lemma CommitKeepsPrimary(s: Cluster, e: Event)
    requires PrimaryInv(s) && Enabled(s, e) && (e.SyncWrite? || e.QuorumCommit?) && WellFormed(Step(s, e))
    ensures PrimaryInv(Step(s, e)) && CommitsAtMostOne(s, Step(s, e))
  {
    hide InsertRow, WellFormed, LogInv, Extends, Broadcast, ErasedBelow, SnapshotOf;
    var row := if e.SyncWrite? then Row(s, e).value else s.txn.value.row;
    if e.SyncWrite? {
      RowAsWritten(s, e);
    }
    LogIsGapFree(s.log, s.committed);
    ExtendedLog(s.log, s.committed, row);
    AppendErased(s.log, s.rows, s.committed, s.committed, row);
    ErasedFurther(s.log[s.next := row], s.rows[s.next := row], s.committed);
    forall u | u in s.snapshots ensures SnapshotOf(s.snapshots[u], s.log[s.next := row], s.next, u) {
      SnapshotGrows(s.snapshots[u], s.log, s.committed, u, row);
    }
  }

  lemma ErasedFurther(a: Table, u: Table, c: nat)
    requires ErasedBelow(a, u, c)
    ensures ErasedBelow(a, u, c + 1)
  {
  }

  lemma SnapshotGrows(t: Table, log: Table, n: nat, u: nat, row: Record)
    requires SnapshotOf(t, log, n, u)
    ensures SnapshotOf(t, log[n + 1 := row], n + 1, u)
  {
    assert UpTo(log[n + 1 := row], u) == UpTo(log, u);
  }

  /** The database and its copies change, what was written does not. */
  lemma ErasureKeepsPrimary(s: Cluster, e: Event)
    requires PrimaryInv(s) && Enabled(s, e) && (e.PrimaryExecutes? || e.SnapshotTaken?) && WellFormed(Step(s, e))
    ensures PrimaryInv(Step(s, e)) && CommitsAtMostOne(s, Step(s, e))
  {
    hide WellFormed, LogInv, Extends, Compact, ErasedBelow;
    if e.PrimaryExecutes? {
      LogIsGapFree(s.log, s.committed);
      CompactErasesLog(s.log, s.rows, s.committed, s.started[e.i], e.at);
    } else {
      SnapshotIsOne(s.log, s.rows, s.committed, e.upTo);
    }
  }

  lemma SnapshotIsOne(log: Table, rows: Table, n: nat, u: nat)
    requires ErasedBelow(log, rows, n) && u <= n
    ensures SnapshotOf(UpTo(rows, u), log, n, u)
  {
  }

  lemma OtherKeepsPrimary(s: Cluster, e: Event)
    requires PrimaryInv(s) && Enabled(s, e) && WellFormed(Step(s, e))
    requires !e.SyncWrite? && !e.QuorumCommit? && !e.PrimaryExecutes? && !e.SnapshotTaken?
    ensures PrimaryInv(Step(s, e)) && CommitsAtMostOne(s, Step(s, e))
  {
    hide InsertRow, WellFormed, LogInv, Extends, Broadcast, Clean, Handle, ErasedBelow, SnapshotOf, Executed;
    if e.QuorumBegin? {
      RowAsWritten(s, e);
    }
  }

  /** Compaction never takes a current value from the Primary. */
  lemma LiveValuesKept(s: Cluster)
    requires PrimaryInv(s)
    ensures StoreAt(s.rows, s.committed) == StoreAt(s.log, s.committed)
  {
    hide ErasedBelow, StoreAt;
    LogIsGapFree(s.log, s.committed);
    HeadsKept(s.log, s.rows, s.committed, s.committed);
  }

  lemma ExtendedLog(log: Table, n: nat, row: Record)
    requires LogInv(log, n) && Extends(log, n, row)
    ensures LogInv(log[n + 1 := row], n + 1)
  {
    AppendKeepsLog(log, n, row);
  }

  // ---- Runs ----

  ghost predicate Run(s: Cluster, es: seq<Event>, s': Cluster)
    requires WellFormed(s)
    decreases |es|
  {
    if es == [] then s' == s
    else Enabled(s, es[0]) && (StepWellFormed(s, es[0]); Run(Step(s, es[0]), es[1..], s'))
  }

  lemma RunNil(s: Cluster)
    requires WellFormed(s)
    ensures Run(s, [], s)
  {
  }

  lemma RunCons(s: Cluster, e: Event, es: seq<Event>, s': Cluster)
    requires WellFormed(s) && Enabled(s, e) && WellFormed(Step(s, e)) && Run(Step(s, e), es, s')
    ensures Run(s, [e] + es, s')
  {
    assert ([e] + es)[1..] == es;
  }

  lemma {:induction false} RunSnoc(s: Cluster, es: seq<Event>, t: Cluster, e: Event)
    requires WellFormed(s) && Run(s, es, t) && WellFormed(t) && Enabled(t, e)
    ensures Run(s, es + [e], Step(t, e))
    decreases |es|
  {
    StepWellFormed(t, e);
    if es == [] {
      assert (es + [e])[1..] == [] && (es + [e])[0] == e;
    } else {
      StepWellFormed(s, es[0]);
      hide Step, Enabled, WellFormed;
      RunSnoc(Step(s, es[0]), es[1..], t, e);
      assert (es + [e])[1..] == es[1..] + [e];
    }
  }

  /** `log'` holds every committed row of `log` unchanged. */
  ghost predicate LogGrows(log: Table, n: nat, log': Table, n': nat) {
    n <= n' && forall r: nat | 1 <= r <= n :: r in log && r in log' && log'[r] == log[r]
  }

  /** Over every run of a term the Primary's invariant holds, and a revision
      once committed is never committed again or rewritten: the database holds
      the row as it was written, or erased. */
  lemma {:induction false} RunKeepsPrimary(s: Cluster, es: seq<Event>, s': Cluster)
    requires PrimaryInv(s) && Run(s, es, s')
    ensures PrimaryInv(s') && LogGrows(s.log, s.committed, s'.log, s'.committed)
    ensures forall r: nat | 1 <= r <= s.committed :: r in s'.rows && RowEvolves(s.log[r], s'.rows[r])
    decreases |es|
  {
    hide Step, Enabled, PrimaryInv, WellFormed;
    PrimaryRows(s);
    if es != [] {
      PrimaryWellFormed(s);
      StepKeepsPrimary(s, es[0]);
      StepGrows(s, Step(s, es[0]));
      RunKeepsPrimary(Step(s, es[0]), es[1..], s');
    }
  }

  lemma PrimaryWellFormed(s: Cluster)
    requires PrimaryInv(s)
    ensures WellFormed(s)
  {
  }

  lemma PrimaryRows(s: Cluster)
    requires PrimaryInv(s)
    ensures LogGrows(s.log, s.committed, s.log, s.committed)
    ensures forall r: nat | 1 <= r <= s.committed :: r in s.rows && RowEvolves(s.log[r], s.rows[r])
  {
  }

  lemma StepGrows(s: Cluster, s': Cluster)
    requires PrimaryInv(s) && CommitsAtMostOne(s, s')
    ensures LogGrows(s.log, s.committed, s'.log, s'.committed)
  {
  }

  /** The writes a run acknowledges. */
  function Commits(es: seq<Event>): nat {
    if es == [] then 0 else (if es[0].SyncWrite? || es[0].QuorumCommit? then 1 else 0) + Commits(es[1..])
  }

  /** The committed revision counts the acknowledged writes: every failed one
      leaves log, counter and committed revision as they were, over whole runs. */
  lemma {:induction false} OnlyCommitsAdvance(s: Cluster, es: seq<Event>, s': Cluster)
    requires PrimaryInv(s) && Run(s, es, s')
    ensures s'.committed == s.committed + Commits(es)
    ensures Commits(es) == 0 ==> s'.log == s.log && s'.next == s.next
    decreases |es|
  {
    if es != [] {
      StepKeepsPrimary(s, es[0]);
      CommitAdvances(s, es[0]);
      hide Step, Enabled, PrimaryInv;
      OnlyCommitsAdvance(Step(s, es[0]), es[1..], s');
    }
  }

  lemma CommitAdvances(s: Cluster, e: Event)
    requires PrimaryInv(s) && Enabled(s, e)
    ensures var s' := Step(s, e);
            if e.SyncWrite? || e.QuorumCommit? then s'.committed == s.committed + 1
            else s'.log == s.log && s'.next == s.next && s'.committed == s.committed
  {
    hide Handle, Clean, Compact, InsertRow;
  }
}
