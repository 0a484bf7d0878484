/** The Primary's methods and the cluster model: every outcome of LeaderTxn is a
    run of the cluster; and the two ways storage and log come to disagree. */
module PrimaryRuns {
  import opened Bytes
  import opened Records
  import opened Sets
  import opened Mvcc
  import opened Replication
  import opened Durability
  import opened Completion
  import opened Transactions
  import opened PrimaryServer

  ghost function Project(s: Cluster): View {
    View(s.rows, s.next, s.committed, s.chunks, s.down)
  }

  /** The receipts the Primary reads in a run of replicas, in order. */
  ghost function ReceiptsRead(b: Cluster, es: seq<Event>, c: Cluster): seq<(NodeId, nat)>
    requires InFlight(b, es, c)
    decreases |es|
  {
    if es == [] then []
    else
      FirstOfFlight(b, es, c);
      (if es[0].Receipt? then [(es[0].node, b.up[es[0].node][0])] else []) + ReceiptsRead(Step(b, es[0]), es[1..], c)
  }

  lemma FirstOfFlight(b: Cluster, es: seq<Event>, c: Cluster)
    requires es != [] && InFlight(b, es, c)
    ensures Meanwhile(es[0]) && Enabled(b, es[0]) && InFlight(Step(b, es[0]), es[1..], c)
  {
    StepWellFormed(b, es[0]);
    hide Step, Enabled, WellFormed;
    assert Meanwhile(es[0]);
  }

  /** How many messages `n` is sent. */
  ghost function ReadsOf(es: seq<Event>, n: NodeId): nat {
    if es == [] then 0 else (if es[0] == Read(n) then 1 else 0) + ReadsOf(es[1..], n)
  }

  /** Replicas read, receipt and execute compactions, and nothing else happens. */
  predicate Alone(es: seq<Event>) {
    forall i | 0 <= i < |es| :: es[i].Read? || es[i].Receipt? || es[i].ReplicaExecutes?
  }

  /** The Primary's own part stands still while replicas move. */
  ghost predicate PrimaryStands(b: Cluster, c: Cluster) {
    && c.rows == b.rows && c.next == b.next && c.committed == b.committed && c.chunks == b.chunks && c.down.Keys == b.down.Keys
    && b.txn.Some? && c.txn.Some? && c.txn.value == b.txn.value.(acked := c.txn.value.acked)
  }

  ghost predicate QueuesShorten(b: Cluster, es: seq<Event>, c: Cluster) {
    c.down.Keys == b.down.Keys && forall n | n in b.down :: ReadsOf(es, n) <= |b.down[n]| && c.down[n] == b.down[n][ReadsOf(es, n)..]
  }

  /** Everyone who receipted is counted until enough are. */
  ghost predicate Counts(t: Txn, got: set<NodeId>, u: Txn) {
    u.acked <= t.acked + got && (|u.acked| < t.required ==> u.acked == t.acked + got)
  }

  /** One event of a replica, seen from the Primary. */
  lemma EventLeaves(b: Cluster, e: Event)
    requires WellFormed(b) && b.txn.Some? && Alone([e]) && Enabled(b, e)
    ensures var t := Step(b, e);
            && WellFormed(t) && PrimaryStands(b, t)
            && (forall n | n in b.down :: (e == Read(n) ==> b.down[n] != []) && t.down[n] == if e == Read(n) then b.down[n][1..] else b.down[n])
  {
    hide Handle, WellFormed, Executed;
    assert [e][0] == e;
    Streams(b);
    StepWellFormed(b, e);
  }

  lemma Streams(b: Cluster)
    requires WellFormed(b)
    ensures b.nodes.Keys == b.down.Keys == b.up.Keys
  {
  }

  lemma EventCounts(b: Cluster, e: Event)
    requires WellFormed(b) && b.txn.Some? && Alone([e]) && Enabled(b, e)
    ensures var t := Step(b, e);
            && t.txn.Some? && t.txn.value.required == b.txn.value.required && t.txn.value.row == b.txn.value.row && b.txn.value.acked <= t.txn.value.acked
            && Counts(b.txn.value, if e.Receipt? && b.up[e.node][0] == b.txn.value.row.revision then {e.node} else {}, t.txn.value)
  {
    hide Handle, WellFormed, Executed;
    assert [e][0] == e;
  }

  lemma {:induction false} FlightQueues(b: Cluster, es: seq<Event>, c: Cluster)
    requires InFlight(b, es, c) && Alone(es) && b.txn.Some?
    ensures PrimaryStands(b, c) && QueuesShorten(b, es, c)
    decreases |es|
  {
    hide Step, Enabled, WellFormed;
    if es != [] {
      FirstOfFlight(b, es, c);
      EventLeaves(b, es[0]);
      var t := Step(b, es[0]);
      FlightQueues(t, es[1..], c);
      forall n | n in b.down ensures ReadsOf(es, n) <= |b.down[n]| && c.down[n] == b.down[n][ReadsOf(es, n)..] {
        assert t.down[n] == if es[0] == Read(n) then b.down[n][1..] else b.down[n];
      }
    }
  }

  lemma {:induction false} FlightCounts(b: Cluster, es: seq<Event>, c: Cluster)
    requires InFlight(b, es, c) && Alone(es) && b.txn.Some?
    ensures c.txn.Some? && b.txn.value.acked <= c.txn.value.acked && c.txn.value.required == b.txn.value.required
    ensures Counts(b.txn.value, Receipted(ReceiptsRead(b, es, c), b.txn.value.row.revision), c.txn.value)
    decreases |es|
  {
    if es == [] {
      assert Receipted(ReceiptsRead(b, es, c), b.txn.value.row.revision) == {};
    } else {
      FirstOfFlight(b, es, c);
      EventCounts(b, es[0]);
      hide Step, Enabled, InFlight, Counts, WellFormed, Receipted;
      var e, t := es[0], Step(b, es[0]);
      FlightCounts(t, es[1..], c);
      var rev, rest := b.txn.value.row.revision, ReceiptsRead(t, es[1..], c);
      var first := if e.Receipt? then [(e.node, b.up[e.node][0])] else [];
      ReceiptedConcat(first, rest, rev);
      CountMore(b.txn.value, Receipted(first, rev), t.txn.value, Receipted(rest, rev), c.txn.value);
    }
  }

  lemma ReceiptedConcat(a: seq<(NodeId, nat)>, b: seq<(NodeId, nat)>, rev: int)
    ensures Receipted(a + b, rev) == Receipted(a, rev) + Receipted(b, rev)
    ensures |a| == 0 ==> Receipted(a, rev) == {}
    ensures |a| == 1 ==> Receipted(a, rev) == if a[0].1 == rev then {a[0].0} else {}
  {
    var c := a + b;
    forall n | n in Receipted(a, rev) + Receipted(b, rev) ensures n in Receipted(c, rev) {
      if i :| 0 <= i < |a| && a[i].1 == rev && a[i].0 == n {
        assert c[i] == a[i];
      } else {
        var i :| 0 <= i < |b| && b[i].1 == rev && b[i].0 == n;
        assert c[|a| + i] == b[i];
      }
    }
  }

  lemma CountMore(t: Txn, first: set<NodeId>, u: Txn, rest: set<NodeId>, w: Txn)
    requires Counts(t, first, u) && Counts(u, rest, w) && u.required == t.required && u.acked <= w.acked
    ensures Counts(t, first + rest, w)
  {
    SubsetCount(u.acked, w.acked);
  }

  // ---- Outcomes are runs ----

  /** What the replicas did during the wait is what the method was told. */
  ghost predicate Reflects(b: Cluster, mid: seq<Event>, c: Cluster, env: Env) {
    InFlight(b, mid, c) && Alone(mid) && env.receipts == ReceiptsRead(b, mid, c) && forall n :: env.sent(n) == ReadsOf(mid, n)
  }

  ghost function Begin(s: Cluster, r: TxnRequest, env: Env, required: nat): Event
    requires ParseTxnRequest(r).Ok?
  {
    QuorumBegin(ParseTxnRequest(r).value, env.leader, env.at, required, Full(s.down))
  }

  lemma Inserting(s: Cluster, r: TxnRequest, env: Env)
    requires Inserts(s.rows, s.next, r, env)
    ensures ParseTxnRequest(r).Ok?
    ensures InsertRow(s.rows, ToRecord(ParseTxnRequest(r).value, s.next, env.leader), env.at) == Ok(RowOf(s.rows, s.next, r, env))
  {
  }

  /** The wait leaves the Primary as the method leaves it, and the commit is
      enabled exactly when the method counts enough receipts. */
  lemma WaitIsFlight(s: Cluster, r: TxnRequest, env: Env, required: nat, mid: seq<Event>, c: Cluster)
    requires PrimaryInv(s) && s.txn.None? && Inserts(s.rows, s.next, r, env) && required > 0
    requires (Inserting(s, r, env); Enabled(s, Begin(s, r, env, required))) && Reflects(Step(s, Begin(s, r, env, required)), mid, c, env)
    ensures c.txn.Some? && c.txn.value.row == RowOf(s.rows, s.next, r, env) && Project(c) == Waited(Project(s), RowOf(s.rows, s.next, r, env), env.sent)
    ensures forall d :: Enabled(c, QuorumCommit(d)) <==> |Receipted(env.receipts, s.next)| >= required
  {
    hide Step, Row, Enabled, InsertRow, InFlight, PrimaryInv, Receipted, Inserts, RowOf, Full, Counts, QueuesShorten, Taken, Clean;
    Inserting(s, r, env);
    var begin, row := Begin(s, r, env, required), RowOf(s.rows, s.next, r, env);
    PrimaryWellFormed(s);
    BeginRow(s, r, env, required);
    BeginFacts(s, begin);
    BeginStands(s, begin);
    var b := Step(s, begin);
    FlightQueues(b, mid, c);
    FlightCounts(b, mid, c);
    QueuesTaken(s, b, mid, c, row, env.sent);
    CountsEnough(b.txn.value, Receipted(env.receipts, s.next), c.txn.value);
    CommitEnabledIff(c);
  }

  lemma BeginRow(s: Cluster, r: TxnRequest, env: Env, required: nat)
    requires Inserts(s.rows, s.next, r, env)
    ensures ParseTxnRequest(r).Ok? && Row(s, Begin(s, r, env, required)) == Ok(RowOf(s.rows, s.next, r, env))
  {
    hide InsertRow;
  }

  lemma CommitEnabledIff(c: Cluster)
    requires c.txn.Some?
    ensures forall d :: Enabled(c, QuorumCommit(d)) <==> |c.txn.value.acked| >= c.txn.value.required
  {
  }

  lemma BeginStands(s: Cluster, begin: Event)
    requires WellFormed(s) && begin.QuorumBegin? && Enabled(s, begin)
    ensures var b := Step(s, begin);
            && b.rows == s.rows && b.next == s.next && b.committed == s.committed && b.chunks == s.chunks
            && b.down == Broadcast(s.down, RecordMsg(Row(s, begin).value), begin.dropped)
  {
  }

  lemma QueuesTaken(s: Cluster, b: Cluster, mid: seq<Event>, c: Cluster, row: Record, sent: NodeId -> nat)
    requires b.down == Enqueued(s.down, RecordMsg(row)) && QueuesShorten(b, mid, c) && forall n :: sent(n) == ReadsOf(mid, n)
    ensures c.down == Taken(RecordSent(Project(s), row).down, sent)
  {
    hide Enqueued, ReadsOf;
  }

  lemma CountsEnough(t: Txn, got: set<NodeId>, u: Txn)
    requires Counts(t, got, u) && t.acked == {} && u.required == t.required
    ensures |u.acked| >= u.required <==> |got| >= t.required
  {
    SubsetCount(u.acked, got);
  }

  /** Whatever LeaderTxn answers, the Primary it leaves is the Primary after a
      run of the cluster: nothing, a synchronous write or its failure, or a
      quorum write begun, waited for, and committed or rolled back. */
  lemma LeaderTxnIsRun(s: Cluster, r: TxnRequest, env: Env, useQuorum: bool, required: nat, res: TxnResult, v': View, mid: seq<Event>, c: Cluster)
    returns (es: seq<Event>, s': Cluster)
    requires PrimaryInv(s) && s.txn.None?
    requires if Inserts(s.rows, s.next, r, env) then Leaves(Project(s), RowOf(s.rows, s.next, r, env), env, useQuorum, res, v') else v' == Project(s)
    requires Inserts(s.rows, s.next, r, env) && !useQuorum && res.Applied? ==> s.next !in s.chunks && UploadSucceeds(env)
    requires Inserts(s.rows, s.next, r, env) && useQuorum ==>
               && required > 0 && (Inserting(s, r, env); Enabled(s, Begin(s, r, env, required)))
               && Reflects(Step(s, Begin(s, r, env, required)), mid, c, env)
               && (res.Applied? ==> |Receipted(env.receipts, s.next)| >= required)
    ensures WellFormed(s) && Run(s, es, s') && Project(s') == v' && s'.txn.None?
  {
    hide InsertRow, LogInv, Enqueued, Taken, Receipted, Run;
    if !Inserts(s.rows, s.next, r, env) {
      RunNil(s);
      es, s' := [], s;
    } else if useQuorum {
      es, s' := QuorumRun(s, r, env, required, res.Applied?, mid, c);
    } else {
      es, s' := SyncRun(s, r, env, res.Applied?);
    }
  }

  lemma SyncRun(s: Cluster, r: TxnRequest, env: Env, applied: bool) returns (es: seq<Event>, s': Cluster)
    requires PrimaryInv(s) && s.txn.None? && Inserts(s.rows, s.next, r, env) && (applied ==> s.next !in s.chunks && UploadSucceeds(env))
    ensures Run(s, es, s') && s'.txn.None?
    ensures var row := RowOf(s.rows, s.next, r, env); var u := Project(s).(chunks := AfterUpload(s.chunks, s.next, row, env));
            Project(s') == if applied then Committed(RecordSent(u, row), row) else u
  {
    hide InsertRow, PrimaryInv, WellFormed, Inserts, RowOf, Full, Step, Run, Enqueued, ParseTxnRequest, ToRecord;
    PrimaryWellFormed(s);
    Inserting(s, r, env);
    var req, row := ParseTxnRequest(r).value, RowOf(s.rows, s.next, r, env);
    var down := Enqueued(s.down, RecordMsg(row));
    var e := if applied then SyncWrite(req, env.leader, env.at, Full(s.down), Full(down))
    else SyncFail(req, env.leader, env.at, !(env.first.Lost? && env.second.Lost?));
    assert Row(s, e) == Ok(row);
    SyncLeaves(s, e, row);
    RunNil(s);
    RunSnoc(s, [], s, e);
    es, s' := [] + [e], Step(s, e);
  }

  lemma SyncLeaves(s: Cluster, e: Event, row: Record)
    requires WellFormed(s) && Enabled(s, e) && (e.SyncWrite? || e.SyncFail?) && Row(s, e) == Ok(row)
    requires e.SyncWrite? ==> e.dropped == Full(s.down) && e.commitDropped == Full(Enqueued(s.down, RecordMsg(row)))
    ensures var t, u := Step(s, e), Project(s).(chunks := if s.next in s.chunks || (e.SyncFail? && !e.stored) then s.chunks else s.chunks[s.next := row]);
            t.txn.None? && Project(t) == if e.SyncWrite? then Committed(RecordSent(u, row), row) else u
  {
    hide Row, WellFormed, Full, Broadcast;
  }

  lemma QuorumRun(s: Cluster, r: TxnRequest, env: Env, required: nat, applied: bool, mid: seq<Event>, c: Cluster) returns (es: seq<Event>, s': Cluster)
    requires PrimaryInv(s) && s.txn.None? && Inserts(s.rows, s.next, r, env) && required > 0
    requires (Inserting(s, r, env); Enabled(s, Begin(s, r, env, required))) && Reflects(Step(s, Begin(s, r, env, required)), mid, c, env)
    requires applied ==> |Receipted(env.receipts, s.next)| >= required
    ensures Run(s, es, s') && s'.txn.None?
    ensures var row := RowOf(s.rows, s.next, r, env);
            Project(s') == if applied then Committed(Waited(Project(s), row, env.sent), row) else Waited(Project(s), row, env.sent)
  {
    WaitIsFlight(s, r, env, required, mid, c);
    var begin := Begin(s, r, env, required);
    var e := if applied then QuorumCommit(Full(c.down)) else QuorumAbort;
    StepWellFormed(s, begin);
    FlightWellFormed(Step(s, begin), mid, c);
    EndOfWait(c, e);
    hide Step, InsertRow, LogInv, Inserts, RowOf, Full, Waited, Enqueued, Run, WellFormed;
    RunCons(s, begin, mid, c);
    RunSnoc(s, [begin] + mid, c, e);
    es, s' := [begin] + mid + [e], Step(c, e);
  }

  lemma {:induction false} FlightWellFormed(b: Cluster, es: seq<Event>, c: Cluster)
    requires InFlight(b, es, c)
    ensures WellFormed(c) && Run(b, es, c)
    decreases |es|
  {
    if es != [] {
      FirstOfFlight(b, es, c);
      hide Step, Enabled;
      FlightWellFormed(Step(b, es[0]), es[1..], c);
    }
  }

  lemma EndOfWait(c: Cluster, e: Event)
    requires WellFormed(c) && Enabled(c, e) && (e == QuorumAbort || e == QuorumCommit(Full(c.down)))
    ensures var t := Step(c, e); t.txn.None? && Project(t) == if e.QuorumCommit? then Committed(Project(c), c.txn.value.row) else Project(c)
  {
  }

  // ---- Storage against the log ----

  /** A create of the key, and what it inserts into an empty log. */
  function CreateRequest(key: Bytes, v: Bytes): TxnRequest {
    Encode(Create(key, v, 0), false)
  }

  lemma CreateInserts(key: Bytes, v: Bytes, env: Env)
    requires key != [] && env.leader != ""
    ensures Inserts(map[], 1, CreateRequest(key, v), env) && RowOf(map[], 1, CreateRequest(key, v), env).value == v
    ensures RowOf(map[], 1, CreateRequest(key, v), env).revision == 1
  {
    ParseAcceptsExactly(CreateRequest(key, v), Create(key, v, 0));
  }

  /** The first attempt stores the chunk and loses the answer, the second is lost. */
  function SyncEnv(leader: string, first: Attempt, second: Attempt): Env {
    Env(leader, 0, 0, 2, first, second, false, n => 0, [], false)
  }

  /** One receipt is required and `n` sends it. */
  function QuorumEnv(leader: string, n: NodeId): Env {
    Env(leader, 0, 1, 2, Lost, Lost, false, n => 0, [(n, 1)], false)
  }

  /** A synchronous write of revision 1 is reported failed, its chunk stored or
      not; then a write admitted before it failed commits revision 1 by quorum. */
  method TwoWrites(leader: string, n: NodeId, key: Bytes, v: Bytes, v': Bytes, attempt: Attempt)
    returns (p: Primary, first: TxnResult, second: TxnResult)
    requires leader != "" && key != [] && v != v' && !attempt.Answered?
    ensures fresh(p) && p.Valid() && first.UploadFailed? && second.Applied? && p.committed == 1
    ensures var row := RowOf(map[], 1, CreateRequest(key, v), SyncEnv(leader, attempt, Lost));
            && 1 in p.log && p.log[1] != row && p.recovering == [row] && row.revision == 1
            && p.chunks == if attempt.Unanswered? then map[1 := row] else map[]
  {
    hide InsertRow, ToRecord, LogInv, Enqueued;
    var env, env' := SyncEnv(leader, attempt, Lost), QuorumEnv(leader, n);
    CreateInserts(key, v, env);
    CreateInserts(key, v', env');
    EmptyLog();
    p := new Primary(map[], 0, map[], {n}, {n});
    first := p.LeaderTxn(CreateRequest(key, v), env);
    OneReceipt(n);
    assert p.healthy * p.receipted == {n};
    second := p.LeaderTxn(CreateRequest(key, v'), env');
  }

  lemma EmptyLog()
    ensures LogInv(map[], 0)
  {
  }

  lemma OneReceipt(n: NodeId)
    ensures Receipted([(n, 1)], 1) == {n}
  {
    assert [(n, 1)][0].0 == n;
  }

  /** With the chunk stored, storage and log disagree at once. */
  method CommitOverLeftoverChunk(leader: string, n: NodeId, key: Bytes, v: Bytes, v': Bytes) returns (p: Primary, second: TxnResult)
    requires leader != "" && key != [] && v != v'
    ensures fresh(p) && p.Valid() && second.Applied? && !p.ChunksAgree()
  {
    var first;
    p, first, second := TwoWrites(leader, n, key, v, v', Unanswered);
  }

  /** Without it, they disagree once the recovery of the failed write succeeds. */
  method RecoveryOverCommit(leader: string, n: NodeId, key: Bytes, v: Bytes, v': Bytes) returns (p: Primary, second: TxnResult, recovered: bool)
    requires leader != "" && key != [] && v != v'
    ensures fresh(p) && p.Valid() && second.Applied? && recovered && !p.ChunksAgree()
  {
    var first;
    p, first, second := TwoWrites(leader, n, key, v, v', Lost);
    recovered := p.RecoverUpload(0, Answered, false);
  }
}
