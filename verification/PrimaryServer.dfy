/** The Primary's write path, updated in place: LeaderTxn with its two commit
    paths, and the recovery uploads. */
module PrimaryServer {
  import opened Bytes
  import opened Records
  import opened Sets
  import opened Mvcc
  import opened Ranges
  import opened Replication
  import opened Transactions

  const STREAM_BUFFER_SIZE: nat := 256

  /** The part of the cluster a write changes. */
  datatype View = View(log: Table, next: nat, committed: nat, chunks: map<nat, Record>, down: map<NodeId, seq<Msg>>)

  /** The sessions whose buffer is full miss the message. */
  function Full(down: map<NodeId, seq<Msg>>): set<NodeId> {
    set n | n in down && |down[n]| >= STREAM_BUFFER_SIZE
  }

  function Enqueued(down: map<NodeId, seq<Msg>>, m: Msg): map<NodeId, seq<Msg>> {
    Broadcast(down, m, Full(down))
  }

  /** Each session's sender has taken some messages off its queue. */
  function Taken(down: map<NodeId, seq<Msg>>, sent: NodeId -> nat): map<NodeId, seq<Msg>> {
    map n | n in down :: if sent(n) <= |down[n]| then down[n][sent(n)..] else []
  }

  function RecordSent(v: View, row: Record): View {
    v.(down := Enqueued(v.down, RecordMsg(row)))
  }

  /** The record is out and the wait for receipts is over. */
  function Waited(v: View, row: Record, sent: NodeId -> nat): View {
    v.(down := Taken(RecordSent(v, row).down, sent))
  }

  /** The row becomes the head of the log and its commit is broadcast. */
  function Committed(v: View, row: Record): View {
    v.(log := v.log[v.next := row], next := v.next + 1, committed := v.next, down := Enqueued(v.down, Commit(v.next)))
  }

  /** What the storage, the clock and the replicas do during one write: `sent`
      counts the messages each session's sender takes during the wait. */
  datatype Env = Env(
    leader: string,
    at: int,
    quorum: int,
    nodeCount: int,
    first: Attempt,
    second: Attempt,
    commitFails: bool,
    sent: NodeId -> nat,
    receipts: seq<(NodeId, nat)>,
    timedOut: bool)

  datatype TxnResult =
    | Applied(row: Record)
    | FailureRange(answer: Result<RangeResponse, RangeError>)
    | NotActive
    | ClientGone
    | BadRequest(why: ParseError)
    | InsertRejected(why': InsertError)
    | UploadFailed
    | CommitFailed
    | QuorumNotMet

  /** Distinct nodes whose receipts name the revision. */
  ghost function Receipted(receipts: seq<(NodeId, nat)>, revision: int): set<NodeId> {
    set i | 0 <= i < |receipts| && receipts[i].1 == revision :: receipts[i].0
  }

  /** Whoever sends a receipt has receipted, whatever its revision. */
  function Senders(receipts: seq<(NodeId, nat)>): set<NodeId> {
    set i | 0 <= i < |receipts| :: receipts[i].0
  }

  /** One of the two attempts is acknowledged, the first not having stored the
      chunk silently. */
  predicate UploadSucceeds(env: Env) {
    env.first.Answered? || (env.first.Lost? && env.second.Answered?)
  }

  /** The chunks after both attempts at a strict create. */
  function AfterUpload(chunks: map<nat, Record>, revision: nat, row: Record, env: Env): map<nat, Record> {
    if revision in chunks || (env.first.Lost? && env.second.Lost?) then chunks else chunks[revision := row]
  }

  function PointRead(key: Bytes): RangeRequest {
    RangeRequest(k => k == key, 0, 0, false, false, 0, 0, 0, 0, false, 0, false, false)
  }

  /** Every chunk of a committed revision holds the committed row. */
  ghost predicate Agree(v: View) {
    forall r | r in v.chunks && r <= v.committed :: r in v.log && v.chunks[r] == v.log[r]
  }

  /** What InsertRecord makes of the request, if it parses. */
  function Inserted(log: Table, revision: nat, r: TxnRequest, env: Env): Option<Result<Record, InsertError>> {
    var parsed := ParseTxnRequest(r);
    if parsed.Err? then None else Some(InsertRow(log, ToRecord(parsed.value, revision, env.leader), env.at))
  }

  predicate Inserts(log: Table, revision: nat, r: TxnRequest, env: Env) {
    Inserted(log, revision, r, env).Some? && Inserted(log, revision, r, env).value.Ok?
  }

  function RowOf(log: Table, revision: nat, r: TxnRequest, env: Env): Record
    requires Inserts(log, revision, r, env)
  {
    Inserted(log, revision, r, env).value.value
  }

  class Primary {
    var log: Table
    var nextRevisionId: nat
    var committed: nat
    var state: PrimaryState
    var chunks: map<nat, Record>
    var followStreams: map<NodeId, seq<Msg>>
    var buffered: seq<Record>
    /** Connected replicas that are healthy, and those that have receipted before. */
    var healthy: set<NodeId>
    var receipted: set<NodeId>
    /** The records that failed synchronous writes are still trying to upload. */
    var recovering: seq<Record>
    var flushRequested: bool

    ghost function Now(): View
      reads this
    {
      View(log, nextRevisionId, committed, chunks, followStreams)
    }

    /** With the write gate free: the log is gap-free and linked, the counters
        agree with it, and no chunk of an Active Primary is ahead of it. */
    ghost predicate Valid()
      reads this
    {
      && nextRevisionId == committed + 1 && LogInv(log, committed)
      && (state == Active ==> recovering == [] && forall r | r in chunks :: r <= committed)
    }

    ghost predicate ChunksAgree()
      reads this
    {
      Agree(Now())
    }

    function Strategy(env: Env): (s: Strategy)
      reads this
      ensures env.quorum == 0 ==> !s.useQuorum
      ensures env.quorum > 0 ==> (s.useQuorum <==> |healthy * receipted| >= env.quorum) && (s.useQuorum ==> s.requiredReceipts == env.quorum)
      ensures env.quorum < 0 ==> (s.useQuorum <==> env.nodeCount >= 2 && |healthy * receipted| >= env.nodeCount / 2)
      ensures env.quorum < 0 && s.useQuorum ==> s.requiredReceipts == env.nodeCount / 2
    {
      SelectTxnStrategy(env.quorum, env.nodeCount, |healthy * receipted|)
    }

    constructor (log: Table, n: nat, chunks: map<nat, Record>, healthy: set<NodeId>, receipted: set<NodeId>)
      requires LogInv(log, n) && forall r | r in chunks :: r <= n
      ensures Valid() && Now() == View(log, n + 1, n, chunks, map[]) && state == Active && buffered == []
      ensures this.healthy == healthy && this.receipted == receipted
    {
      this.log, nextRevisionId, committed := log, n + 1, n;
      state, this.chunks, followStreams, buffered := Active, chunks, map[], [];
      this.healthy, this.receipted, recovering, flushRequested := healthy, receipted, [], false;
    }

    method BroadcastToFollowers(m: Msg)
      modifies this`followStreams
      ensures followStreams == Enqueued(old(followStreams), m)
      ensures followStreams.Keys == old(followStreams).Keys
      ensures forall n | n in followStreams ::
                followStreams[n] == old(followStreams)[n] + if |old(followStreams)[n]| < STREAM_BUFFER_SIZE then [m] else []
    {
      var todo := followStreams.Keys;
      var out: map<NodeId, seq<Msg>> := map[];
      while todo != {}
        invariant todo <= followStreams.Keys && out.Keys == followStreams.Keys - todo
        invariant followStreams == old(followStreams)
        invariant forall n | n in out :: out[n] == Enqueued(followStreams, m)[n]
        decreases |todo|
      {
        var n :| n in todo;
        todo := todo - {n};
        out := out[n := if |followStreams[n]| < STREAM_BUFFER_SIZE then followStreams[n] + [m] else followStreams[n]];
      }
      followStreams := out;
    }

    /** The SQLite commit and the revision counter. */
    method AppendRow(row: Record)
      requires nextRevisionId == committed + 1 && LogInv(log, committed) && Extends(log, committed, row)
      modifies this`log, this`nextRevisionId
      ensures log == old(log)[old(nextRevisionId) := row] && nextRevisionId == old(nextRevisionId) + 1 && LogInv(log, nextRevisionId - 1)
    {
      AppendKeepsLog(log, committed, row);
      log := log[nextRevisionId := row];
      nextRevisionId := nextRevisionId + 1;
    }

    /** A strict create of the revision's chunk, retried once. */
    method WriteRecord(row: Record, env: Env) returns (ok: bool)
      modifies this`chunks
      ensures ok <==> nextRevisionId !in old(chunks) && UploadSucceeds(env)
      ensures ok <==> nextRevisionId !in old(chunks) && (env.first.Answered? || (env.first.Lost? && env.second.Answered?))
      ensures chunks == AfterUpload(old(chunks), nextRevisionId, row, env)
      ensures chunks == if nextRevisionId in old(chunks) || (env.first.Lost? && env.second.Lost?) then old(chunks) else old(chunks)[nextRevisionId := row]
    {
      ok := PutIfMatch(nextRevisionId, row, env.first);
      if !ok {
        ok := PutIfMatch(nextRevisionId, row, env.second);
      }
    }

    method PutIfMatch(revision: nat, row: Record, attempt: Attempt) returns (ok: bool)
      modifies this`chunks
      ensures ok <==> revision !in old(chunks) && attempt.Answered?
      ensures chunks == if revision in old(chunks) || attempt.Lost? then old(chunks) else old(chunks)[revision := row]
    {
      if revision in chunks || attempt.Lost? {
        return false;
      }
      chunks := chunks[revision := row];
      return attempt.Answered?;
    }

    /** Path 1. The chunk is created first; SQLite commits after it. A failed
        upload starts the recovery of its record. */
    method ExecuteObjectStorageTxn(row: Record, env: Env) returns (r: TxnResult)
      requires Valid() && Extends(log, committed, row)
      modifies this
      ensures Valid() && buffered == old(buffered) && healthy == old(healthy) && receipted == old(receipted)
      ensures r.Applied? <==> old(nextRevisionId) !in old(chunks) && UploadSucceeds(env) && !env.commitFails
      ensures r.Applied? ==>
                && r.row == row && state == old(state)
                && Now() == Committed(RecordSent(old(Now()).(chunks := AfterUpload(old(chunks), old(nextRevisionId), row, env)), row), row)
      ensures !r.Applied? ==> state != Active && Now() == old(Now()).(chunks := AfterUpload(old(chunks), nextRevisionId, row, env))
      ensures r.UploadFailed? <==> !(old(nextRevisionId) !in old(chunks) && UploadSucceeds(env))
      ensures recovering == old(recovering) + if r.UploadFailed? then [row] else []
      ensures r.Applied? || r.UploadFailed? || r.CommitFailed?
      ensures state == old(state) || state == Draining
    {
      hide LogInv, Extends, Enqueued;
      var stored := WriteRecord(row, env);
      if !stored {
        state := if state == Active then Draining else state;
        recovering := recovering + [row];
        return UploadFailed;
      }
      if env.commitFails {
        state := if state == Active then Draining else state;
        return CommitFailed;
      }
      AppendRow(row);
      BroadcastToFollowers(RecordMsg(row));
      committed := nextRevisionId - 1;
      BroadcastToFollowers(Commit(committed));
      return Applied(row);
    }

    /** One round of one recovery loop, beside whatever else goes on: a create
        that tolerates an object with identical bytes, then resignation. */
    method RecoverUpload(i: nat, attempt: Attempt, identical: bool) returns (ok: bool)
      requires Valid() && i < |recovering| && recovering[i].revision >= 0
      modifies this`chunks, this`state, this`recovering
      ensures Valid() && Now() == old(Now()).(chunks := chunks)
      ensures var row := old(recovering)[i]; var key := row.revision as nat;
              && chunks == (if key in old(chunks) || attempt.Lost? then old(chunks) else old(chunks)[key := row])
              && (ok <==> attempt.Answered? && (key !in old(chunks) || (identical && old(chunks)[key] == row)))
              // The other way storage and log come to disagree: the failed
              // record is stored after its revision was committed with another.
              && (old(ChunksAgree()) ==>
                    (ChunksAgree() <==> !(key !in old(chunks) && !attempt.Lost? && key <= committed && (key !in log || log[key] != row))))
      ensures ok ==> recovering == old(recovering)[..i] + old(recovering)[i + 1..] && state != Draining && state != Active
      ensures !ok ==> recovering == old(recovering) && state == old(state)
    {
      hide LogInv;
      var row := recovering[i];
      var existed := row.revision as nat in chunks;
      var same := existed && chunks[row.revision as nat] == row && identical;
      var created := PutIfMatch(row.revision as nat, row, attempt);
      ok := created || (attempt.Answered? && same);
      if ok {
        state := if state == Draining then AsReplica else state;
        recovering := recovering[..i] + recovering[i + 1..];
      }
    }

    /** Receipts arrive and are matched by revision until the wait ends. */
    method AwaitReceipts(revision: nat, required: int, env: Env) returns (met: bool, acked: set<NodeId>)
      requires required > 0
      ensures met <==> |Receipted(env.receipts, revision)| >= required && !env.timedOut
      // Enough distinct nodes have sent a receipt of this very revision.
      ensures met ==> |acked| >= required
      ensures forall n | n in acked :: exists i | 0 <= i < |env.receipts| :: env.receipts[i] == (n, revision)
      ensures acked <= Receipted(env.receipts, revision) && (|Receipted(env.receipts, revision)| < required ==> acked == Receipted(env.receipts, revision))
    {
      hide Receipted;
      NoneReceipted(env.receipts, revision);
      var collector := new ReceiptCollector(revision, required);
      for i := 0 to |env.receipts|
        invariant fresh(collector) && collector.Valid() && collector.revision == revision && collector.required == required
        invariant collector.acked <= Receipted(env.receipts[..i], revision)
        invariant !collector.done ==> collector.acked == Receipted(env.receipts[..i], revision)
      {
        ReceiptedSnoc(env.receipts, i, revision);
        if env.receipts[i].1 == collector.revision {
          collector.CollectReceipt(env.receipts[i].0);
        }
      }
      assert env.receipts[..|env.receipts|] == env.receipts;
      ReceiptedExact(env.receipts, revision);
      SubsetCount(collector.acked, Receipted(env.receipts, revision));
      met := collector.done && !env.timedOut;
      acked := collector.acked;
    }

    method CommitRow(row: Record)
      requires nextRevisionId == committed + 1 && LogInv(log, committed) && Extends(log, committed, row)
      modifies this`log, this`nextRevisionId, this`committed, this`followStreams
      ensures Now() == Committed(old(Now()), row) && committed == old(committed) + 1 && nextRevisionId == committed + 1 && LogInv(log, committed)
    {
      hide LogInv, Extends, Enqueued;
      AppendRow(row);
      committed := nextRevisionId - 1;
      BroadcastToFollowers(Commit(committed));
    }

    /** Path 2. The record goes out before the wait; a failed wait rolls back,
        degrades the replicas it waited for in vain and asks for a flush. */
    method ExecuteQuorumTxn(row: Record, env: Env, required: int) returns (r: TxnResult)
      requires Valid() && Extends(log, committed, row) && required > 0
      modifies this
      ensures Valid() && state == old(state) && recovering == old(recovering) && receipted == old(receipted) + Senders(env.receipts)
      ensures forall n :: n in receipted <==> n in old(receipted) || exists i | 0 <= i < |env.receipts| :: env.receipts[i].0 == n
      ensures r.Applied? <==> |Receipted(env.receipts, old(nextRevisionId))| >= required && !env.timedOut && !env.commitFails
      ensures r.Applied? ==>
                && r.row == row && buffered == old(buffered) + [row] && healthy == old(healthy)
                && Now() == Committed(Waited(old(Now()), row, env.sent), row)
      ensures !r.Applied? ==> (r.QuorumNotMet? || r.CommitFailed?) && Now() == Waited(old(Now()), row, env.sent) && buffered == old(buffered)
      ensures !r.QuorumNotMet? ==> healthy == old(healthy)
      ensures r.QuorumNotMet? ==> flushRequested && healthy <= old(healthy)
      ensures r.QuorumNotMet? && |Receipted(env.receipts, old(nextRevisionId))| < required ==>
                healthy == old(healthy) - (receipted - Receipted(env.receipts, old(nextRevisionId)))
    {
      hide LogInv, Extends, Enqueued, Receipted, Taken, Senders;
      BroadcastToFollowers(RecordMsg(row));
      followStreams := Taken(followStreams, env.sent);
      var met, acked := AwaitReceipts(nextRevisionId, required, env);
      SendersExact(env.receipts);
      receipted := receipted + Senders(env.receipts);
      if !met {
        healthy := healthy - (receipted - acked);
        flushRequested := true;
        return QuorumNotMet;
      }
      if env.commitFails {
        return CommitFailed;
      }
      CommitRow(row);
      buffered := buffered + [row];
      return Applied(row);
    }

    /** Before the gate: writes are taken by an Active Primary only, and a client
        that went away while waiting is not admitted. */
    method Admit(canceled: bool) returns (refused: Option<TxnResult>)
      ensures refused == if state != Active then Some(NotActive) else if canceled then Some(ClientGone) else None
    {
      if state != Active {
        return Some(NotActive);
      }
      return if canceled then Some(ClientGone) else None;
    }

    /** The write's row goes down the path its strategy selects. */
    method Execute(row: Record, env: Env, strategy: Strategy) returns (res: TxnResult)
      requires Valid() && Extends(log, committed, row) && (strategy.useQuorum ==> strategy.requiredReceipts > 0)
      modifies this
      ensures Valid() && (state == old(state) || state == Draining)
      ensures res.Applied? || res.UploadFailed? || res.CommitFailed? || res.QuorumNotMet?
      ensures res.Applied? <==>
                && !env.commitFails
                && if strategy.useQuorum
                   then |Receipted(env.receipts, old(nextRevisionId))| >= strategy.requiredReceipts && !env.timedOut
                   else old(nextRevisionId) !in old(chunks) && UploadSucceeds(env)
      ensures res.Applied? ==> res.row == row
      ensures res.UploadFailed? <==> !strategy.useQuorum && !(old(nextRevisionId) !in old(chunks) && UploadSucceeds(env))
      ensures res.UploadFailed? ==> state != Active
      ensures recovering == old(recovering) + if res.UploadFailed? then [row] else []
      ensures buffered == old(buffered) + if res.Applied? && strategy.useQuorum then [row] else []
      ensures res.QuorumNotMet? ==> flushRequested && healthy <= old(healthy)
      ensures !res.QuorumNotMet? ==> healthy == old(healthy)
      ensures receipted == old(receipted) + if strategy.useQuorum then Senders(env.receipts) else {}
      ensures Leaves(old(Now()), row, env, strategy.useQuorum, res, Now())
      ensures LeavesQueues(old(Now()), row, env, strategy.useQuorum, res, Now())
      ensures old(ChunksAgree()) && res.Applied? ==>
                (ChunksAgree() <==> (old(nextRevisionId) in old(chunks) ==> old(chunks)[old(nextRevisionId)] == row))
      ensures old(ChunksAgree()) && !res.Applied? ==> ChunksAgree()
    {
      hide Extends, LogInv, RecordSent, Waited, Committed, AfterUpload, Receipted, Senders, Agree, QueueAfter;
      ghost var before := Now();
      if strategy.useQuorum {
        res := ExecuteQuorumTxn(row, env, strategy.requiredReceipts);
      } else {
        res := ExecuteObjectStorageTxn(row, env);
      }
      LeftQueues(before, row, env, strategy.useQuorum, res, Now());
      if Agree(before) {
        LeavesAgreement(before, row, env, strategy.useQuorum, res, Now());
      }
    }

    /** Parses the request and inserts its row in the transaction; a refused
        compare answers a read of the current value. */
    method TryInsert(r: TxnRequest, env: Env) returns (refused: Option<TxnResult>, row: Record)
      requires Valid()
      ensures refused.None? <==> Inserts(log, nextRevisionId, r, env)
      ensures refused.None? ==> row == RowOf(log, nextRevisionId, r, env) && Extends(log, committed, row)
      ensures refused.Some? ==> refused.value.BadRequest? || refused.value.InsertRejected? || refused.value.FailureRange?
      ensures (refused.Some? && refused.value.FailureRange?) <==>
                Inserted(log, nextRevisionId, r, env) == Some(Err(CompareRevisionFailed)) && |r.failure| == 1
      ensures refused.Some? && refused.value.FailureRange? ==> ReadsCurrent(log, committed, ParseTxnRequest(r).value.key, refused.value.answer)
    {
      hide InsertRow, Extends, LogInv, ParseTxnRequest, ReadsCurrent, AnswersStore;
      var parsed := ParseTxnRequest(r);
      if parsed.Err? {
        return Some(BadRequest(parsed.error)), ZERO_RECORD;
      }
      var record := ToRecord(parsed.value, nextRevisionId, env.leader);
      var inserted := InsertRow(log, record, env.at);
      if inserted == Err(CompareRevisionFailed) && |r.failure| == 1 {
        var answer := Range(log, PointRead(parsed.value.key));
        PointReadAnswers(log, committed, parsed.value.key, answer);
        return Some(FailureRange(answer)), ZERO_RECORD;
      } else if inserted.Err? {
        return Some(InsertRejected(inserted.error)), ZERO_RECORD;
      }
      InsertedExtends(log, committed, record, env.at);
      return None, inserted.value;
    }

    /** One admitted write, once it holds the write gate. The state may have
        changed since it was admitted. */
    method LeaderTxn(r: TxnRequest, env: Env) returns (res: TxnResult)
      requires Valid()
      modifies this
      ensures Valid()
      // Applied exactly when the compare holds and the path it takes succeeds.
      ensures res.Applied? <==>
                && Inserts(old(log), old(nextRevisionId), r, env) && !env.commitFails
                && if old(Strategy(env)).useQuorum
                   then |Receipted(env.receipts, old(nextRevisionId))| >= old(Strategy(env)).requiredReceipts && !env.timedOut
                   else old(nextRevisionId) !in old(chunks) && UploadSucceeds(env)
      ensures res.Applied? ==> res.row == RowOf(old(log), old(nextRevisionId), r, env)
      // What is left of the write in every case: the log and the counters move
      // exactly when it is applied, and each session's queue says which
      // messages went out.
      ensures if Inserts(old(log), old(nextRevisionId), r, env)
              then var row, useQuorum := RowOf(old(log), old(nextRevisionId), r, env), old(Strategy(env)).useQuorum;
                   Leaves(old(Now()), row, env, useQuorum, res, Now()) && LeavesQueues(old(Now()), row, env, useQuorum, res, Now())
              else Now() == old(Now())
      ensures buffered == old(buffered) + if res.Applied? && old(Strategy(env)).useQuorum then [res.row] else []
      ensures res.QuorumNotMet? ==> flushRequested && healthy <= old(healthy)
      // A refused compare answers a read of the current value.
      ensures res.FailureRange? <==>
                Inserted(old(log), old(nextRevisionId), r, env) == Some(Err(CompareRevisionFailed)) && |r.failure| == 1
      ensures res.FailureRange? ==> ReadsCurrent(log, committed, ParseTxnRequest(r).value.key, res.answer)
      // A chunk can only be left ahead of the log by a Primary that stops.
      ensures res.UploadFailed? <==>
                && Inserts(old(log), old(nextRevisionId), r, env) && !old(Strategy(env)).useQuorum
                && !(old(nextRevisionId) !in old(chunks) && UploadSucceeds(env))
      ensures res.UploadFailed? ==> state != Active
      ensures recovering == old(recovering) + if res.UploadFailed? then [RowOf(old(log), old(nextRevisionId), r, env)] else []
      ensures !res.QuorumNotMet? ==> healthy == old(healthy)
      ensures receipted == old(receipted) +
                if Inserts(old(log), old(nextRevisionId), r, env) && old(Strategy(env)).useQuorum then Senders(env.receipts) else {}
      // Committing over a chunk an earlier write left makes storage and log
      // disagree; an Active Primary never does.
      ensures old(ChunksAgree()) && res.Applied? ==>
                (ChunksAgree() <==> (old(nextRevisionId) in old(chunks) ==>
                                       old(chunks)[old(nextRevisionId)] == RowOf(old(log), old(nextRevisionId), r, env)))
      ensures old(ChunksAgree()) && old(state) == Active ==> ChunksAgree()
      ensures state == old(state) || state == Draining
    {
      hide Inserted, Inserts, RowOf, Extends, LogInv, Receipted, Senders, Agree, Leaves, LeavesQueues, UploadSucceeds, ReadsCurrent;
      var strategy := Strategy(env);
      var refused, row := TryInsert(r, env);
      if refused.Some? {
        return refused.value;
      }
      res := Execute(row, env, strategy);
    }
  }

  /** The Primary after the write, by its outcome. */
  ghost predicate Leaves(v: View, row: Record, env: Env, useQuorum: bool, res: TxnResult, v': View) {
    if useQuorum then v' == if res.Applied? then Committed(Waited(v, row, env.sent), row) else Waited(v, row, env.sent)
    else
      var u := v.(chunks := AfterUpload(v.chunks, v.next, row, env));
      v' == if res.Applied? then Committed(RecordSent(u, row), row) else u
  }

  /** What a write leaves of one session's queue. A synchronous write sends its
      record and then its commit once it is applied, each as far as there is
      room. A quorum write sends the record, the sender takes `taken` messages
      during the wait, and the commit follows if the write is applied. */
  ghost predicate QueueAfter(q: seq<Msg>, row: Record, revision: nat, useQuorum: bool, taken: nat, applied: bool, q': seq<Msg>) {
    if !useQuorum then
      q' == if !applied || |q| >= STREAM_BUFFER_SIZE then q
            else if |q| + 1 < STREAM_BUFFER_SIZE then q + [RecordMsg(row), Commit(revision)]
            else q + [RecordMsg(row)]
    else
      var sent := if |q| < STREAM_BUFFER_SIZE then q + [RecordMsg(row)] else q;
      var left := if taken <= |sent| then sent[taken..] else [];
      q' == if applied && |left| < STREAM_BUFFER_SIZE then left + [Commit(revision)] else left
  }

  /** The log and the counters move exactly when the write is applied, and the
      queues of the same sessions hold what was sent. */
  ghost predicate LeavesQueues(v: View, row: Record, env: Env, useQuorum: bool, res: TxnResult, v': View) {
    && v'.log == (if res.Applied? then v.log[v.next := row] else v.log)
    && v'.next == (if res.Applied? then v.next + 1 else v.next)
    && v'.down.Keys == v.down.Keys
    && forall n | n in v'.down :: QueueAfter(v.down[n], row, v.next, useQuorum, env.sent(n), res.Applied?, v'.down[n])
  }

  lemma LeftQueues(v: View, row: Record, env: Env, useQuorum: bool, res: TxnResult, v': View)
    requires Leaves(v, row, env, useQuorum, res, v')
    ensures LeavesQueues(v, row, env, useQuorum, res, v')
  {
    hide AfterUpload;
  }

  /** The answer is the key's value in the newest map, or that its row is erased. */
  ghost predicate ReadsCurrent(t: Table, n: nat, key: Bytes, r: Result<RangeResponse, RangeError>) {
    var s := StoreAt(t, n);
    if r.Ok? then r.value == RangeResponse(if key in s then [s[key]] else [], if key in s then 1 else 0, false)
    else r.error == Compacted && key in s && t[LatestRev(t, key, n)].compactedAt.Some?
  }

  /** The failure range reads one key of the newest map. */
  lemma PointReadAnswers(t: Table, n: nat, key: Bytes, r: Result<RangeResponse, RangeError>)
    requires LogInv(t, n) && AnswersStore(r, t, MaxRev(t), PointRead(key))
    ensures ReadsCurrent(t, n, key, r)
  {
    hide LogInv, StoreAt, LatestRev, Less;
    HeadOfLog(t, n);
    var m := Matching(StoreAt(t, n), PointRead(key).filter);
    assert m == if key in StoreAt(t, n) then {key} else {};
    if r.Ok? {
      OneKeyListed(r.value.kvs, StoreAt(t, n), PointRead(key).filter, key);
    }
  }

  lemma OneKeyListed(kvs: seq<KeyValue>, s: Store, f: Filter, key: Bytes)
    requires Lists(kvs, s, f, 0) && forall k :: f(k) <==> k == key
    ensures kvs == if key in s then [s[key]] else []
  {
    hide Less;
    var first, second := if |kvs| > 0 then kvs[0].key else key, if |kvs| > 1 then kvs[1].key else key;
    assert |kvs| > 0 ==> first in Matching(s, f);
    assert key in s ==> key in Matching(s, f);
    LessIrreflexive(key);
    assert |kvs| <= 1;
  }

  /** A commit over a chunk that an earlier write left is what breaks agreement. */
  lemma LeavesAgreement(v: View, row: Record, env: Env, useQuorum: bool, res: TxnResult, v': View)
    requires Agree(v) && v.next == v.committed + 1 && Leaves(v, row, env, useQuorum, res, v')
    requires res.Applied? && !useQuorum ==> v.next !in v.chunks && UploadSucceeds(env)
    ensures res.Applied? ==> (Agree(v') <==> (v.next in v.chunks ==> v.chunks[v.next] == row))
    ensures !res.Applied? ==> Agree(v')
  {
    hide Enqueued, Taken;
  }

  lemma SendersExact(receipts: seq<(NodeId, nat)>)
    ensures forall n :: n in Senders(receipts) <==> exists i | 0 <= i < |receipts| :: receipts[i].0 == n
  {
  }

  lemma ReceiptedExact(receipts: seq<(NodeId, nat)>, revision: nat)
    ensures forall n :: n in Receipted(receipts, revision) <==> exists i | 0 <= i < |receipts| :: receipts[i] == (n, revision)
  {
  }

  lemma NoneReceipted(receipts: seq<(NodeId, nat)>, revision: int)
    ensures Receipted(receipts[..0], revision) == {}
  {
  }

  lemma ReceiptedSnoc(receipts: seq<(NodeId, nat)>, i: nat, revision: int)
    requires i < |receipts|
    ensures Receipted(receipts[..i + 1], revision) ==
            Receipted(receipts[..i], revision) + if receipts[i].1 == revision then {receipts[i].0} else {}
  {
  }
}
