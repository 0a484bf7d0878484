/** The follower's stream handlers and the watch manager's pending set, updated
    in place, each proved against the replica steps of the cluster model. */
module FollowerServer {
  import opened Records
  import opened Replicate
  import opened Replication
  import Queues

  ghost predicate StrictlyAscending(s: seq<nat>) {
    forall i, j | 0 <= i < j < |s| :: s[i] < s[j]
  }

  /** sort.Slice on distinct revisions, by insertion. */
  method SortRevisions(s: seq<nat>) returns (r: seq<nat>)
    requires forall i, j | 0 <= i < j < |s| :: s[i] != s[j]
    ensures StrictlyAscending(r)
    ensures forall x :: x in r <==> x in s
  {
    r := [];
    for i := 0 to |s|
      invariant StrictlyAscending(r)
      invariant forall x :: x in r <==> x in s[..i]
    {
      var x := s[i];
      var j := |r|;
      while j > 0 && r[j - 1] > x
        invariant 0 <= j <= |r|
        invariant forall k | j <= k < |r| :: r[k] > x
      {
        j := j - 1;
      }
      assert x !in r;
      InsertSorted(r, j, x);
      r := r[..j] + [x] + r[j..];
      assert s[..i + 1] == s[..i] + [x];
    }
    assert s[..|s|] == s;
  }

  lemma InsertSorted(r: seq<nat>, j: nat, x: nat)
    requires StrictlyAscending(r) && j <= |r| && x !in r
    requires (j > 0 ==> r[j - 1] <= x) && forall k | j <= k < |r| :: r[k] > x
    ensures StrictlyAscending(r[..j] + [x] + r[j..])
    ensures forall y :: y in r[..j] + [x] + r[j..] <==> y == x || y in r
  {
  }

  /** The records found for the revisions, in their order. */
  ghost function Found(rows: Table, revs: seq<nat>): seq<Record> {
    if revs == [] then []
    else Found(rows, revs[..|revs| - 1]) + if revs[|revs| - 1] in rows then [rows[revs[|revs| - 1]]] else []
  }

  /** Reading the sorted ready revisions is reading the pending set in order. */
  lemma {:induction false} SortedReady(rows: Table, pending: set<nat>, rev: nat, revs: seq<nat>)
    requires StrictlyAscending(revs) && 0 !in pending
    requires forall r :: r in revs <==> r in pending && r <= rev
    ensures Found(rows, revs) == Ready(rows, pending, rev)
    decreases rev
  {
    assert revs != [] ==> revs[0] in revs;
    if rev == 0 {
    } else if rev in pending {
      var last := |revs| - 1;
      assert rev in revs;
      var i :| 0 <= i < |revs| && revs[i] == rev;
      assert revs[last] in revs;
      assert i == last;
      forall r ensures r in revs[..last] <==> r in pending && r <= rev - 1 {
        assert r in revs <==> r in revs[..last] || r == rev by { assert revs == revs[..last] + [rev]; }
      }
      SortedReady(rows, pending, rev - 1, revs[..last]);
    } else {
      SortedReady(rows, pending, rev - 1, revs);
    }
  }

  // ---- The follow stream ----

  /** The four payloads of a message from the Primary. */
  datatype Inbound = Opening(committed: nat, compaction: int) | Entry(rec: Record) | CommittedTo(rev: nat) | CompactAt(compaction: int)

  predicate PositiveEntries(msgs: seq<Inbound>) {
    forall m | m in msgs :: m.Entry? ==> m.rec.revision > 0
  }

  /** How the calls made while handling a message end: the compaction revision is
      read, then persisted, and a receipt is sent, then sent again. */
  datatype Calls = Calls(compactionRead: bool, persisted: bool, sent: bool, resent: bool) {
    predicate AllSucceed() {
      compactionRead && persisted && (sent || resent)
    }
  }

  /** The messages of the cluster model; the compaction revision of the opening
      one is only the follower's own affair. */
  function LogMessages(msgs: seq<Inbound>): (q: seq<Msg>)
    requires PositiveEntries(msgs)
    ensures PositiveRevisions(q)
    ensures |q| == |msgs| && forall i | 0 <= i < |msgs| ::
              && (msgs[i].Opening? ==> q[i] == Initial(msgs[i].committed))
              && (msgs[i].Entry? ==> q[i] == RecordMsg(msgs[i].rec))
              && (msgs[i].CommittedTo? ==> q[i] == Commit(msgs[i].rev))
              && (msgs[i].CompactAt? ==> q[i] == CompactMsg(msgs[i].compaction))
  {
    if msgs == [] then []
    else
      var last := msgs[|msgs| - 1];
      assert last in msgs;
      LogMessages(msgs[..|msgs| - 1]) + match last
        case Opening(c, _) => [Initial(c)]
        case Entry(rec) => [RecordMsg(rec)]
        case CommittedTo(c) => [Commit(c)]
        case CompactAt(c) => [CompactMsg(c)]
  }

  /** The revisions of the record messages, in stream order. */
  ghost function RecordRevisions(msgs: seq<Inbound>): seq<int> {
    if msgs == [] then []
    else
      var last := msgs[|msgs| - 1];
      RecordRevisions(msgs[..|msgs| - 1]) + if last.Entry? then [last.rec.revision] else []
  }

  /** The positions of the record messages before position `n`. */
  ghost function Entries(msgs: seq<Inbound>, n: nat): set<nat>
    requires n <= |msgs|
  {
    set j | 0 <= j < n && msgs[j].Entry?
  }

  lemma {:induction false} RevisionCount(msgs: seq<Inbound>)
    ensures |RecordRevisions(msgs)| == |Entries(msgs, |msgs|)|
  {
    if msgs != [] {
      var init, k := msgs[..|msgs| - 1], |msgs| - 1;
      RevisionCount(init);
      assert Entries(msgs, |msgs|) == Entries(init, k) + if msgs[k].Entry? then {k} else {};
    }
  }

  /** Each record message has its revision there, after those before it. */
  lemma {:induction false} RevisionAt(msgs: seq<Inbound>, i: nat)
    requires i < |msgs| && msgs[i].Entry?
    ensures |Entries(msgs, i)| < |RecordRevisions(msgs)| && RecordRevisions(msgs)[|Entries(msgs, i)|] == msgs[i].rec.revision
    decreases |msgs|
  {
    var init := msgs[..|msgs| - 1];
    assert Entries(msgs, i) == Entries(init, i);
    if i < |init| {
      RevisionAt(init, i);
    } else {
      RevisionCount(init);
    }
  }

  /** The compaction revision a stream leaves in memory. */
  ghost function LastCompaction(before: int, msgs: seq<Inbound>): int {
    if msgs == [] then before
    else
      var last := msgs[|msgs| - 1];
      if last.Opening? || last.CompactAt? then last.compaction else LastCompaction(before, msgs[..|msgs| - 1])
  }

  predicate NoCompaction(m: Inbound) {
    m.Entry? || m.CommittedTo?
  }

  /** It is that of the last message that carries one, if any does. */
  lemma {:induction false} LastCompactionExact(before: int, msgs: seq<Inbound>, i: nat)
    requires i <= |msgs| && (forall j | i <= j < |msgs| :: NoCompaction(msgs[j]))
    ensures i == 0 ==> LastCompaction(before, msgs) == before
    ensures i > 0 && !NoCompaction(msgs[i - 1]) ==> LastCompaction(before, msgs) == msgs[i - 1].compaction
    decreases |msgs|
  {
    if i < |msgs| {
      assert NoCompaction(msgs[|msgs| - 1]);
      LastCompactionExact(before, msgs[..|msgs| - 1], i);
    }
  }

  /** The pending revisions up to `rev`, collected in map order, then sorted. */
  method ReadyRevisions(pending: set<nat>, rev: nat) returns (ready: seq<nat>)
    ensures StrictlyAscending(ready)
    ensures forall r :: r in ready <==> r in pending && r <= rev
  {
    ready := [];
    var todo := pending;
    while todo != {}
      invariant todo <= pending
      invariant forall r :: r in ready <==> r in pending - todo && r <= rev
      invariant forall i, j | 0 <= i < j < |ready| :: ready[i] != ready[j]
      decreases |todo|
    {
      var r :| r in todo;
      assert r !in ready;
      todo := todo - {r};
      if r <= rev {
        ready := ready + [r];
      }
    }
    ready := SortRevisions(ready);
  }

  class Follower {
    var rows: Table
    var committed: nat
    var pending: set<nat>
    var delivered: seq<Record>
    /** The compaction revision in memory, those in the database, and the
        compactions started and not yet executed. */
    var compaction: int
    var compactions: set<nat>
    var started: seq<int>
    var degraded: bool

    ghost function View(): Replica
      reads this
    {
      Replica(rows, committed, pending, delivered, started, false)
    }

    ghost predicate Valid()
      reads this
    {
      0 !in pending && 0 !in compactions
    }

    constructor (rows: Table)
      ensures Valid() && View() == Replica(rows, 0, {}, [], [], false)
      ensures compaction == 0 && compactions == {} && !degraded
    {
      this.rows, committed, pending, delivered := rows, 0, {}, [];
      compaction, compactions, started, degraded := 0, {}, [], false;
    }

    method EnqueueWatchRevision(revision: int)
      modifies this`pending
      ensures pending == if revision <= 0 then old(pending) else old(pending) + {revision as nat}
    {
      if revision <= 0 {
        return;
      }
      pending := pending + {revision as nat};
    }

    /** Delivers every pending revision up to `rev`, ascending, reading the
        records from the database. */
    method AdvanceCommittedRevision(rev: nat)
      requires 0 !in pending
      modifies this`pending, this`delivered
      ensures pending == set r | r in old(pending) && r > rev
      ensures delivered == old(delivered) + Ready(rows, old(pending), rev)
    {
      var ready := ReadyRevisions(pending, rev);
      for i := 0 to |ready|
        invariant pending == (set r | r in old(pending) && r !in ready[..i]) && delivered == old(delivered)
      {
        assert ready[..i + 1] == ready[..i] + [ready[i]];
        pending := pending - {ready[i]};
      }
      assert ready[..|ready|] == ready;
      SortedReady(rows, old(pending), rev, ready);
      for i := 0 to |ready|
        invariant delivered == old(delivered) + Found(rows, ready[..i])
        invariant pending == set r | r in old(pending) && r !in ready
      {
        assert ready[..i + 1][..i] == ready[..i];
        if ready[i] in rows {
          delivered := delivered + [rows[ready[i]]];
        }
      }
    }

    /** A new stream is established: what was pending on the old one is discarded. */
    method ResetPending()
      requires Valid()
      modifies this`pending
      ensures Valid() && pending == {} && View() == Reconnected(old(View()))
    {
      pending := {};
    }

    /** The Primary's compaction revision is persisted only by a follower that has
        none; if that fails the message changes nothing. */
    method HandleInitial(c: nat, revision: int, calls: Calls) returns (ok: bool)
      requires Valid()
      modifies this`committed, this`pending, this`delivered, this`compaction, this`compactions
      ensures Valid()
      ensures ok <==> revision <= 0 || (calls.compactionRead && (old(compactions) != {} || calls.persisted))
      ensures View() == (if ok then Handle(old(View()), Initial(c)) else old(View()))
      ensures compaction == if ok then revision else old(compaction)
      ensures committed == if ok then c else old(committed)
      ensures compactions == if ok && revision > 0 && old(compactions) == {} then {revision as nat} else old(compactions)
    {
      if revision > 0 {
        if !calls.compactionRead {
          return false;
        }
        if compactions == {} {
          if !calls.persisted {
            return false;
          }
          compactions := {revision as nat};
        }
      }
      committed, compaction := c, revision;
      AdvanceCommittedRevision(c);
      return true;
    }

    method HandleCommit(c: nat)
      requires Valid()
      modifies this`committed, this`pending, this`delivered
      ensures Valid() && committed == c && View() == Handle(old(View()), Commit(c))
    {
      committed := c;
      AdvanceCommittedRevision(c);
    }

    /** Stores the record, queues its revision and sends its receipt, twice if
        need be. Either error closes the stream; the second degrades the node,
        which keeps the record all the same. */
    method HandleRecord(rec: Record, calls: Calls) returns (receipt: Option<nat>)
      requires Valid() && rec.revision > 0
      modifies this`rows, this`pending, this`degraded
      ensures Valid()
      ensures var f := Handle(old(View()), RecordMsg(rec)); var sent := calls.sent || calls.resent;
              && View() == f.(failed := false)
              && receipt == (if f.failed || !sent then None else Some(rec.revision as nat))
              && degraded == (old(degraded) || (!f.failed && !sent))
    {
      var o := ReplicateTentativeRecord(rows, rec, committed);
      rows := o.table;
      if o.error.Some? {
        return None;
      }
      EnqueueWatchRevision(rec.revision);
      if !calls.sent {
        if !calls.resent {
          degraded := true;
          return None;
        }
      }
      return Some(rec.revision as nat);
    }

    method HandleCompact(revision: int, calls: Calls) returns (ok: bool)
      requires Valid()
      modifies this`compaction, this`compactions, this`started
      ensures Valid() && (ok <==> revision <= 0 || calls.persisted)
      ensures View() == if ok then Handle(old(View()), CompactMsg(revision)) else old(View())
      ensures !ok ==> compaction == old(compaction) && compactions == old(compactions)
      ensures ok ==> compaction == revision && started == old(started) + [revision]
      ensures ok ==> compactions == old(compactions) + if revision > 0 then {revision as nat} else {}
    {
      if revision > 0 {
        if !calls.persisted {
          return false;
        }
        compactions := compactions + {revision as nat};
      }
      compaction := revision;
      started := started + [revision];
      return true;
    }

    /** One of the compactions started runs, whenever its turn comes, or fails. */
    method ExecuteStarted(i: nat, now: int, executed: bool)
      requires i < |started|
      modifies this`rows, this`started
      ensures View() == if executed then Executed(old(View()), i, now) else old(View()).(started := Without(old(started), i))
      ensures rows.Keys == old(rows).Keys && started == old(started)[..i] + old(started)[i + 1..]
    {
      rows := if executed then Erasure.Compact(rows, started[i], now) else rows;
      started := started[..i] + started[i + 1..];
    }

    /** Reads a stream to its end or to the first error. `n` messages took effect,
        and the replica is the cluster model's after them: the only difference a
        failing call makes is where the stream stops. */
    method ProcessStream(msgs: seq<Inbound>, calls: seq<Calls>) returns (ok: bool, receipts: seq<nat>, n: nat)
      requires Valid() && PositiveEntries(msgs) && |calls| == |msgs|
      modifies this
      ensures Valid() && n <= |msgs| && PositiveEntries(msgs[..n])
      ensures var f := Drain(old(View()), LogMessages(msgs[..n]));
              && View() == f.(failed := false)
              && (ok ==> n == |msgs| && !f.failed)
              && ((forall i | 0 <= i < |calls| :: calls[i].AllSucceed()) ==> (ok <==> !f.failed))
      ensures ok ==> receipts == RecordRevisions(msgs) && degraded == old(degraded)
      ensures !ok ==> exists k :: 0 <= k <= n && receipts == RecordRevisions(msgs[..k])
      ensures compaction == LastCompaction(old(compaction), msgs[..n])
    {
      hide Handle, Drain, LogMessages, RecordRevisions, LastCompaction, PositiveEntries;
      receipts := [];
      n := 0;
      ghost var before := View();
      StreamStarts(before, compaction);
      while n < |msgs|
        invariant n <= |msgs| && Valid() && PositiveEntries(msgs[..n]) && degraded == old(degraded)
        invariant receipts == RecordRevisions(msgs[..n])
        invariant compaction == LastCompaction(old(compaction), msgs[..n])
        invariant View() == Drain(before, LogMessages(msgs[..n]))
      {
        StreamStep(msgs, n, before, old(compaction));
        match msgs[n] {
          case Opening(c, revision) =>
            ok := HandleInitial(c, revision, calls[n]);
            if !ok {
              return;
            }
          case CommittedTo(c) =>
            HandleCommit(c);
          case CompactAt(revision) =>
            ok := HandleCompact(revision, calls[n]);
            if !ok {
              return;
            }
          case Entry(rec) =>
            var receipt := HandleRecord(rec, calls[n]);
            if receipt.None? {
              n := n + 1;
              return false, receipts, n;
            }
            receipts := receipts + [receipt.value];
        }
        n := n + 1;
      }
      ok := true;
      assert msgs[..n] == msgs;
    }
  }

  lemma StreamStarts(f: Replica, c: int)
    ensures PositiveEntries([]) && Drain(f, LogMessages([])) == f && RecordRevisions([]) == [] && LastCompaction(c, []) == c
  {
  }

  /** One more message. */
  lemma StreamStep(msgs: seq<Inbound>, n: nat, f: Replica, c: int)
    requires n < |msgs| && PositiveEntries(msgs)
    ensures PositiveEntries(msgs[..n]) && PositiveEntries(msgs[..n + 1]) && (msgs[n].Entry? ==> msgs[n].rec.revision > 0)
    ensures RecordRevisions(msgs[..n + 1]) == RecordRevisions(msgs[..n]) + if msgs[n].Entry? then [msgs[n].rec.revision] else []
    ensures LastCompaction(c, msgs[..n + 1]) == if msgs[n].Opening? || msgs[n].CompactAt? then msgs[n].compaction else LastCompaction(c, msgs[..n])
    ensures var g := Drain(f, LogMessages(msgs[..n]));
            Drain(f, LogMessages(msgs[..n + 1])) == match msgs[n]
              case Opening(c, _) => Handle(g, Initial(c))
              case Entry(rec) => Handle(g, RecordMsg(rec))
              case CommittedTo(c) => Handle(g, Commit(c))
              case CompactAt(c) => Handle(g, CompactMsg(c))
  {
    var ms, q := msgs[..n + 1], LogMessages(msgs[..n]);
    assert ms[..n] == msgs[..n] && ms[n] == msgs[n] && msgs[n] in msgs;
    hide Handle, Drain;
    match msgs[n]
    case Opening(c, _) => Queues.DrainSnoc(f, q, Initial(c));
    case Entry(rec) => Queues.DrainSnoc(f, q, RecordMsg(rec));
    case CommittedTo(c) => Queues.DrainSnoc(f, q, Commit(c));
    case CompactAt(c) => Queues.DrainSnoc(f, q, CompactMsg(c));
  }
}
