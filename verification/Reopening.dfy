/** A follow stream that opens again starts afresh: whatever the replica's
    watchers hear from then on, the replica has read since. */
module Reopening {
  import opened Records
  import opened Erasure
  import opened Replicate
  import opened Replication

  /** The records a replica reads along a run, in whatever order. */
  ghost function RecordsRead(s: Cluster, es: seq<Event>, n: NodeId): set<Record>
    requires WellFormed(s)
    decreases |es|
  {
    if es == [] || !Enabled(s, es[0]) then {}
    else
      StepWellFormed(s, es[0]);
      ReadNow(s, es[0], n) + RecordsRead(Step(s, es[0]), es[1..], n)
  }

  ghost function ReadNow(s: Cluster, e: Event, n: NodeId): set<Record>
    requires Enabled(s, e)
  {
    if e == Read(n) && s.down[n][0].RecordMsg? then {s.down[n][0].rec} else {}
  }

  /** `row` is one of the records read, its value erased or not. */
  ghost predicate IsRead(row: Record, read: set<Record>) {
    exists rec | rec in read :: RowEvolves(rec, row)
  }

  /** Every pending revision's row was read. */
  ghost predicate PendingRead(f: Replica, read: set<Record>) {
    forall r | r in f.pending && r in f.rows :: IsRead(f.rows[r], read)
  }

  /** `f'` has delivered more than `f`, all of it read. */
  ghost predicate DeliversRead(f: Replica, f': Replica, read: set<Record>) {
    f.delivered <= f'.delivered && forall i | |f.delivered| <= i < |f'.delivered| :: IsRead(f'.delivered[i], read)
  }

  /** The initial message that follows a reopening delivers nothing. */
  lemma ReopenedDeliversNothing(f: Replica, c: nat)
    ensures Handle(Reconnected(f), Initial(c)) == Replica(f.rows, c, {}, f.delivered, f.started, false)
  {
    NothingPending(f.rows, c);
  }

  lemma {:induction false} NothingPending(rows: Table, rev: nat)
    ensures Ready(rows, {}, rev) == []
  {
    if rev > 0 {
      NothingPending(rows, rev - 1);
    }
  }

  /** The pending revisions up to `rev` that have a row. */
  ghost function ReadyRevisions(rows: Table, pending: set<nat>, rev: nat): set<nat> {
    set r | r in pending && r in rows && 0 < r <= rev
  }

  lemma {:induction false} ReadyCount(rows: Table, pending: set<nat>, rev: nat)
    ensures |Ready(rows, pending, rev)| == |ReadyRevisions(rows, pending, rev)|
  {
    if rev > 0 {
      ReadyCount(rows, pending, rev - 1);
      assert ReadyRevisions(rows, pending, rev) == ReadyRevisions(rows, pending, rev - 1) + if rev in pending && rev in rows then {rev} else {};
    }
  }

  /** A commit delivers each of them once, as many before it as are smaller. */
  lemma {:induction false} ReadyAt(rows: Table, pending: set<nat>, rev: nat, r: nat)
    requires r in ReadyRevisions(rows, pending, rev)
    ensures |ReadyRevisions(rows, pending, r - 1)| < |Ready(rows, pending, rev)|
    ensures Ready(rows, pending, rev)[|ReadyRevisions(rows, pending, r - 1)|] == rows[r]
    decreases rev
  {
    if r == rev {
      ReadyCount(rows, pending, rev - 1);
    } else {
      ReadyAt(rows, pending, rev - 1, r);
    }
  }

  lemma {:induction false} ReadyIsRead(f: Replica, rev: nat, read: set<Record>)
    requires PendingRead(f, read)
    ensures forall i | 0 <= i < |Ready(f.rows, f.pending, rev)| :: IsRead(Ready(f.rows, f.pending, rev)[i], read)
    decreases rev
  {
    hide IsRead;
    if rev > 0 {
      ReadyIsRead(f, rev - 1, read);
    }
  }

  lemma HandleDeliversRead(f: Replica, m: Msg, read: set<Record>)
    requires PendingRead(f, read) && (m.RecordMsg? ==> m.rec.revision > 0 && m.rec in read)
    ensures PendingRead(Handle(f, m), read) && DeliversRead(f, Handle(f, m), read)
  {
    if m.RecordMsg? {
      ReplicatedRecordStored(f.rows, m.rec, f.committed);
      assert IsRead(m.rec, read);
      hide IsRead;
      RefusedKeeps(f, m.rec, read);
    } else if m.Initial? || m.Commit? {
      ReadyIsRead(f, m.committed, read);
    }
  }

  /** A record that is refused at most takes a tentative row away. */
  lemma RefusedKeeps(f: Replica, rec: Record, read: set<Record>)
    requires PendingRead(f, read) && rec.revision > 0
    ensures var o := ReplicateTentativeRecord(f.rows, rec, f.committed);
            o.error.Some? ==> forall r | r in o.table :: r in f.rows && o.table[r] == f.rows[r]
  {
  }

  lemma CompactDeliversRead(f: Replica, i: nat, at: int, read: set<Record>)
    requires PendingRead(f, read) && i < |f.started|
    ensures PendingRead(Executed(f, i, at), read)
  {
    var g := Executed(f, i, at);
    forall r | r in g.pending && r in g.rows ensures IsRead(g.rows[r], read) {
      var rec :| rec in read && RowEvolves(rec, f.rows[r]);
      assert RowEvolves(rec, g.rows[r]);
    }
  }

  lemma StepDeliversRead(s: Cluster, e: Event, n: NodeId, read: set<Record>)
    requires WellFormed(s) && Enabled(s, e) && n in s.nodes && PendingRead(s.nodes[n], read) && ReadNow(s, e, n) <= read
    ensures var s' := Step(s, e); n in s'.nodes && PendingRead(s'.nodes[n], read) && DeliversRead(s.nodes[n], s'.nodes[n], read)
  {
    hide IsRead, RowEvolves, Clean, Row, Handle, Executed, Broadcast, AsWritten, Indexed;
    if e == Read(n) {
      QueueLess(s.down[n]);
      assert s.down[n][0].RecordMsg? ==> s.down[n][0].rec in ReadNow(s, e, n);
      HandleDeliversRead(s.nodes[n], s.down[n][0], read);
    } else if e.ReplicaExecutes? && e.node == n {
      CompactDeliversRead(s.nodes[n], e.i, e.at, read);
      ExecutedDelivers(s.nodes[n], e.i, e.at);
    }
  }

  lemma ExecutedDelivers(f: Replica, i: nat, at: int)
    requires i < |f.started|
    ensures Executed(f, i, at).delivered == f.delivered
  {
  }

  lemma MoreRead(f: Replica, f': Replica, a: set<Record>, b: set<Record>)
    requires a <= b
    ensures PendingRead(f, a) ==> PendingRead(f, b)
    ensures DeliversRead(f, f', a) ==> DeliversRead(f, f', b)
  {
  }

  lemma {:induction false} RunDeliversRead(s: Cluster, es: seq<Event>, s': Cluster, n: NodeId, read: set<Record>)
    requires WellFormed(s) && Run(s, es, s') && n in s.nodes && PendingRead(s.nodes[n], read)
    ensures n in s'.nodes && DeliversRead(s.nodes[n], s'.nodes[n], read + RecordsRead(s, es, n))
    decreases |es|
  {
    if es != [] {
      hide Step, PendingRead, ReadNow, Enabled;
      StepWellFormed(s, es[0]);
      hide WellFormed;
      var u, now := Step(s, es[0]), ReadNow(s, es[0], n);
      MoreRead(s.nodes[n], s.nodes[n], read, read + now);
      StepDeliversRead(s, es[0], n, read + now);
      RunDeliversRead(u, es[1..], s', n, read + now);
      var all := read + RecordsRead(s, es, n);
      assert read + now + RecordsRead(u, es[1..], n) == all;
      MoreRead(s.nodes[n], u.nodes[n], read + now, all);
    }
  }

  /** Over every run after a reopening, the deliveries made before it stand, and
      every delivery made after it is a record that was read after it. */
  lemma DeliveredSinceReopening(s: Cluster, n: NodeId, receiptsLost: bool, es: seq<Event>, s': Cluster)
    requires WellFormed(s) && n in s.nodes
    requires (StepWellFormed(s, Reopen(n, receiptsLost)); Run(Step(s, Reopen(n, receiptsLost)), es, s'))
    ensures n in s'.nodes && DeliversRead(s.nodes[n], s'.nodes[n], (StepWellFormed(s, Reopen(n, receiptsLost)); RecordsRead(Step(s, Reopen(n, receiptsLost)), es, n)))
  {
    var r := Step(s, Reopen(n, receiptsLost));
    StepWellFormed(s, Reopen(n, receiptsLost));
    hide WellFormed;
    RunDeliversRead(r, es, s', n, {});
    assert {} + RecordsRead(r, es, n) == RecordsRead(r, es, n);
  }
}
