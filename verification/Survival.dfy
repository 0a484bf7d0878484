/** When the value of an acknowledged row is still there: exactly until a
    compaction at or above its revision runs beside a newer row of its key,
    a rolled-back one included. */
module Survival {
  import opened Records
  import opened Erasure
  import opened Replicate
  import opened Replication
  import opened Durability
  import opened Completion
  import opened Retention

  /** Row `r` of the table is in reach of a compaction at `c`. */
  predicate InReach(t: Table, c: int, r: nat) {
    r in t && r <= c && (t[r].deleted || Superseded(t, r))
  }

  /** The event runs such a compaction on replica `n`. */
  predicate Hit(s: Cluster, e: Event, n: NodeId, r: nat)
    requires Enabled(s, e)
  {
    e.ReplicaExecutes? && e.node == n && InReach(s.nodes[n].rows, s.nodes[n].started[e.i], r)
  }

  ghost predicate HitIn(s: Cluster, es: seq<Event>, s': Cluster, n: NodeId, r: nat)
    requires WellFormed(s) && Run(s, es, s')
    decreases |es|
  {
    es != [] && (StepWellFormed(s, es[0]); Hit(s, es[0], n, r) || HitIn(Step(s, es[0]), es[1..], s', n, r))
  }

  // ---- One replica ----

  predicate OfRevision(m: Msg, r: nat) {
    m.RecordMsg? && m.rec.revision == r
  }

  predicate NoneQueued(q: seq<Msg>, r: nat) {
    forall i | 0 <= i < |q| :: !OfRevision(q[i], r)
  }

  /** At most one record of the revision is queued, and it is the row. */
  predicate OneQueued(q: seq<Msg>, r: nat, row: Record) {
    forall i | 0 <= i < |q| && OfRevision(q[i], r) :: q[i].rec == row && forall j | i < j < |q| :: !OfRevision(q[j], r)
  }

  /** The row is still to come, or there as written; after a hit, erased. */
  ghost predicate Fate(f: Replica, q: seq<Msg>, r: nat, row: Record, hit: bool) {
    if r !in f.rows then !hit && OneQueued(q, r, row)
    else NoneQueued(q, r) && if hit then f.rows[r].compactedAt.Some? else f.rows[r] == row
  }

  lemma ReadFate(f: Replica, q: seq<Msg>, r: nat, row: Record, hit: bool)
    requires q != [] && Fate(f, q, r, row, hit) && (q[0].RecordMsg? ==> q[0].rec.revision > 0)
    ensures Fate(Handle(f, q[0]), q[1..], r, row, hit)
  {
    if q[0].RecordMsg? && !f.failed {
      if r in f.rows {
        ReplicationFrame(f.rows, q[0].rec, f.committed, r);
      }
    }
  }

  lemma SendFate(f: Replica, q: seq<Msg>, m: Msg, r: nat, row: Record, hit: bool)
    requires Fate(f, q, r, row, hit) && !OfRevision(m, r)
    ensures Fate(f, q + [m], r, row, hit)
  {
  }

  lemma ExecuteFate(f: Replica, i: nat, at: int, q: seq<Msg>, r: nat, row: Record, hit: bool)
    requires Fate(f, q, r, row, hit) && i < |f.started| && r > 0 && row.compactedAt.None?
    ensures Fate(Executed(f, i, at), q, r, row, hit || InReach(f.rows, f.started[i], r))
  {
  }

  ghost predicate FateAt(s: Cluster, n: NodeId, r: nat, row: Record, hit: bool) {
    n in s.nodes && n in s.down && Fate(s.nodes[n], s.down[n], r, row, hit)
  }

  /** No event broadcasts a record of the revision. */
  predicate NotSent(s: Cluster, e: Event, r: nat) {
    e.SyncWrite? || e.QuorumBegin? ==> s.next != r
  }

  lemma StepFate(s: Cluster, e: Event, n: NodeId, r: nat, row: Record, hit: bool)
    requires WellFormed(s) && Enabled(s, e) && NotSent(s, e, r) && FateAt(s, n, r, row, hit) && r > 0 && row.compactedAt.None?
    ensures FateAt(Step(s, e), n, r, row, hit || Hit(s, e, n, r))
  {
    hide Fate, InReach, Handle, WellFormed, Row, Broadcast, Executed, Clean, Compact;
    var f, q := s.nodes[n], s.down[n];
    if e.Read? {
      ReadStepFate(s, e.node, n, r, row, hit);
    } else if e.ReplicaExecutes? {
      if e.node == n {
        ExecuteFate(f, e.i, e.at, q, r, row, hit);
      }
    } else if e.Reopen? {
      ReopenFate(f, q, s.committed, r, row, hit);
    } else {
      BroadcastFate(s, e, n, r, row, hit);
    }
  }

  lemma ReadStepFate(s: Cluster, k: NodeId, n: NodeId, r: nat, row: Record, hit: bool)
    requires WellFormed(s) && Enabled(s, Read(k)) && FateAt(s, n, r, row, hit)
    ensures FateAt(Step(s, Read(k)), n, r, row, hit)
  {
    hide Fate, Handle, WellFormed;
    ReadablyQueued(s, k);
    QueueLess(s.down[k]);
    if k == n {
      ReadFate(s.nodes[n], s.down[n], r, row, hit);
    }
  }

  lemma ReopenFate(f: Replica, q: seq<Msg>, c: nat, r: nat, row: Record, hit: bool)
    requires Fate(f, q, r, row, hit)
    ensures Fate(Reconnected(f), [Initial(c)], r, row, hit)
  {
  }

  lemma BroadcastFate(s: Cluster, e: Event, n: NodeId, r: nat, row: Record, hit: bool)
    requires WellFormed(s) && Enabled(s, e) && NotSent(s, e, r) && FateAt(s, n, r, row, hit)
    requires !e.Read? && !e.ReplicaExecutes? && !e.Reopen?
    ensures FateAt(Step(s, e), n, r, row, hit)
  {
    hide Fate, WellFormed, Row, Clean, Compact;
    var f, q := s.nodes[n], s.down[n];
    if e.SyncWrite? {
      RowRevision(s, e);
      var m := RecordMsg(Row(s, e).value);
      SendFate(f, q, m, r, row, hit);
      SendFate(f, q, Commit(s.next), r, row, hit);
      SendFate(f, q + [m], Commit(s.next), r, row, hit);
    } else if e.QuorumBegin? {
      RowRevision(s, e);
      SendFate(f, q, RecordMsg(Row(s, e).value), r, row, hit);
    } else if e.QuorumCommit? {
      SendFate(f, q, Commit(s.next), r, row, hit);
    } else if e.CompactionSent? {
      SendFate(f, q, CompactMsg(e.revision), r, row, hit);
    }
  }

  // ---- Runs ----

  /** While the write is in flight. */
  lemma {:induction false} FlightFate(s: Cluster, es: seq<Event>, s': Cluster, n: NodeId, r: nat, row: Record, hit: bool)
    requires InFlight(s, es, s') && FateAt(s, n, r, row, hit) && r > 0 && row.compactedAt.None?
    ensures FateAt(s', n, r, row, hit || HitIn(s, es, s', n, r))
    decreases |es|
  {
    hide Step, Enabled, WellFormed, FateAt, Hit;
    if es != [] {
      assert Meanwhile(es[0]);
      StepFate(s, es[0], n, r, row, hit);
      StepWellFormed(s, es[0]);
      FlightFate(Step(s, es[0]), es[1..], s', n, r, row, hit || Hit(s, es[0], n, r));
    }
  }

  /** Over the rest of the term. */
  lemma {:induction false} RestFate(s: Cluster, es: seq<Event>, s': Cluster, n: NodeId, r: nat, row: Record, hit: bool)
    requires PrimaryInv(s) && Run(s, es, s') && r < s.next && FateAt(s, n, r, row, hit) && r > 0 && row.compactedAt.None?
    ensures FateAt(s', n, r, row, hit || HitIn(s, es, s', n, r))
    decreases |es|
  {
    hide Step, Enabled, WellFormed, FateAt, Hit, PrimaryInv;
    PrimaryWellFormed(s);
    if es != [] {
      StepFate(s, es[0], n, r, row, hit);
      StepKeepsPrimary(s, es[0]);
      RestFate(Step(s, es[0]), es[1..], s', n, r, row, hit || Hit(s, es[0], n, r));
    }
  }

  // ---- An acknowledged write ----

  /** A compaction hits the row on `n` between the beginning of the write and now. */
  ghost predicate HitDuring(w: QuorumWrite, n: NodeId)
    requires Acked(w)
  {
    || HitIn(Step(w.before, w.begin), w.flight, w.ready, n, w.before.next)
    || HitIn(Step(w.ready, QuorumCommit(w.dropped)), w.rest, w.now, n, w.before.next)
  }

  /** Wherever a write of a fresh revision is stored at any later moment of the
      term, its value is intact if and only if no compaction at or above its
      revision was executed there while a newer row of its key was stored, or
      the row was a tombstone. */
  lemma ValueIntactIff(w: QuorumWrite, n: NodeId)
    requires Acked(w) && w.before.next !in w.before.sent && n in w.before.nodes && w.before.next !in w.before.nodes[n].rows
    ensures n in w.now.nodes
    ensures w.before.next in w.now.nodes[n].rows ==> (w.now.nodes[n].rows[w.before.next] == Written(w) <==> !HitDuring(w, n))
  {
    hide Step, Enabled, Row, Run, PrimaryInv, DurInv, WellFormed, HitIn, Fate;
    BeginFacts(w.before, w.begin);
    CommitFacts(w);
    var r, row, b, c := w.before.next, Written(w), Step(w.before, w.begin), Step(w.ready, QuorumCommit(w.dropped));
    BeginFate(w, n);
    FlightFate(b, w.flight, w.ready, n, r, row, false);
    var hit := HitIn(b, w.flight, w.ready, n, r);
    CommitFate(w.ready, w.dropped, n, r, row, hit);
    RestFate(c, w.rest, w.now, n, r, row, hit);
    FateTold(w.now, n, r, row, HitDuring(w, n));
  }

  lemma BeginFate(w: QuorumWrite, n: NodeId)
    requires Acked(w) && w.before.next !in w.before.sent && n in w.before.nodes && w.before.next !in w.before.nodes[n].rows
    ensures FateAt(Step(w.before, w.begin), n, w.before.next, Written(w), false)
  {
    hide Step, Enabled, Row, Run, InFlight, WellFormed;
    BeginFacts(w.before, w.begin);
    ReadablyQueued(w.before, n);
    ReadablyQueued(Step(w.before, w.begin), n);
    FirstQueued(w.before.down[n], w.before.next, Written(w));
  }

  lemma FirstQueued(q: seq<Msg>, r: nat, row: Record)
    requires NoneQueued(q, r)
    ensures OneQueued(q, r, row) && OneQueued(q + [RecordMsg(row)], r, row)
  {
  }

  lemma CommitFate(s: Cluster, dropped: set<NodeId>, n: NodeId, r: nat, row: Record, hit: bool)
    requires WellFormed(s) && Enabled(s, QuorumCommit(dropped)) && FateAt(s, n, r, row, hit)
    ensures FateAt(Step(s, QuorumCommit(dropped)), n, r, row, hit)
  {
    BroadcastFate(s, QuorumCommit(dropped), n, r, row, hit);
  }

  lemma FateTold(s: Cluster, n: NodeId, r: nat, row: Record, hit: bool)
    requires FateAt(s, n, r, row, hit) && row.compactedAt.None?
    ensures n in s.nodes && (r in s.nodes[n].rows ==> (s.nodes[n].rows[r] == row <==> !hit))
  {
  }

  // ---- The Primary ----

  predicate PrimaryHit(s: Cluster, e: Event, r: nat)
    requires Enabled(s, e)
  {
    e.PrimaryExecutes? && InReach(s.rows, s.started[e.i], r)
  }

  ghost predicate PrimaryHitIn(s: Cluster, es: seq<Event>, s': Cluster, r: nat)
    requires WellFormed(s) && Run(s, es, s')
    decreases |es|
  {
    es != [] && (StepWellFormed(s, es[0]); PrimaryHit(s, es[0], r) || PrimaryHitIn(Step(s, es[0]), es[1..], s', r))
  }

  ghost predicate PrimaryFate(s: Cluster, r: nat, row: Record, hit: bool) {
    r in s.rows && if hit then s.rows[r].compactedAt.Some? else s.rows[r] == row
  }

  lemma PrimaryStepFate(s: Cluster, e: Event, r: nat, row: Record, hit: bool)
    requires WellFormed(s) && Enabled(s, e) && r < s.next && PrimaryFate(s, r, row, hit) && row.compactedAt.None? && r > 0
    ensures PrimaryFate(Step(s, e), r, row, hit || PrimaryHit(s, e, r))
  {
    hide Handle, WellFormed, Row, Broadcast, Executed, Clean;
  }

  lemma {:induction false} PrimaryRunFate(s: Cluster, es: seq<Event>, s': Cluster, r: nat, row: Record, hit: bool)
    requires PrimaryInv(s) && Run(s, es, s') && 0 < r < s.next && PrimaryFate(s, r, row, hit) && row.compactedAt.None?
    ensures PrimaryFate(s', r, row, hit || PrimaryHitIn(s, es, s', r))
    decreases |es|
  {
    hide Step, Enabled, WellFormed, PrimaryFate, PrimaryHit, PrimaryInv;
    PrimaryWellFormed(s);
    if es != [] {
      PrimaryStepFate(s, es[0], r, row, hit);
      StepKeepsPrimary(s, es[0]);
      PrimaryRunFate(Step(s, es[0]), es[1..], s', r, row, hit || PrimaryHit(s, es[0], r));
    }
  }

  /** The same of the Primary. */
  lemma PrimaryValueIntactIff(w: QuorumWrite)
    requires Acked(w)
    ensures w.before.next in w.now.rows
    ensures w.now.rows[w.before.next] == Written(w) <==>
            !PrimaryHitIn(Step(w.ready, QuorumCommit(w.dropped)), w.rest, w.now, w.before.next)
  {
    hide Step, Enabled, Row, Run, InFlight, PrimaryInv, DurInv, WellFormed, PrimaryHitIn;
    CommitFacts(w);
    PrimaryRunFate(Step(w.ready, QuorumCommit(w.dropped)), w.rest, w.now, w.before.next, Written(w), false);
  }
}
