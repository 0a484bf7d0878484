/** A replica and its queue: what reading one more message, executing a
    compaction or connecting again does to what it stores and will read. */
module Queues {
  import opened Records
  import opened Mvcc
  import opened Erasure
  import opened Replicate
  import opened Replication

  lemma {:induction false} DrainSnoc(f: Replica, q: seq<Msg>, m: Msg)
    requires PositiveRevisions(q) && (m.RecordMsg? ==> m.rec.revision > 0)
    ensures PositiveRevisions(q + [m])
    ensures Drain(f, q + [m]) == Handle(Drain(f, q), m)
    decreases |q|
  {
    if q == [] {
      assert (q + [m])[1..] == [];
    } else {
      assert q[0] in q;
      assert (q + [m])[1..] == q[1..] + [m];
      DrainSnoc(Handle(f, q[0]), q[1..], m);
    }
  }

  // ---- Other rows of a revision ----

  lemma {:induction false} UnreadSnoc(f: Replica, q: seq<Msg>, m: Msg, row: Record)
    requires PositiveRevisions(q) && (m.RecordMsg? ==> m.rec.revision > 0) && OthersUnread(f, q, row) && !Other(m, row)
    ensures PositiveRevisions(q + [m]) && OthersUnread(f, q + [m], row)
    decreases |q|
  {
    hide Handle;
    if q == [] {
      assert (q + [m])[1..] == [];
    } else if !f.failed {
      assert q[0] in q;
      assert (q + [m])[1..] == q[1..] + [m];
      UnreadSnoc(Handle(f, q[0]), q[1..], m, row);
    }
  }

  lemma UnreadRead(f: Replica, q: seq<Msg>, row: Record)
    requires q != [] && PositiveRevisions(q) && OthersUnread(f, q, row)
    ensures q[0] in q && (f.failed || !Other(q[0], row)) && OthersUnread(Handle(f, q[0]), q[1..], row)
  {
    assert q[0] in q;
  }

  /** A queue without any record of the revision. */
  lemma {:induction false} UnreadAbsent(f: Replica, q: seq<Msg>, row: Record)
    requires PositiveRevisions(q) && forall m | m in q :: !Other(m, row)
    ensures OthersUnread(f, q, row)
    decreases |q|
  {
    hide Handle;
    if q != [] {
      assert q[0] in q;
      UnreadAbsent(Handle(f, q[0]), q[1..], row);
    }
  }

  /** `g` is `f` with rows erased, or has come to its error first. */
  ghost predicate ErasedFrom(f: Replica, g: Replica) {
    g.failed || (!f.failed && g.committed == f.committed && Evolved(f.rows, g.rows))
  }

  lemma HandleErased(f: Replica, g: Replica, m: Msg)
    requires ErasedFrom(f, g) && (m.RecordMsg? ==> m.rec.revision > 0 && m.rec.compactedAt.None?)
    ensures ErasedFrom(Handle(f, m), Handle(g, m))
  {
    hide Evolved, ReplicateTentativeRecord;
    if m.RecordMsg? && !g.failed {
      ReplicateErased(f.rows, g.rows, m.rec, f.committed);
    }
  }

  /** Erased rows never make a replica read more. */
  lemma {:induction false} UnreadErased(f: Replica, g: Replica, q: seq<Msg>, row: Record)
    requires ErasedFrom(f, g) && PositiveRevisions(q) && AsWritten(q) && OthersUnread(f, q, row)
    ensures OthersUnread(g, q, row)
    decreases |q|
  {
    hide Handle, Evolved;
    if q != [] && !g.failed {
      assert q[0] in q;
      HandleErased(f, g, q[0]);
      UnreadErased(Handle(f, q[0]), Handle(g, q[0]), q[1..], row);
    }
  }

  lemma ExecutedIsErased(f: Replica, i: nat, at: int)
    requires i < |f.started|
    ensures ErasedFrom(f, Executed(f, i, at))
  {
    hide Compact, Evolved;
    CompactEvolves(f.rows, f.started[i], at);
  }

  // ---- What is stored ----

  /** If the replica stores anything at the revision, it is the row. */
  predicate StoredOnly(f: Replica, row: Record) {
    row.revision >= 0 && row.revision as nat in f.rows ==> RowEvolves(row, f.rows[row.revision as nat])
  }

  /** The row stays where it is, and no other row takes its place. */
  ghost predicate Keeps(f: Replica, g: Replica, row: Record) {
    (Holds(f, row) ==> Holds(g, row)) && (StoredOnly(f, row) ==> StoredOnly(g, row))
  }

  lemma KeepsItself(f: Replica, row: Record)
    ensures Keeps(f, f, row)
  {
  }

  lemma KeepsTransitive(f: Replica, g: Replica, h: Replica, row: Record)
    requires Keeps(f, g, row) && Keeps(g, h, row)
    ensures Keeps(f, h, row)
  {
  }

  lemma HandleKeeps(f: Replica, m: Msg, row: Record)
    requires (m.RecordMsg? ==> m.rec.revision > 0) && row.revision >= 0 && Indexed(f.rows) && (f.failed || !Other(m, row))
    ensures Keeps(f, Handle(f, m), row)
    ensures !f.failed && m == RecordMsg(row) && !Handle(f, m).failed ==> Holds(Handle(f, m), row)
  {
    hide Indexed;
    if m.RecordMsg? && !f.failed {
      if m.rec == row {
        OwnRecordKeeps(f, row);
      } else {
        OtherRecordKeeps(f, m.rec, row);
      }
    }
  }

  lemma OtherRecordKeeps(f: Replica, rec: Record, row: Record)
    requires rec.revision > 0 && row.revision >= 0 && rec.revision != row.revision
    ensures Keeps(f, Handle(f, RecordMsg(rec)), row)
  {
    var r := row.revision as nat;
    var u := ReplicateTentativeRecord(f.rows, rec, f.committed).table;
    assert r in u ==> r in f.rows;
    if r in f.rows {
      ReplicationFrame(f.rows, rec, f.committed, r);
    }
  }

  lemma OwnRecordKeeps(f: Replica, row: Record)
    requires row.revision > 0 && Indexed(f.rows)
    ensures Keeps(f, Handle(f, RecordMsg(row)), row)
    ensures !f.failed && !Handle(f, RecordMsg(row)).failed ==> Holds(Handle(f, RecordMsg(row)), row)
  {
    var r := row.revision as nat;
    if r in f.rows {
      Overwrite(f.rows, row, f.committed);
      if RowEvolves(row, f.rows[r]) {
        OwnIndexErased(f.rows, r, row);
      }
    }
  }

  lemma OwnIndexErased(t: Table, r: nat, row: Record)
    requires Indexed(t) && r in t && RowEvolves(row, t[r])
    ensures !IndexConflict(t - {r}, row)
  {
    OwnIndex(t, r);
    forall x | x in t - {r} ensures !SameIndex((t - {r})[x], row) {
      assert !SameIndex((t - {r})[x], t[r]);
    }
  }

  lemma ExecutedKeeps(f: Replica, i: nat, at: int, row: Record)
    requires i < |f.started|
    ensures Keeps(f, Executed(f, i, at), row)
  {
    hide Compact;
    CompactEvolves(f.rows, f.started[i], at);
    if row.revision >= 0 && row.revision as nat in f.rows && RowEvolves(row, f.rows[row.revision as nat]) {
      EvolvesTransitive(row, f.rows[row.revision as nat], Executed(f, i, at).rows[row.revision as nat]);
    }
  }

  lemma ReconnectedKeeps(f: Replica, row: Record)
    ensures Keeps(f, Reconnected(f), row)
  {
  }
}
