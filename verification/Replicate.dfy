/** Copying authoritative records into a local table: ReplicateRecord, which
    accepts exact duplicates only, and ReplicateTentativeRecord, which
    overwrites above the committed revision. */
module Replicate {
  import opened Records
  import opened Mvcc
  import opened Erasure

  datatype ReplicateError = ZeroRevision | ReadExistingFailed | ReplicateConflict

  /** The table afterwards, with the error returned, if any. */
  datatype Outcome = Outcome(table: Table, error: Option<ReplicateError>)

  function ReplicateRecord(t: Table, rec: Record): Outcome
    requires rec.revision >= 0
  {
    if rec.revision == 0 then Outcome(t, Some(ZeroRevision))
    else if rec.revision in t || IndexConflict(t, rec) then
      if rec.revision !in t then Outcome(t, Some(ReadExistingFailed))
      else if t[rec.revision] != rec then Outcome(t, Some(ReplicateConflict))
      else Outcome(t, None)
    else Outcome(t[rec.revision := rec], None)
  }

  /** The overwrite deletes the tentative row before inserting again. */
  function ReplicateTentativeRecord(t: Table, rec: Record, committed: int): Outcome
    requires rec.revision >= 0
  {
    var first := ReplicateRecord(t, rec);
    if rec.revision <= committed || first.error != Some(ReplicateConflict) then first
    else ReplicateRecord(t - {rec.revision as nat}, rec)
  }

  /** Committed rows are never overwritten, and no other row is touched. */
  lemma ReplicationFrame(t: Table, rec: Record, committed: nat, r: nat)
    requires rec.revision >= 0 && r in t && (r <= committed || r != rec.revision)
    ensures var u := ReplicateTentativeRecord(t, rec, committed).table; r in u && u[r] == t[r]
  {
  }

  /** Which records are stored: new ones and exact duplicates, and above the
      committed revision others too, provided the index has room for them. */
  lemma TentativeStoredIff(t: Table, rec: Record, committed: int)
    requires rec.revision >= 0
    ensures ReplicateTentativeRecord(t, rec, committed).error.None? <==>
            && rec.revision > 0
            && if rec.revision in t && (t[rec.revision] == rec || rec.revision <= committed) then t[rec.revision] == rec
               else forall r | r in t && r != rec.revision :: !SameIndex(t[r], rec)
  {
    var rest := t - {rec.revision as nat};
    assert forall r | r in t && r != rec.revision :: r in rest && rest[r] == t[r];
    assert rec.revision !in t ==> rest == t;
  }

  /** A success leaves exactly the incoming record at its revision. */
  lemma ReplicatedRecordStored(t: Table, rec: Record, committed: int)
    requires rec.revision >= 0
    ensures var o := ReplicateTentativeRecord(t, rec, committed);
            o.error.None? ==> o.table == t[rec.revision as nat := rec]
  {
  }

  /** The next record of the log is always accepted above the committed
      revision, whatever tentative row a rolled-back write left behind. */
  lemma TentativeAccepted(t: Table, log: Table, c: nat, row: Record)
    requires GapFree(log, c) && t - {c + 1} == log && row.revision == c + 1 && !IndexConflict(log, row)
    ensures ReplicateTentativeRecord(t, row, c) == Outcome(log[c + 1 := row], None)
  {
    if c + 1 in t {
      assert t == log[c + 1 := t[c + 1]];
    } else {
      assert t == log;
    }
  }

  // ---- The unique index, and erased rows ----

  /** The unique index holds. */
  ghost predicate Indexed(t: Table) {
    forall a, b | a in t && b in t && SameIndex(t[a], t[b]) :: a == b
  }

  lemma ReplicateKeepsIndex(t: Table, rec: Record, committed: int)
    requires Indexed(t) && rec.revision >= 0
    ensures Indexed(ReplicateTentativeRecord(t, rec, committed).table)
  {
    if rec.revision as nat in t {
      InsertKeepsIndex(t - {rec.revision as nat}, rec);
    }
    InsertKeepsIndex(t, rec);
  }

  lemma InsertKeepsIndex(t: Table, rec: Record)
    requires Indexed(t) && rec.revision >= 0
    ensures Indexed(ReplicateRecord(t, rec).table)
  {
  }

  lemma EvolvedKeepsIndex(t: Table, u: Table)
    requires Evolved(t, u) && Indexed(t)
    ensures Indexed(u)
  {
    forall a, b | a in u && b in u && SameIndex(u[a], u[b]) ensures a == b {
      assert SameIndex(t[a], t[b]);
    }
  }

  lemma EvolvedConflict(t: Table, u: Table, rec: Record)
    requires Evolved(t, u)
    ensures IndexConflict(u, rec) == IndexConflict(t, rec)
  {
    forall r | r in t ensures SameIndex(t[r], rec) == SameIndex(u[r], rec) {
    }
  }

  lemma EvolvedWithout(t: Table, u: Table, r: nat)
    requires Evolved(t, u)
    ensures Evolved(t - {r}, u - {r})
  {
  }

  lemma EvolvedWith(t: Table, u: Table, r: nat, rec: Record)
    requires Evolved(t, u)
    ensures Evolved(t[r := rec], u[r := rec])
  {
  }

  /** A record as it was written is refused by more tables once rows are erased,
      and never by fewer; above the committed revision by no more. */
  lemma ReplicateErased(t: Table, u: Table, rec: Record, committed: int)
    requires Evolved(t, u) && rec.revision > 0 && rec.compactedAt.None?
    ensures var o, o' := ReplicateTentativeRecord(t, rec, committed), ReplicateTentativeRecord(u, rec, committed);
            && (o'.error.None? ==> o.error.None? && Evolved(o.table, o'.table))
            && (o.error.None? && Indexed(t) && rec.revision > committed ==> o'.error.None?)
  {
    if rec.revision as nat in t {
      OverwriteErased(t, u, rec, committed);
    } else {
      EvolvedConflict(t, u, rec);
      EvolvedWith(t, u, rec.revision as nat, rec);
      SameKeys(t, u);
    }
  }

  /** A record at a revision that is taken. */
  lemma Overwrite(t: Table, rec: Record, committed: int)
    requires rec.revision > 0 && rec.revision as nat in t
    ensures var r := rec.revision as nat;
            ReplicateTentativeRecord(t, rec, committed) ==
            if t[r] == rec then Outcome(t, None)
            else if rec.revision <= committed then Outcome(t, Some(ReplicateConflict))
            else if IndexConflict(t - {r}, rec) then Outcome(t - {r}, Some(ReadExistingFailed))
            else Outcome(t[r := rec], None)
  {
    hide IndexConflict;
    assert (t - {rec.revision as nat})[rec.revision as nat := rec] == t[rec.revision as nat := rec];
  }

  lemma OverwriteErased(t: Table, u: Table, rec: Record, committed: int)
    requires Evolved(t, u) && rec.revision > 0 && rec.compactedAt.None? && rec.revision as nat in t
    ensures var o, o' := ReplicateTentativeRecord(t, rec, committed), ReplicateTentativeRecord(u, rec, committed);
            && (o'.error.None? ==> o.error.None? && Evolved(o.table, o'.table))
            && (o.error.None? && Indexed(t) && rec.revision > committed ==> o'.error.None?)
  {
    var r := rec.revision as nat;
    EvolvedWithout(t, u, r);
    EvolvedConflict(t - {r}, u - {r}, rec);
    EvolvedWith(t, u, r, rec);
    ErasedDiffers(t, u, r, rec);
    Overwrite(t, rec, committed);
    Overwrite(u, rec, committed);
    hide *;
    assert t[r] == rec ==> t[r := rec] == t;
    if t[r] == rec && Indexed(t) {
      OwnIndex(t, r);
    }
  }

  lemma SameKeys(t: Table, u: Table)
    requires Evolved(t, u)
    ensures t.Keys == u.Keys
  {
  }

  lemma ErasedDiffers(t: Table, u: Table, r: nat, rec: Record)
    requires Evolved(t, u) && r in t && rec.compactedAt.None?
    ensures r in u && (u[r] == rec ==> t[r] == rec)
  {
  }

  lemma OwnIndex(t: Table, r: nat)
    requires Indexed(t) && r in t
    ensures !IndexConflict(t - {r}, t[r])
  {
    forall x | x in t - {r} ensures !SameIndex((t - {r})[x], t[r]) {
      assert (t - {r})[x] == t[x];
    }
  }
}
