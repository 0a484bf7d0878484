/** The local database: the records table and the compactions table, changed in
    place by one statement at a time. */
module LocalDb {
  import opened Records
  import opened Sets
  import opened Mvcc
  import opened Erasure

  // ---- Integrity ----

  lemma {:induction false} CountUpTo(n: nat) returns (s: set<nat>)
    ensures (forall r: nat :: r in s <==> 1 <= r <= n) && |s| == n
  {
    if n == 0 {
      s := {};
    } else {
      s := CountUpTo(n - 1);
      s := s + {n};
    }
  }

  /** Counting rows and comparing with the highest revision finds every gap. */
  lemma IntegrityIffGapFree(t: Table)
    requires Keyed(t)
    ensures |t| == MaxRev(t) <==> GapFree(t, MaxRev(t))
  {
    var full := CountUpTo(MaxRev(t));
    assert t.Keys <= full;
    SubsetCount(t.Keys, full);
    assert |t| == |t.Keys|;
    if GapFree(t, MaxRev(t)) {
      assert t.Keys == full;
    }
  }

  lemma CompactKeepsLink(t: Table, n: nat, c: int, now: int, r: nat)
    requires LogInv(t, n) && r in t && r > 0
    ensures r in Compact(t, c, now) && Linked(Compact(t, c, now), r)
  {
    var u := Compact(t, c, now);
    assert Linked(t, r);
    hide LogInv, Superseded;
    LatestRevCongruent(t, u, t[r].key, r - 1);
  }

  /** Compaction keeps every link between rows. */
  lemma CompactKeepsLog(t: Table, n: nat, c: int, now: int)
    requires LogInv(t, n)
    ensures LogInv(Compact(t, c, now), n)
  {
    hide Linked, Superseded;
    var u := Compact(t, c, now);
    forall r {:trigger Linked(u, r)} | r in u && r > 0 ensures Linked(u, r) {
      CompactKeepsLink(t, n, c, now, r);
    }
  }

  class Database {
    var rows: Table
    var compactions: set<nat>

    constructor ()
      ensures rows == map[] && compactions == {}
    {
      rows, compactions := map[], {};
    }

    /** One INSERT: the next row of the log, or an error and no change. */
    method InsertRecord(record: Record, now: int) returns (r: Result<Record, InsertError>)
      modifies this`rows
      ensures r == InsertRow(old(rows), record, now)
      ensures r.Err? ==> rows == old(rows)
      ensures r.Ok? ==> record.revision > 0 && record.revision !in old(rows) && rows == old(rows)[record.revision := r.value]
      ensures forall n: nat | LogInv(old(rows), n) && record.revision == n + 1 && r.Ok? :: LogInv(rows, n + 1)
    {
      r := InsertRow(rows, record, now);
      if r.Ok? {
        forall n: nat | LogInv(rows, n) && record.revision == n + 1
          ensures LogInv(rows[record.revision as nat := r.value], n + 1)
        {
          InsertKeepsLog(rows, n, record, now);
        }
        rows := rows[record.revision as nat := r.value];
      }
    }

    /** One UPDATE over every compactable row at or below the revision. */
    method ExecuteCompaction(revision: int, now: int) returns (affected: nat)
      modifies this`rows
      ensures rows == Compact(old(rows), revision, now)
      ensures revision > 0 ==> affected == |set r | r in old(rows) && Compactable(old(rows), revision, r)|
      ensures forall n: nat | LogInv(old(rows), n) :: LogInv(rows, n)
    {
      forall n: nat | LogInv(rows, n) ensures LogInv(Compact(rows, revision, now), n) {
        CompactKeepsLog(rows, n, revision, now);
      }
      if revision <= 0 {
        return 0;
      }
      affected := |set r | r in rows && Compactable(rows, revision, r)|;
      rows := Compact(rows, revision, now);
    }

    method PersistCompactionRevision(revision: int)
      modifies this`compactions
      ensures compactions == old(compactions) + if revision > 0 then {revision as nat} else {}
    {
      if revision > 0 {
        compactions := compactions + {revision as nat};
      }
    }

    /** The highest revision persisted so far, so a lower one changes nothing. */
    method LatestCompactionRevision() returns (revision: nat)
      ensures compactions == {} ==> revision == 0
      ensures compactions != {} ==> IsMax(revision, compactions)
    {
      revision := 0;
      var todo := compactions;
      while todo != {}
        invariant todo <= compactions
        invariant forall r | r in compactions && r !in todo :: r <= revision
        invariant revision == 0 || revision in compactions
        invariant todo != compactions ==> revision in compactions
        decreases |todo|
      {
        var r :| r in todo;
        revision := if r >= revision then r else revision;
        todo := todo - {r};
      }
    }

    /** RecordCount against LatestRevision. */
    method VerifyIntegrity() returns (ok: bool)
      requires Keyed(rows)
      ensures ok <==> GapFree(rows, MaxRev(rows))
    {
      IntegrityIffGapFree(rows);
      ok := |rows| == MaxRev(rows);
    }
  }
}
