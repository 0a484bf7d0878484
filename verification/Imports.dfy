/** Importing data files: replaying records of the log, erased or not, into a part
    of it, and the copies of a record that several files hold. */
module Imports {
  import opened Records
  import opened Mvcc
  import opened Erasure
  import opened Replicate
  import opened ChunkBuffer
  import opened LocalDb

  // ---- Replaying files ----

  /** The records of `rs` are rows of the log, some erased. */
  predicate FromLog(rs: seq<Record>, log: Table) {
    forall i | 0 <= i < |rs| :: rs[i].revision >= 0 && rs[i].revision in log && RowEvolves(log[rs[i].revision], rs[i])
  }

  /** The table is a part of the log, some rows erased. */
  predicate SubLog(t: Table, log: Table) {
    forall r | r in t :: r in log && RowEvolves(log[r], t[r])
  }

  function Revisions(rs: seq<Record>): set<nat>
    requires forall i | 0 <= i < |rs| :: rs[i].revision >= 0
  {
    set i | 0 <= i < |rs| :: rs[i].revision as nat
  }

  /** Rows `lo+1..hi` in order: FindRecordsAfterRevision, FindAllRecordsForSnapshot. */
  function RowsBetween(t: Table, lo: nat, hi: nat): seq<Record> {
    if hi <= lo then [] else RowsBetween(t, lo, hi - 1) + if hi in t then [t[hi]] else []
  }

  lemma {:induction false} RowsFromLog(t: Table, log: Table, lo: nat, hi: nat)
    requires Keyed(log) && SubLog(t, log)
    ensures FromLog(RowsBetween(t, lo, hi), log)
    ensures forall r: nat :: r in Revisions(RowsBetween(t, lo, hi)) <==> r in t && lo < r <= hi
    ensures hi <= MAX_INT64 ==> Increasing(RowsBetween(t, lo, hi))
    decreases hi
  {
    hide Revisions, Increasing, FromLog, RowEvolves;
    EmptyFile(log);
    if hi > lo {
      RowsFromLog(t, log, lo, hi - 1);
      var before := RowsBetween(t, lo, hi - 1);
      PlainFile(before, log);
      if hi in t {
        AppendRow(before, t[hi], log, hi);
      } else {
        assert RowsBetween(t, lo, hi) == before;
      }
    }
  }

  lemma EmptyFile(log: Table)
    ensures FromLog([], log) && Revisions([]) == {} && Increasing([])
  {
  }

  lemma PlainFile(rs: seq<Record>, log: Table)
    requires FromLog(rs, log)
    ensures forall i | 0 <= i < |rs| :: rs[i].revision >= 0
  {
  }

  lemma AppendRow(before: seq<Record>, row: Record, log: Table, hi: nat)
    requires FromLog(before, log) && hi > 0 && hi in log && RowEvolves(log[hi], row) && log[hi].revision == hi
    requires forall r | r in Revisions(before) :: r <= hi - 1
    ensures FromLog(before + [row], log) && Revisions(before + [row]) == Revisions(before) + {hi}
    ensures hi <= MAX_INT64 && Increasing(before) ==> Increasing(before + [row])
  {
    AppendRevision(before, row);
    forall i | 0 <= i < |before| ensures before[i].revision < hi {
      assert before[i].revision as nat in Revisions(before);
    }
  }

  lemma AppendRevision(rs: seq<Record>, r: Record)
    requires (forall i | 0 <= i < |rs| :: rs[i].revision >= 0) && r.revision >= 0
    ensures Revisions(rs + [r]) == Revisions(rs) + {r.revision as nat}
  {
    var all := rs + [r];
    forall x | x in Revisions(rs) ensures x in Revisions(all) {
      var i :| 0 <= i < |rs| && rs[i].revision as nat == x;
      assert all[i] == rs[i];
    }
    assert all[|rs|] == r;
  }

  predicate AgreesOn(t: Table, rec: Record) {
    rec.revision >= 0 && rec.revision as nat in t ==> t[rec.revision as nat] == rec
  }

  /** A row of the log, erased or not, is accepted by any part of the log exactly
      unless a different copy of it is there. */
  lemma LogRowAccepted(t: Table, log: Table, n: nat, r: Record)
    requires LogInv(log, n) && SubLog(t, log) && r.revision >= 0 && r.revision in log && RowEvolves(log[r.revision], r)
    ensures ReplicateRecord(t, r) == if AgreesOn(t, r) then Outcome(t[r.revision as nat := r], None) else Outcome(t, Some(ReplicateConflict))
  {
    if r.revision !in t {
      forall x | x in t ensures !SameIndex(t[x], r) {
        if SameIndex(t[x], r) {
          IndexUnique(log, n, x, r.revision);
        }
      }
    } else if t[r.revision] == r {
      assert t[r.revision as nat := r] == t;
    }
    hide Linked;
  }

  predicate NonNegative(rs: seq<Record>) {
    forall i | 0 <= i < |rs| :: rs[i].revision >= 0
  }

  /** Records go in one by one until one is refused. */
  function Replay(t: Table, rs: seq<Record>): Outcome
    requires NonNegative(rs)
  {
    if rs == [] then Outcome(t, None)
    else
      var o := Replay(t, rs[..|rs| - 1]);
      if o.error.Some? then o else ReplicateRecord(o.table, rs[|rs| - 1])
  }

  lemma {:induction false} FailureStays(t: Table, rs: seq<Record>, k: nat)
    requires k <= |rs| && NonNegative(rs) && Replay(t, rs[..k]).error.Some?
    ensures Replay(t, rs) == Replay(t, rs[..k])
    decreases |rs|
  {
    if k == |rs| {
      assert rs[..k] == rs;
    } else {
      assert rs[..|rs| - 1][..k] == rs[..k];
      FailureStays(t, rs[..|rs| - 1], k);
    }
  }

  /** No record differs from the copy the table has. */
  predicate Agrees(t: Table, rs: seq<Record>) {
    forall i | 0 <= i < |rs| :: AgreesOn(t, rs[i])
  }

  /** The table with the records of a file. */
  function Join(t: Table, rs: seq<Record>): Table
    requires NonNegative(rs)
  {
    if rs == [] then t else Join(t, rs[..|rs| - 1])[rs[|rs| - 1].revision as nat := rs[|rs| - 1]]
  }

  lemma {:induction false} JoinFacts(t: Table, rs: seq<Record>, log: Table)
    requires SubLog(t, log) && FromLog(rs, log) && Increasing(rs) && NonNegative(rs)
    ensures var u := Join(t, rs);
            && SubLog(u, log) && u.Keys == t.Keys + Revisions(rs)
            && (forall i | 0 <= i < |rs| :: rs[i].revision as nat in u && u[rs[i].revision as nat] == rs[i])
            && forall r | r in t && r !in Revisions(rs) :: u[r] == t[r]
    decreases |rs|
  {
    hide RowEvolves, Increasing, Revisions;
    NoRevisions();
    if rs != [] {
      var before, last := rs[..|rs| - 1], rs[|rs| - 1];
      PartOfFile(t, log, rs, |rs| - 1);
      JoinFacts(t, before, log);
      assert rs == before + [last];
      AppendRevision(before, last);
      LastIsNew(rs);
    }
  }

  lemma NoRevisions()
    ensures Revisions([]) == {}
  {
  }

  lemma LastIsNew(rs: seq<Record>)
    requires rs != [] && Increasing(rs)
    ensures forall i | 0 <= i < |rs| - 1 :: rs[..|rs| - 1][i] == rs[i] && rs[i].revision != rs[|rs| - 1].revision
  {
  }

  /** A file of log rows joins a part of the log, if no copy differs from one
      that is there. */
  lemma {:induction false} ReplayJoins(t: Table, log: Table, n: nat, rs: seq<Record>)
    requires LogInv(log, n) && SubLog(t, log) && FromLog(rs, log) && Increasing(rs) && NonNegative(rs) && Agrees(t, rs)
    ensures Replay(t, rs) == Outcome(Join(t, rs), None)
    decreases |rs|
  {
    if rs != [] {
      var before, last := rs[..|rs| - 1], rs[|rs| - 1];
      PartOfFile(t, log, rs, |rs| - 1);
      ReplayJoins(t, log, n, before);
      JoinFacts(t, before, log);
      LastAgrees(t, log, rs);
      LogRowAccepted(Join(t, before), log, n, last);
    }
  }

  lemma PartOfFile(t: Table, log: Table, rs: seq<Record>, k: nat)
    requires FromLog(rs, log) && Increasing(rs) && NonNegative(rs) && k <= |rs|
    ensures FromLog(rs[..k], log) && Increasing(rs[..k]) && NonNegative(rs[..k]) && (Agrees(t, rs) ==> Agrees(t, rs[..k]))
  {
  }

  lemma LastAgrees(t: Table, log: Table, rs: seq<Record>)
    requires rs != [] && SubLog(t, log) && FromLog(rs, log) && Increasing(rs) && NonNegative(rs) && NonNegative(rs[..|rs| - 1])
    ensures AgreesOn(Join(t, rs[..|rs| - 1]), rs[|rs| - 1]) <==> AgreesOn(t, rs[|rs| - 1])
  {
    var before, last := rs[..|rs| - 1], rs[|rs| - 1];
    PartOfFile(t, log, rs, |rs| - 1);
    JoinFacts(t, before, log);
    assert last.revision as nat !in Revisions(before);
  }

  /** The exact condition; a refused file leaves the records before the first
      copy that differs. */
  lemma {:induction false} ReplayIff(t: Table, log: Table, n: nat, rs: seq<Record>) returns (k: nat)
    requires LogInv(log, n) && SubLog(t, log) && FromLog(rs, log) && Increasing(rs) && NonNegative(rs)
    ensures k <= |rs| && Agrees(t, rs[..k]) && NonNegative(rs[..k]) && Replay(t, rs).table == Join(t, rs[..k])
    ensures Replay(t, rs).error.None? <==> Agrees(t, rs)
    ensures Agrees(t, rs) <==> k == |rs|
    decreases |rs|
  {
    hide LogInv, Increasing, SubLog, FromLog, RowEvolves, AgreesOn;
    if Agrees(t, rs) {
      k := |rs|;
      assert rs[..k] == rs;
      ReplayJoins(t, log, n, rs);
    } else {
      var before, last := rs[..|rs| - 1], rs[|rs| - 1];
      PartOfFile(t, log, rs, |rs| - 1);
      k := ReplayIff(t, log, n, before);
      assert before[..k] == rs[..k];
      if Agrees(t, before) {
        assert before == rs[..k];
        assert !AgreesOn(t, last);
        JoinFacts(t, before, log);
        LastAgrees(t, log, rs);
        LastFromLog(rs, log);
        LogRowAccepted(Join(t, before), log, n, last);
      }
    }
  }

  lemma LastFromLog(rs: seq<Record>, log: Table)
    requires rs != [] && FromLog(rs, log)
    ensures var last := rs[|rs| - 1]; last.revision >= 0 && last.revision in log && RowEvolves(log[last.revision], last)
  {
  }

  /** DownloadAndImportFile's replay loop. */
  method ImportFile(db: Database, records: seq<Record>) returns (ok: bool)
    requires NonNegative(records)
    modifies db`rows
    ensures db.rows == Replay(old(db.rows), records).table && (ok <==> Replay(old(db.rows), records).error.None?)
  {
    for i := 0 to |records|
      invariant Replay(old(db.rows), records[..i]) == Outcome(db.rows, None)
    {
      assert records[..i + 1][..i] == records[..i];
      var o := ReplicateRecord(db.rows, records[i]);
      db.rows := o.table;
      if o.error.Some? {
        FailureStays(old(db.rows), records, i + 1);
        return false;
      }
    }
    assert records[..|records|] == records;
    ok := true;
  }

  // ---- Copies in several files ----

  /** No record of the files differs from the base's copy or from another's. */
  ghost predicate Consistent(base: Table, objects: map<string, File>, keys: set<string>) {
    && (forall key | key in keys && key in objects :: Agrees(base, objects[key].records))
    && forall a, b | a in keys && b in keys && a in objects && b in objects :: SameCopies(objects[a].records, objects[b].records)
  }

  predicate SameCopies(rs: seq<Record>, qs: seq<Record>) {
    forall i, j | 0 <= i < |rs| && 0 <= j < |qs| && rs[i].revision == qs[j].revision :: rs[i] == qs[j]
  }

  predicate HasRow(t: Table, rec: Record) {
    rec.revision >= 0 && rec.revision as nat in t && t[rec.revision as nat] == rec
  }

  predicate HasAll(t: Table, rs: seq<Record>) {
    forall i | 0 <= i < |rs| :: HasRow(t, rs[i])
  }

  /** The row comes from the base or from one of the files. */
  ghost predicate Sourced(base: Table, objects: map<string, File>, done: set<string>, r: nat, row: Record) {
    (r in base && base[r] == row) || exists key :: key in done && key in objects && row in objects[key].records && row.revision == r
  }

  /** The table is the base with the records of the files done. */
  ghost predicate Merged(base: Table, rows: Table, objects: map<string, File>, done: set<string>) {
    && (forall r | r in base :: r in rows && rows[r] == base[r])
    && (forall key | key in done && key in objects :: HasAll(rows, objects[key].records))
    && forall r | r in rows :: Sourced(base, objects, done, r, rows[r])
  }

  /** A file whose records all agree joins. */
  lemma MergeMore(base: Table, rows: Table, objects: map<string, File>, done: set<string>, key: string, log: Table)
    requires Merged(base, rows, objects, done) && key in objects && SubLog(rows, log)
    requires var rs := objects[key].records; FromLog(rs, log) && Increasing(rs) && NonNegative(rs) && Agrees(rows, rs)
    ensures Merged(base, Join(rows, objects[key].records), objects, done + {key})
  {
    hide RowEvolves, Increasing, Sourced, HasAll, SubLog, FromLog;
    var rs := objects[key].records;
    var u := Join(rows, rs);
    JoinFacts(rows, rs, log);
    JoinKeeps(rows, rs, log);
    forall k | k in done + {key} && k in objects ensures HasAll(u, objects[k].records) {
      if k == key {
        JoinHasAll(rows, rs, log);
      } else {
        AllStay(rows, u, objects[k].records);
      }
    }
    forall r | r in u ensures Sourced(base, objects, done + {key}, r, u[r]) {
      if r in rows {
        SourcedToo(base, objects, done, key, r, u[r]);
      } else {
        JoinSourced(rows, rs, log, r);
        SourcedHere(base, objects, done, key, r, u[r]);
      }
    }
  }

  lemma JoinKeeps(t: Table, rs: seq<Record>, log: Table)
    requires SubLog(t, log) && FromLog(rs, log) && Increasing(rs) && NonNegative(rs) && Agrees(t, rs)
    ensures forall r | r in t :: r in Join(t, rs) && Join(t, rs)[r] == t[r]
  {
    hide RowEvolves, Increasing;
    JoinFacts(t, rs, log);
    forall r | r in t && r in Revisions(rs) ensures Join(t, rs)[r] == t[r] {
      var i :| 0 <= i < |rs| && rs[i].revision as nat == r;
      assert AgreesOn(t, rs[i]);
    }
  }

  lemma JoinHasAll(t: Table, rs: seq<Record>, log: Table)
    requires SubLog(t, log) && FromLog(rs, log) && Increasing(rs) && NonNegative(rs)
    ensures HasAll(Join(t, rs), rs)
  {
    hide RowEvolves, Increasing;
    JoinFacts(t, rs, log);
  }

  lemma JoinSourced(t: Table, rs: seq<Record>, log: Table, r: nat)
    requires SubLog(t, log) && FromLog(rs, log) && Increasing(rs) && NonNegative(rs) && r in Join(t, rs) && r !in t
    ensures Join(t, rs)[r] in rs && Join(t, rs)[r].revision == r
  {
    hide RowEvolves, Increasing;
    JoinFacts(t, rs, log);
    var i :| 0 <= i < |rs| && rs[i].revision as nat == r;
  }

  lemma AllStay(t: Table, u: Table, rs: seq<Record>)
    requires HasAll(t, rs) && forall r | r in t :: r in u && u[r] == t[r]
    ensures HasAll(u, rs)
  {
  }

  lemma SourcedToo(base: Table, objects: map<string, File>, done: set<string>, key: string, r: nat, row: Record)
    requires Sourced(base, objects, done, r, row)
    ensures Sourced(base, objects, done + {key}, r, row)
  {
    if !(r in base && base[r] == row) {
      var k :| k in done && k in objects && row in objects[k].records && row.revision == r;
      assert k in done + {key};
    }
  }

  lemma SourcedHere(base: Table, objects: map<string, File>, done: set<string>, key: string, r: nat, row: Record)
    requires key in objects && row in objects[key].records && row.revision == r
    ensures Sourced(base, objects, done + {key}, r, row)
  {
    assert key in done + {key};
  }

  /** A file that is refused holds a copy that differs from one of another file
      or of the base. */
  lemma RefusedIsInconsistent(base: Table, rows: Table, objects: map<string, File>, done: set<string>, key: string, keys: set<string>)
    requires Merged(base, rows, objects, done) && key in objects && !Agrees(rows, objects[key].records)
    requires done <= keys && key in keys
    ensures !Consistent(base, objects, keys)
  {
    var rs := objects[key].records;
    var i :| 0 <= i < |rs| && !AgreesOn(rows, rs[i]);
    var r := rs[i].revision as nat;
    assert Sourced(base, objects, done, r, rows[r]);
    if r in base && base[r] == rows[r] {
      assert !AgreesOn(base, rs[i]);
    } else {
      var k :| k in done && k in objects && rows[r] in objects[k].records && rows[r].revision == r;
      var qs := objects[k].records;
      var j :| 0 <= j < |qs| && qs[j] == rows[r];
      assert !SameCopies(rs, qs);
    }
  }

  lemma MergedIsConsistent(base: Table, rows: Table, objects: map<string, File>, keys: set<string>)
    requires Merged(base, rows, objects, keys)
    ensures Consistent(base, objects, keys)
  {
    forall key | key in keys && key in objects ensures Agrees(base, objects[key].records) {
      var rs := objects[key].records;
      assert HasAll(rows, rs);
    }
    forall a, b | a in keys && b in keys && a in objects && b in objects ensures SameCopies(objects[a].records, objects[b].records) {
      assert HasAll(rows, objects[a].records) && HasAll(rows, objects[b].records);
    }
  }

  lemma NothingMerged(base: Table, objects: map<string, File>)
    ensures Merged(base, base, objects, {})
  {
  }

  /** One file onto what the files before it have left. */
  method ImportOnto(db: Database, objects: map<string, File>, key: string,
                    ghost done: set<string>, ghost base: Table, ghost keys: set<string>, ghost log: Table, ghost n: nat)
    returns (ok: bool)
    requires LogInv(log, n) && SubLog(db.rows, log) && Merged(base, db.rows, objects, done) && done <= keys && key in keys && key in objects
    requires var rs := objects[key].records; FromLog(rs, log) && Increasing(rs) && NonNegative(rs)
    modifies db`rows
    ensures SubLog(db.rows, log) && old(db.rows).Keys <= db.rows.Keys
    ensures ok ==> Merged(base, db.rows, objects, done + {key})
    ensures !ok ==> !Consistent(base, objects, keys)
  {
    hide LogInv, Replay, Join, Merged, Consistent, SubLog, FromLog, Increasing, Agrees;
    ghost var before, rs := db.rows, objects[key].records;
    ghost var k := ReplayIff(before, log, n, rs);
    PartOfFile(before, log, rs, k);
    JoinFacts(before, rs[..k], log);
    ok := ImportFile(db, objects[key].records);
    if ok {
      assert rs[..k] == rs;
      MergeMore(base, before, objects, done, key, log);
    } else {
      RefusedIsInconsistent(base, before, objects, done, key, keys);
    }
  }
}
