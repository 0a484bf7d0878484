/** Primary preflight: a starting Primary takes over what object storage holds,
    uploads what only it holds, and only then opens the next revision. Passes
    may stop anywhere and are repeated. */
module Preflight {
  import opened Bytes
  import opened Records
  import opened Mvcc
  import opened ObjectKeys
  import opened ChunkBuffer
  import opened LocalDb
  import opened Imports
  import opened Restore
  import opened Erasure
  import opened Compaction

  const INITIAL_KEY: Bytes := [0x5f, 0x6e, 0x65, 0x74, 0x73, 0x79]

  /** What happens around one pass: files whose download breaks off after some
      records, where the pass is told to stop, what storage answers, and whether
      the database lets the compaction revision and the head be had. */
  datatype PassEnv = PassEnv(
    leader: string,
    at: int,
    cut: map<string, nat>,
    stopChunks: Option<nat>,
    stopRecords: Option<nat>,
    stamp: nat -> int,
    attempt: nat -> Attempt,
    readBack: nat -> bool,
    compactionKnown: bool,
    headRead: bool)

  /** Nothing is cut short or refused. */
  ghost predicate Smooth(env: PassEnv) {
    env.compactionKnown && env.headRead &&
    env.leader != "" && env.cut == map[] && env.stopChunks.None? && env.stopRecords.None? && forall i: nat :: env.attempt(i).Answered?
  }

  // ---- What every pass keeps ----

  ghost predicate Behind(objects: map<string, File>, m: nat) {
    exists k: nat :: k > m && HasSnapshot(objects, k)
  }

  ghost predicate InLaterChunk(objects: map<string, File>, m: nat, r: nat) {
    exists k: nat :: k > m && HasChunk(objects, k) && Holds(objects[ChunkKey(k)].records, r)
  }

  /** The database is a part of the log, rows of it perhaps erased; what it misses
      is in a chunk above its highest revision, unless it is behind a snapshot. */
  ghost predicate Progress(objects: map<string, File>, rows: Table, log: Table, n: nat) {
    && SubLog(rows, log)
    && (Behind(objects, MaxRev(rows)) || forall r: nat | 1 <= r <= n && r !in rows :: InLaterChunk(objects, MaxRev(rows), r))
  }

  /** Files cover every revision up to the highest they name. */
  ghost predicate Closed(objects: map<string, File>) {
    forall k: nat, r: nat | (HasSnapshot(objects, k) || HasChunk(objects, k)) && 1 <= r <= k :: Covered(objects, r)
  }

  ghost predicate PassInv(objects: map<string, File>, rows: Table, log: Table, n: nat) {
    LogInv(log, n) && n < MAX_INT64 && Faithful(objects, log, n) && Progress(objects, rows, log, n) && Closed(objects)
  }

  /** A gap-free database of rows of the log, erased or not, is such a start. */
  lemma GapFreeStarts(objects: map<string, File>, rows: Table, log: Table, n: nat, m: nat)
    requires LogInv(log, n) && n < MAX_INT64 && Faithful(objects, log, n) && Closed(objects) && m <= n
    requires GapFree(rows, m) && SubLog(rows, log) && forall r: nat | m < r <= n :: Covered(objects, r)
    ensures PassInv(objects, rows, log, n)
  {
    hide ChunkKey, SnapshotKey, SnapshotFile, Linked, RowEvolves;
    MaxRevGapFree(rows, m);
    if !Behind(objects, m) {
      forall r: nat | 1 <= r <= n && r !in rows ensures InLaterChunk(objects, m, r) {
        assert Covered(objects, r);
        var k: nat :| HasChunk(objects, k) && Holds(objects[ChunkKey(k)].records, r);
        ChunkBound(objects, log, n, k, r);
      }
    }
  }

  lemma ChunkBound(objects: map<string, File>, log: Table, n: nat, k: nat, r: nat)
    requires Faithful(objects, log, n) && HasChunk(objects, k) && Holds(objects[ChunkKey(k)].records, r)
    ensures r <= k
  {
    hide ChunkKey, SnapshotKey, SnapshotFile, RowEvolves;
    assert objects[ChunkKey(k)].records != [];
  }

  // ---- Importing chunks ----

  /** No earlier chunk is above the database. */
  ghost predicate NextFile(objects: map<string, File>, rows: Table, k: nat) {
    forall j: nat | HasChunk(objects, j) && j < k :: j <= MaxRev(rows)
  }

  /** Importing the next chunk, or the part of it before the download broke off. */
  lemma ImportKeepsProgress(objects: map<string, File>, rows: Table, log: Table, n: nat, k: nat, p: nat, rows': Table)
    requires Faithful(objects, log, n) && Progress(objects, rows, log, n) && HasChunk(objects, k) && NextFile(objects, rows, k)
    requires p <= |objects[ChunkKey(k)].records| && NonNegative(objects[ChunkKey(k)].records)
    requires SubLog(rows', log) && rows'.Keys == rows.Keys + Revisions(objects[ChunkKey(k)].records[..p])
    requires !Behind(objects, MaxRev(rows))
    ensures Progress(objects, rows', log, n) && MaxRev(rows) <= MaxRev(rows')
    ensures p == |objects[ChunkKey(k)].records| ==> k <= MaxRev(rows')
  {
    hide ChunkKey, SnapshotKey, SnapshotFile, Increasing, Holds, FromLog, Revisions, InLaterChunk, SubLog;
    var rs := objects[ChunkKey(k)].records;
    var m, m' := MaxRev(rows), MaxRev(rows');
    assert ChunkOf(rs, log, k);
    assert m > 0 ==> m in rows'.Keys;
    if p == |rs| {
      WholeChunk(rs, k);
      assert k in rows'.Keys;
    }
    assert m' > m ==> m' in rows'.Keys;
    forall r: nat | 1 <= r <= n && r !in rows' ensures InLaterChunk(objects, m', r) {
      assert r !in rows.Keys;
      StillLater(objects, k, p, m, m', rows.Keys, r);
    }
  }

  lemma WholeChunk(rs: seq<Record>, k: nat)
    requires NonNegative(rs) && rs != [] && rs[|rs| - 1].revision == k
    ensures k in Revisions(rs[..|rs|])
  {
  }

  lemma StillLater(objects: map<string, File>, k: nat, p: nat, m: nat, m': nat, held: set<nat>, r: nat)
    requires HasChunk(objects, k) && p <= |objects[ChunkKey(k)].records| && NonNegative(objects[ChunkKey(k)].records)
    requires objects[ChunkKey(k)].records != [] && Increasing(objects[ChunkKey(k)].records)
    requires objects[ChunkKey(k)].records[|objects[ChunkKey(k)].records| - 1].revision == k
    requires InLaterChunk(objects, m, r) && forall j: nat | HasChunk(objects, j) && j < k :: j <= m
    requires r !in held + Revisions(objects[ChunkKey(k)].records[..p]) && (forall x | x in held :: x <= m)
    requires m' > m ==> m' in held + Revisions(objects[ChunkKey(k)].records[..p])
    ensures InLaterChunk(objects, m', r)
  {
    hide ChunkKey, Increasing;
    var rs := objects[ChunkKey(k)].records;
    var j: nat :| j > m && HasChunk(objects, j) && Holds(objects[ChunkKey(j)].records, r);
    assert p == |rs| ==> rs[..p] == rs;
    if j <= m' {
      LastOfChunk(rs, k, p, m');
    }
  }

  /** A chunk's own revision is its last record. */
  lemma LastOfChunk(rs: seq<Record>, k: nat, p: nat, x: nat)
    requires NonNegative(rs) && Increasing(rs) && rs != [] && rs[|rs| - 1].revision == k && p <= |rs| && x in Revisions(rs[..p])
    ensures x <= k && (x == k ==> p == |rs|)
  {
  }

  /** With every chunk taken over, nothing is missing. */
  lemma NothingMissing(objects: map<string, File>, rows: Table, log: Table, n: nat)
    requires LogInv(log, n) && Progress(objects, rows, log, n) && !Behind(objects, MaxRev(rows))
    requires forall k: nat | HasChunk(objects, k) :: k <= MaxRev(rows)
    ensures Evolved(log, rows)
  {
    hide RowEvolves, Linked;
  }

  // ---- Uploading what only the database holds ----

  /** Storage covers exactly the revisions up to `d`. */
  ghost predicate CoversTo(objects: map<string, File>, d: nat) {
    && (forall k: nat | HasSnapshot(objects, k) || HasChunk(objects, k) :: k <= d)
    && forall r: nat | 1 <= r <= d :: Covered(objects, r)
  }

  lemma UploadAdds(before: map<string, File>, after: map<string, File>, log: Table, n: nat, d: nat, file: File)
    requires Faithful(before, log, n) && CoversTo(before, d) && d < n < MAX_INT64
    requires ChunkOf(file.records, log, d + 1) && after == before[ChunkKey(d + 1) := file]
    ensures ChunkKey(d + 1) !in before && Faithful(after, log, n) && CoversTo(after, d + 1)
  {
    hide ChunkKey, SnapshotKey, Faithful, ChunkOf, HasSnapshot, Covered;
    NotYetThere(before, d);
    ChunkAdds(before, after, log, n, d + 1, file);
    LastCovered(after, log, d + 1, file);
    forall r: nat | 1 <= r <= d + 1 ensures Covered(after, r) {
    }
  }

  lemma NotYetThere(objects: map<string, File>, d: nat)
    requires CoversTo(objects, d) && d < MAX_INT64
    ensures ChunkKey(d + 1) !in objects && !HasChunk(objects, d + 1)
  {
    hide ChunkKey, SnapshotKey, Covered;
    assert !HasChunk(objects, d + 1);
  }

  lemma LastCovered(objects: map<string, File>, log: Table, k: nat, file: File)
    requires HasChunk(objects, k) && objects[ChunkKey(k)] == file && ChunkOf(file.records, log, k)
    ensures Covered(objects, k)
  {
    hide ChunkKey, SnapshotKey;
    assert Holds(objects[ChunkKey(k)].records, k);
  }

  lemma CoversToCloses(objects: map<string, File>, d: nat)
    requires CoversTo(objects, d)
    ensures Closed(objects)
  {
  }

  lemma {:induction false} RowsInOrder(t: Table, n: nat, lo: nat, hi: nat)
    requires GapFree(t, n) && lo <= hi <= n
    ensures |RowsBetween(t, lo, hi)| == hi - lo
    ensures forall i: nat | i < hi - lo :: lo + 1 + i in t && RowsBetween(t, lo, hi)[i] == t[lo + 1 + i]
    decreases hi
  {
    if lo < hi {
      RowsInOrder(t, n, lo, hi - 1);
    }
  }

  // ---- The pass ----

  class Starting {
    const db: Database
    const store: ObjectStore
    var committed: int
    var nextRevisionId: int
    var broadcast: seq<Record>
    var compaction: nat

    constructor (db: Database, store: ObjectStore)
      ensures this.db == db && this.store == store
    {
      this.db, this.store := db, store;
      committed, nextRevisionId, broadcast, compaction := 0, 0, [], 0;
    }

    /** Chunks above the database's highest revision, oldest first, until one
        breaks off or holds a copy that differs from one the database has. */
    method ImportChunks(m: nat, snapshot: nat, env: PassEnv, ghost log: Table, ghost n: nat) returns (ok: bool, durable: nat)
      requires PassInv(store.objects, db.rows, log, n) && m == MaxRev(db.rows) && !Behind(store.objects, m)
      modifies db`rows
      ensures Progress(store.objects, db.rows, log, n) && !Behind(store.objects, MaxRev(db.rows))
      ensures ok ==> Evolved(log, db.rows)
      ensures ok ==> durable >= snapshot && forall k: nat | HasChunk(store.objects, k) :: k <= durable
      ensures ok ==> durable == snapshot || HasChunk(store.objects, durable)
      ensures ok ==> Consistent(old(db.rows), store.objects, ChunksAbove(store.objects, m))
      ensures ok ==> Merged(old(db.rows), db.rows, store.objects, ChunksAbove(store.objects, m))
      ensures Smooth(env) && !ok ==> !Consistent(old(db.rows), store.objects, ChunksAbove(store.objects, m))
    {
      hide ChunkKey, SnapshotKey, Listed, LogInv, Faithful, Progress, Closed, Replay, Behind, HasChunk, Merged, Consistent, ChunksAbove;
      var objects := store.objects;
      ghost var base, keys, done := db.rows, ChunksAbove(objects, m), {};
      NothingMerged(base, objects);
      var files := ListFiles(objects, "chunks/", 0, MAX_INT64);
      durable := snapshot;
      for i := 0 to |files|
        invariant Progress(objects, db.rows, log, n) && !Behind(objects, MaxRev(db.rows)) && m <= MaxRev(db.rows)
        invariant forall j | 0 <= j < i :: files[j].revision <= MaxRev(db.rows) && files[j].revision <= durable
        invariant durable >= snapshot && (durable == snapshot || HasChunk(objects, durable))
        invariant Merged(base, db.rows, objects, done) && done <= keys && done == LaterNames(files[..i], m)
      {
        assert files[i] in files;
        ListedIsChunk(objects, log, n, files[i]);
        LaterSnoc(files, i, m);
        if env.stopChunks.Some? && i >= env.stopChunks.value {
          return false, durable;
        }
        if files[i].revision > durable {
          durable := files[i].revision;
        }
        if files[i].revision > m {
          IsNextFile(objects, files, i, db.rows);
          IsAbove(objects, files[i], m);
          var done' := ImportChunk(files[i].revision, env, done, base, keys, log, n);
          if !done' {
            return false, durable;
          }
          done := done + {files[i].key};
        }
      }
      ok := true;
      assert files[..|files|] == files;
      AllListed(objects, files);
      LaterAreAbove(objects, files, m, log, n);
      assert done == keys;
      MergedIsConsistent(base, db.rows, objects, keys);
      NothingMissing(objects, db.rows, log, n);
    }

    method ImportChunk(k: nat, env: PassEnv, ghost done: set<string>, ghost base: Table, ghost keys: set<string>, ghost log: Table, ghost n: nat)
      returns (ok: bool)
      requires LogInv(log, n) && Faithful(store.objects, log, n) && HasChunk(store.objects, k) && NextFile(store.objects, db.rows, k)
      requires Progress(store.objects, db.rows, log, n) && !Behind(store.objects, MaxRev(db.rows))
      requires Merged(base, db.rows, store.objects, done) && done <= keys && ChunkKey(k) in keys
      modifies db`rows
      ensures Progress(store.objects, db.rows, log, n) && !Behind(store.objects, MaxRev(db.rows))
      ensures MaxRev(old(db.rows)) <= MaxRev(db.rows) && (ok ==> k <= MaxRev(db.rows))
      ensures ok ==> Merged(base, db.rows, store.objects, done + {ChunkKey(k)})
      ensures Smooth(env) && !ok ==> !Consistent(base, store.objects, keys)
    {
      hide LogInv, Faithful, Replay, Join, NextFile, ChunkKey, FromLog, Revisions, Increasing, Merged, Consistent, Progress, Agrees, SubLog;
      ChunkFromLog(store.objects, log, n, k);
      ProgressIsPart(store.objects, db.rows, log, n);
      var key := ChunkKey(k);
      var records := store.objects[key].records;
      var p := if key in env.cut && env.cut[key] < |records| then env.cut[key] else |records|;
      ghost var before := db.rows;
      PartOfFile(before, log, records, p);
      ghost var j := ReplayIff(before, log, n, records[..p]);
      assert records[..p][..j] == records[..j];
      PartOfFile(before, log, records, j);
      JoinFacts(before, records[..j], log);
      var imported := ImportFile(db, records[..p]);
      ImportKeepsProgress(store.objects, before, log, n, k, j, db.rows);
      ok := imported && key !in env.cut;
      assert p == |records| ==> records[..p] == records;
      if ok {
        assert records[..j] == records;
        MergeMore(base, before, store.objects, done, key, log);
      } else if !imported && p == |records| {
        RefusedIsInconsistent(base, before, store.objects, done, key, keys);
      }
    }

    /** writeRecordIfMissing for every later row, in order. However it ends,
        storage covers a gap-free range. */
    method UploadRecords(durable: nat, env: PassEnv, ghost log: Table, ghost n: nat) returns (ok: bool, ghost d: nat)
      requires Evolved(log, db.rows) && LogInv(log, n) && durable <= n < MAX_INT64
      requires Faithful(store.objects, log, n) && CoversTo(store.objects, durable)
      modifies store, this`broadcast
      ensures Faithful(store.objects, log, n) && CoversTo(store.objects, d) && d <= n
      ensures ok ==> d == n && broadcast == old(broadcast) + RowsBetween(db.rows, durable, n)
      ensures Smooth(env) ==> ok
      ensures forall key | key in old(store.objects) :: key in store.objects && store.objects[key] == old(store.objects)[key]
      ensures forall key | key in store.objects && key !in old(store.objects) :: HoldsOwnRow(key, store.objects[key], db.rows)
    {
      hide ChunkKey, Faithful, CoversTo, LogInv, RowsBetween, ChunkOf, Evolved, HoldsOwnRow;
      LogRows(db.rows, log, n, durable);
      var records := RowsBetween(db.rows, durable, MaxRev(db.rows));
      d := durable;
      for i := 0 to |records|
        invariant d == durable + i && Faithful(store.objects, log, n) && CoversTo(store.objects, d)
        invariant broadcast == old(broadcast) + records[..i]
        invariant forall key | key in old(store.objects) :: key in store.objects && store.objects[key] == old(store.objects)[key]
        invariant forall key | key in store.objects && key !in old(store.objects) :: HoldsOwnRow(key, store.objects[key], db.rows)
      {
        var record := records[i];
        if env.stopRecords.Some? && i >= env.stopRecords.value {
          return false, d;
        }
        ghost var before := store.objects;
        var file := File(env.stamp(i), [record]);
        OwnRow(file, db.rows, d + 1);
        UploadAdds(before, before[ChunkKey(d + 1) := file], log, n, d, file);
        var stored := store.PutIfAbsent(ChunkKey(record.revision), file, env.attempt(i), env.readBack(i));
        if !stored {
          return false, if store.objects == before then d else d + 1;
        }
        broadcast := broadcast + [record];
        d := d + 1;
      }
      assert records[..|records|] == records;
      ok := true;
    }

    /** The highest persisted revision, or the one the rows show, then persisted. */
    method TakeCompaction(env: PassEnv) returns (ok: bool)
      modifies this`compaction, db`compactions
      ensures ok <==> env.compactionKnown
      ensures ok ==> CompactionTaken(old(db.compactions), db.rows, compaction, db.compactions)
      ensures !ok ==> compaction == old(compaction) && db.compactions == old(db.compactions)
    {
      if !env.compactionKnown {
        return false;
      }
      var current := db.LatestCompactionRevision();
      if current == 0 {
        current := DeriveCompactionRevision(db.rows);
        db.PersistCompactionRevision(current);
      }
      compaction := current;
      return true;
    }

    method Activate(env: PassEnv) returns (ok: bool)
      modifies this`compaction, this`committed, this`nextRevisionId, db`compactions
      ensures ok <==> env.compactionKnown && env.headRead
      ensures ok ==> committed == MaxRev(db.rows) && nextRevisionId == MaxRev(db.rows) + 1
      ensures ok ==> CompactionTaken(old(db.compactions), db.rows, compaction, db.compactions)
      ensures !ok ==> committed == old(committed) && nextRevisionId == old(nextRevisionId)
    {
      ok := TakeCompaction(env);
      if !ok || !env.headRead {
        return false;
      }
      committed := MaxRev(db.rows);
      nextRevisionId := MaxRev(db.rows) + 1;
    }

    /** One pass. Failing or not, it can be repeated; a success opens revision
        L + 1 over a database and a storage that both hold exactly 1..L, rows
        perhaps erased. Undisturbed it succeeds if and only if the database is
        not behind a snapshot and no chunk above its head holds a copy of a
        record that differs from the database's or another chunk's. */
    method RunPreflightPass(env: PassEnv, ghost log: Table, ghost n: nat) returns (ok: bool, ghost log': Table, ghost n': nat)
      requires PassInv(store.objects, db.rows, log, n)
      modifies this, db, store
      ensures PassInv(store.objects, db.rows, log', n')
      ensures n > 0 ==> log' == log && n' == n
      ensures n == 0 ==> n' <= 1 && (n' == 1 ==> 1 in log' && log'[1].key == INITIAL_KEY && log'[1].created && log'[1].value == [])
      ensures ok ==> n' > 0 && Evolved(log', db.rows) && CoversTo(store.objects, n') && committed == n' && nextRevisionId == n' + 1
      ensures ok ==> CompactionTaken(old(db.compactions), db.rows, compaction, db.compactions)
      ensures !ok ==> committed == old(committed) && nextRevisionId == old(nextRevisionId)
      // Nothing in storage changes but for chunks of single rows it is given,
      // and the database gains exactly the records of the later chunks.
      ensures forall key | key in old(store.objects) :: key in store.objects && store.objects[key] == old(store.objects)[key]
      ensures forall key | key in store.objects && key !in old(store.objects) :: HoldsOwnRow(key, store.objects[key], db.rows)
      ensures ok && n > 0 ==> Merged(old(db.rows), db.rows, old(store.objects), ChunksAbove(old(store.objects), MaxRev(old(db.rows))))
      ensures ok ==> CanTakeOver(old(store.objects), old(db.rows))
      ensures Smooth(env) ==> (ok <==> CanTakeOver(old(store.objects), old(db.rows)))
    {
      hide CompactionTaken, DeriveCompactionRevision, Faithful, CoversTo, LogInv, RowsBetween, Progress, Closed, Behind, Listed,
        HasChunk, HasSnapshot, InsertRow, ChunkKey, SnapshotKey, Consistent, Evolved, ChunksAbove, Merged, HoldsOwnRow;
      log', n' := log, n;
      var m := MaxRev(db.rows);
      LocalInLog(store.objects, db.rows, log, n);
      var latest := GetLatestSnapshot(store.objects);
      LatestIsGreatest(store.objects, latest);
      if latest.Some? && latest.value.revision > m {
        SnapshotAhead(store.objects, log, n, latest.value, m);
        return false, log', n';
      }
      SnapshotInReach(store.objects, log, n, latest, m);
      var durable: nat := if latest.Some? then latest.value.revision else 0;
      ghost var rows0 := db.rows;
      ok, durable := ImportChunks(m, durable, env, log, n);
      if !ok {
        return false, log', n';
      }
      DurableCovers(store.objects, if latest.Some? then latest.value.revision else 0, durable);
      DurableInLog(store.objects, log, n, durable);
      if durable == 0 && m == 0 {
        EmptyCluster(store.objects, rows0, log, n);
        EmptyDatabase(db.rows);
        FirstRowAccepted(env.leader, env.at);
        var row := InsertRow(db.rows, Initial(env.leader), env.at);
        if row.Err? {
          return false, log', n';
        }
        FirstRow(store.objects, log, env.leader, env.at);
        db.rows := db.rows[1 := row.value];
        log', n' := db.rows, 1;
        SameLog(log');
      }
      var uploaded;
      ghost var d;
      uploaded, d := UploadRecords(durable, env, log', n');
      WholeLogProgress(store.objects, db.rows, log', n');
      CoversToCloses(store.objects, d);
      if !uploaded {
        return false, log', n';
      }
      LogHead(db.rows, log', n');
      ok := Activate(env);
    }
  }

  /** The database reaches every snapshot, and no copy of a record in the chunks
      above its head differs from its own or from another. */
  ghost predicate CanTakeOver(objects: map<string, File>, rows: Table) {
    !Behind(objects, MaxRev(rows)) && Consistent(rows, objects, ChunksAbove(objects, MaxRev(rows)))
  }

  ghost predicate CompactionTaken(before: set<nat>, rows: Table, c: nat, after: set<nat>) {
    if exists r :: r in before && r > 0 then IsMax(c, before) && after == before
    else c == DeriveCompactionRevision(rows) && after == before + if c > 0 then {c} else {}
  }

  /** A chunk of one record: the database's row, as it is, under its revision. */
  ghost predicate HoldsOwnRow(key: string, file: File, rows: Table) {
    exists r | r in rows :: key == ChunkKey(r) && file.records == [rows[r]]
  }

  function Initial(leader: string): Record {
    Record(1, INITIAL_KEY, true, false, 0, 0, 0, 0, 0, [], None, None, leader)
  }

  lemma OwnRow(file: File, rows: Table, r: nat)
    requires r in rows && file.records == [rows[r]]
    ensures HoldsOwnRow(ChunkKey(r), file, rows)
  {
    hide ChunkKey;
  }

  lemma LogRows(rows: Table, log: Table, n: nat, lo: nat)
    requires LogInv(log, n) && Evolved(log, rows) && lo <= n < MAX_INT64
    ensures MaxRev(rows) == n && |RowsBetween(rows, lo, n)| == n - lo
    ensures forall i: nat | i < n - lo :: lo + 1 + i in rows && RowsBetween(rows, lo, n)[i] == rows[lo + 1 + i]
    ensures forall i: nat | i < n - lo ::
              RowsBetween(rows, lo, n)[i].revision == lo + 1 + i && ChunkOf([RowsBetween(rows, lo, n)[i]], log, lo + 1 + i)
  {
    hide Linked;
    MaxRevGapFree(rows, n);
    RowsInOrder(rows, n, lo, n);
  }

  lemma LogHead(rows: Table, log: Table, n: nat)
    requires LogInv(log, n) && Evolved(log, rows)
    ensures MaxRev(rows) == n
  {
    hide Linked, RowEvolves;
    MaxRevGapFree(rows, n);
  }

  lemma EmptyDatabase(rows: Table)
    requires Evolved(map[], rows)
    ensures rows == map[]
  {
  }

  lemma SameLog(log: Table)
    ensures Evolved(log, log)
  {
  }

  lemma ProgressIsPart(objects: map<string, File>, rows: Table, log: Table, n: nat)
    requires Progress(objects, rows, log, n)
    ensures SubLog(rows, log)
  {
  }

  ghost function LaterNames(fs: seq<FileInfo>, m: nat): set<string> {
    set f | f in fs && f.revision > m :: f.key
  }

  lemma LaterSnoc(fs: seq<FileInfo>, i: nat, m: nat)
    requires i < |fs|
    ensures LaterNames(fs[..i + 1], m) == LaterNames(fs[..i], m) + if fs[i].revision > m then {fs[i].key} else {}
  {
    assert fs[..i + 1] == fs[..i] + [fs[i]];
  }

  lemma IsAbove(objects: map<string, File>, f: FileInfo, m: nat)
    requires f.revision > m && f.key == ChunkKey(f.revision) && HasChunk(objects, f.revision)
    ensures f.key in ChunksAbove(objects, m)
  {
  }

  lemma LaterAreAbove(objects: map<string, File>, files: seq<FileInfo>, m: nat, log: Table, n: nat)
    requires Faithful(objects, log, n) && forall f :: f in files <==> Listed(objects, "chunks/", 0, MAX_INT64, f)
    ensures LaterNames(files, m) == ChunksAbove(objects, m)
  {
    hide ChunkKey, Listed, Faithful;
    forall key | key in ChunksAbove(objects, m) ensures key in LaterNames(files, m) {
      var k: nat :| k > m && k <= MAX_INT64 && key == ChunkKey(k);
      ChunkIsListed(objects, 0, MAX_INT64, k);
      assert FileInfo(ChunkKey(k), k) in files;
    }
    forall f | f in files && f.revision > m ensures f.key in ChunksAbove(objects, m) {
      ListedIsChunk(objects, log, n, f);
      IsAbove(objects, f, m);
    }
  }

  lemma SnapshotInReach(objects: map<string, File>, log: Table, n: nat, latest: Option<FileInfo>, m: nat)
    requires Faithful(objects, log, n)
    requires latest.Some? ==> Listed(objects, "snapshots/", BELOW_INT64, MAX_INT64, latest.value) && latest.value.revision <= m
    requires forall k: nat | HasSnapshot(objects, k) :: latest.Some? && k <= latest.value.revision
    ensures !Behind(objects, m)
    ensures latest.Some? ==> 0 < latest.value.revision <= n && HasSnapshot(objects, latest.value.revision)
  {
    hide ChunkKey, SnapshotKey, SnapshotFile, ChunkOf, ParseRevisionFromKey;
    if latest.Some? {
      ListedSnapshot(objects, BELOW_INT64, MAX_INT64, latest.value);
    }
  }

  lemma SnapshotAhead(objects: map<string, File>, log: Table, n: nat, f: FileInfo, m: nat)
    requires Faithful(objects, log, n) && Listed(objects, "snapshots/", BELOW_INT64, MAX_INT64, f) && f.revision > m
    ensures Behind(objects, m)
  {
    hide ChunkKey, SnapshotKey, SnapshotFile, ChunkOf, ParseRevisionFromKey;
    ListedSnapshot(objects, BELOW_INT64, MAX_INT64, f);
    assert HasSnapshot(objects, f.revision);
  }

  lemma DurableCovers(objects: map<string, File>, snapshot: nat, durable: nat)
    requires Closed(objects) && (forall k: nat | HasSnapshot(objects, k) :: k <= snapshot)
    requires (snapshot > 0 ==> HasSnapshot(objects, snapshot)) && durable >= snapshot
    requires (forall k: nat | HasChunk(objects, k) :: k <= durable) && (durable == snapshot || HasChunk(objects, durable))
    ensures CoversTo(objects, durable)
  {
  }

  lemma DurableInLog(objects: map<string, File>, log: Table, n: nat, durable: nat)
    requires Faithful(objects, log, n) && (durable > 0 ==> HasChunk(objects, durable) || HasSnapshot(objects, durable))
    ensures durable <= n
  {
  }

  lemma LocalInLog(objects: map<string, File>, rows: Table, log: Table, n: nat)
    requires LogInv(log, n) && Progress(objects, rows, log, n)
    ensures MaxRev(rows) <= n
  {
  }

  lemma EmptyCluster(objects: map<string, File>, rows: Table, log: Table, n: nat)
    requires LogInv(log, n) && Progress(objects, rows, log, n) && MaxRev(rows) == 0 && CoversTo(objects, 0)
    ensures n == 0 && log == map[]
  {
    hide Linked, ChunkKey, SnapshotKey;
    assert 1 !in rows;
  }

  lemma FirstRow(objects: map<string, File>, log: Table, leader: string, at: int)
    requires log == map[] && InsertRow(log, Initial(leader), at).Ok? && CoversTo(objects, 0) && Faithful(objects, log, 0)
    ensures var row := InsertRow(log, Initial(leader), at).value;
            && row.key == INITIAL_KEY && row.created && row.value == []
            && LogInv(log[1 := row], 1) && Faithful(objects, log[1 := row], 1)
  {
  }

  lemma FirstRowAccepted(leader: string, at: int)
    ensures InsertRow(map[], Initial(leader), at).Ok? <==> leader != ""
  {
  }

  lemma WholeLogProgress(objects: map<string, File>, rows: Table, log: Table, n: nat)
    requires LogInv(log, n) && Evolved(log, rows)
    ensures Progress(objects, rows, log, n)
  {
    hide Linked, RowEvolves;
  }

  lemma ListedIsChunk(objects: map<string, File>, log: Table, n: nat, f: FileInfo)
    requires Faithful(objects, log, n) && Listed(objects, "chunks/", 0, MAX_INT64, f)
    ensures 0 < f.revision <= n && f.key == ChunkKey(f.revision) && HasChunk(objects, f.revision)
  {
    hide ChunkKey, SnapshotKey, SnapshotFile, ChunkOf, ParseRevisionFromKey;
    ListedChunk(objects, 0, MAX_INT64, f);
  }

  lemma IsNextFile(objects: map<string, File>, files: seq<FileInfo>, i: nat, rows: Table)
    requires i < |files| && Restore.Sorted(files) && files[i].revision > 0
    requires forall f :: f in files <==> Listed(objects, "chunks/", 0, MAX_INT64, f)
    requires forall j | 0 <= j < i :: files[j].revision <= MaxRev(rows)
    ensures NextFile(objects, rows, files[i].revision)
  {
    hide Listed, ChunkKey;
    forall k: nat | HasChunk(objects, k) && k < files[i].revision ensures k <= MaxRev(rows) {
      if k > 0 {
        ChunkIsListed(objects, 0, MAX_INT64, k);
        assert FileInfo(ChunkKey(k), k) in files;
        var j :| 0 <= j < |files| && files[j] == FileInfo(ChunkKey(k), k);
      }
    }
  }

  lemma AllListed(objects: map<string, File>, files: seq<FileInfo>)
    requires forall f :: f in files <==> Listed(objects, "chunks/", 0, MAX_INT64, f)
    ensures forall k: nat | HasChunk(objects, k) && k > 0 :: exists j | 0 <= j < |files| :: files[j].revision == k
  {
    hide Listed, ChunkKey;
    forall k: nat | HasChunk(objects, k) && k > 0 ensures exists j | 0 <= j < |files| :: files[j].revision == k {
      ChunkIsListed(objects, 0, MAX_INT64, k);
      assert FileInfo(ChunkKey(k), k) in files;
      var j :| 0 <= j < |files| && files[j] == FileInfo(ChunkKey(k), k);
    }
  }

  lemma ChunkFromLog(objects: map<string, File>, log: Table, n: nat, k: nat)
    requires Faithful(objects, log, n) && HasChunk(objects, k)
    ensures var rs := objects[ChunkKey(k)].records; FromLog(rs, log) && Increasing(rs) && NonNegative(rs)
  {
    hide ChunkKey, SnapshotKey, SnapshotFile, RowEvolves;
  }

  /** Row 1 was erased in the database after rows 1 to 3 had been flushed as one
      chunk; the database lacks row 3. No pass can take the chunk over. */
  method PassRefused(log: Table, at: int, stamp: int, env: PassEnv) returns (p: Starting, ok: bool)
    requires LogInv(log, 3) && log[1].key == log[2].key && log[1].compactedAt.None? && Smooth(env)
    ensures fresh(p) && PassInv(p.store.objects, p.db.rows, log, 3) && !ok
  {
    hide PassInv, Faithful, LogInv, ChunkKey, SnapshotKey, RowsBetween, Compact, ChunkOf, CanTakeOver, UpTo, CompactionTaken, Covered;
    var store := new ObjectStore();
    var db := new Database();
    p := new Starting(db, store);
    ThreeRows(log, at);
    EmptyIsFaithful(log);
    var chunk := File(stamp, RowsBetween(log, 0, 3));
    ChunkAdds(map[], map[ChunkKey(3) := chunk], log, 3, 3, chunk);
    store.objects := map[ChunkKey(3) := chunk];
    db.rows := UpTo(Compact(log, 1, at), 2);
    ChunkCovers(store.objects, log);
    StraddledStart(store.objects, log, at);
    ghost var log', n';
    ok, log', n' := p.RunPreflightPass(env, log, 3);
  }

  lemma StraddledStart(objects: map<string, File>, log: Table, at: int)
    requires LogInv(log, 3) && log[1].key == log[2].key && log[1].compactedAt.None? && Faithful(objects, log, 3)
    requires HasChunk(objects, 3) && (forall r: nat | 1 <= r <= 3 :: Covered(objects, r)) && forall k: nat | HasSnapshot(objects, k) || HasChunk(objects, k) :: k <= 3
    requires var rs := objects[ChunkKey(3)].records; |rs| == 3 && rs[0] == log[1] && rs[0].revision == 1
    ensures var rows := UpTo(Compact(log, 1, at), 2); PassInv(objects, rows, log, 3) && !CanTakeOver(objects, rows)
  {
    hide Faithful, Covered, ChunkKey, SnapshotKey, Linked, Compact, PassInv;
    var rows := UpTo(Compact(log, 1, at), 2);
    CompactEvolves(log, 1, at);
    FirstErased(log, at);
    CoversToCloses(objects, 3);
    assert GapFree(rows, 2) && SubLog(rows, log);
    GapFreeStarts(objects, rows, log, 3, 2);
    MaxRevGapFree(rows, 2);
    var key := ChunkKey(3);
    assert key in ChunksAbove(objects, 2);
    assert !AgreesOn(rows, objects[key].records[0]);
    assert !Agrees(rows, objects[key].records);
  }
}
