/** Snapshots, chunk clean-up and rebuilding a database from object storage. */
module Restore {
  import opened Records
  import opened Mvcc
  import opened Erasure
  import opened ObjectKeys
  import opened ChunkBuffer
  import opened LocalDb
  import opened Imports

  // ---- Listing files ----

  const BELOW_INT64: int := -0x8000_0000_0000_0001

  datatype FileInfo = FileInfo(key: string, revision: int)

  predicate Sorted(fs: seq<FileInfo>) {
    forall i, j | 0 <= i < j < |fs| :: fs[i].revision <= fs[j].revision
  }

  function Place(f: FileInfo, fs: seq<FileInfo>): seq<FileInfo> {
    if fs == [] || f.revision <= fs[0].revision then [f] + fs else [fs[0]] + Place(f, fs[1..])
  }

  function SortFiles(fs: seq<FileInfo>): seq<FileInfo> {
    if fs == [] then [] else Place(fs[|fs| - 1], SortFiles(fs[..|fs| - 1]))
  }

  lemma {:induction false} PlaceKeeps(f: FileInfo, fs: seq<FileInfo>)
    ensures multiset(Place(f, fs)) == multiset(fs) + multiset{f}
  {
    if !(fs == [] || f.revision <= fs[0].revision) {
      PlaceKeeps(f, fs[1..]);
      assert fs == [fs[0]] + fs[1..];
    }
  }

  lemma {:induction false} PlaceSorts(f: FileInfo, fs: seq<FileInfo>)
    requires Sorted(fs)
    ensures Sorted(Place(f, fs))
  {
    if !(fs == [] || f.revision <= fs[0].revision) {
      PlaceSorts(f, fs[1..]);
      PlaceKeeps(f, fs[1..]);
      var rest := Place(f, fs[1..]);
      forall i | 0 <= i < |rest| ensures fs[0].revision <= rest[i].revision {
        assert rest[i] in multiset(rest);
        assert rest[i] == f || rest[i] in multiset(fs[1..]);
      }
    }
  }

  lemma {:induction false} SortFilesSorts(fs: seq<FileInfo>)
    ensures Sorted(SortFiles(fs)) && multiset(SortFiles(fs)) == multiset(fs)
  {
    if fs != [] {
      var before := fs[..|fs| - 1];
      SortFilesSorts(before);
      PlaceSorts(fs[|fs| - 1], SortFiles(before));
      PlaceKeeps(fs[|fs| - 1], SortFiles(before));
      assert fs == before + [fs[|fs| - 1]];
    }
  }

  lemma SameMembers(a: seq<FileInfo>, b: seq<FileInfo>)
    requires multiset(a) == multiset(b)
    ensures forall f :: f in a <==> f in b
  {
    forall f ensures f in a <==> f in b {
      assert f in a <==> f in multiset(a);
      assert f in b <==> f in multiset(b);
    }
  }

  /** A file of the listed kind whose name carries a revision in `(lo, hi]`. */
  predicate Listed(objects: map<string, File>, prefix: string, lo: int, hi: int, f: FileInfo) {
    f.key in objects && prefix <= f.key && ParseRevisionFromKey(f.key) == Some(f.revision) && lo < f.revision <= hi
  }

  /** ListChunks, ListChunksForCleanup and ListSnapshots: every such file,
      oldest first. */
  method ListFiles(objects: map<string, File>, prefix: string, lo: int, hi: int) returns (files: seq<FileInfo>)
    ensures Sorted(files)
    ensures forall f :: f in files <==> Listed(objects, prefix, lo, hi, f)
  {
    files := [];
    var todo := objects.Keys;
    while todo != {}
      invariant todo <= objects.Keys
      invariant forall f :: f in files <==> Listed(objects, prefix, lo, hi, f) && f.key !in todo
      decreases |todo|
    {
      var key :| key in todo;
      todo := todo - {key};
      if prefix <= key {
        var rev := ParseRevisionFromKey(key);
        if rev.Some? && lo < rev.value <= hi {
          files := files + [FileInfo(key, rev.value)];
        }
      }
    }
    SortFilesSorts(files);
    SameMembers(SortFiles(files), files);
    files := SortFiles(files);
  }

  // ---- What object storage says about the log ----

  predicate HasSnapshot(objects: map<string, File>, k: nat) {
    k <= MAX_INT64 && SnapshotKey(k) in objects
  }

  predicate HasChunk(objects: map<string, File>, k: nat) {
    k <= MAX_INT64 && ChunkKey(k) in objects
  }

  predicate Holds(rs: seq<Record>, r: nat) {
    exists i | 0 <= i < |rs| :: rs[i].revision == r
  }

  /** Some file holds the revision. */
  ghost predicate Covered(objects: map<string, File>, r: nat) {
    || (exists k: nat :: HasSnapshot(objects, k) && r <= k)
    || (exists k: nat :: HasChunk(objects, k) && Holds(objects[ChunkKey(k)].records, r))
  }

  ghost predicate WellNamed(objects: map<string, File>) {
    forall key | key in objects :: exists k: nat :: IsName(key, k)
  }

  predicate IsName(key: string, k: nat) {
    k <= MAX_INT64 && (key == ChunkKey(k) || key == SnapshotKey(k))
  }

  /** Rows of the log in order, the last at the file's own revision. */
  predicate ChunkOf(rs: seq<Record>, log: Table, k: nat) {
    FromLog(rs, log) && Increasing(rs) && rs != [] && rs[|rs| - 1].revision == k
  }

  /** All rows of the log up to `k`, in order. */
  ghost predicate SnapshotFile(rs: seq<Record>, log: Table, k: nat) {
    FromLog(rs, log) && Increasing(rs) && forall r: nat :: r in Revisions(rs) <==> 1 <= r <= k
  }

  /** Every file is named for a revision up to `n` and holds rows of the log as
      they were written or erased when it was: a snapshot all of them up to its
      revision, a chunk some, up to its own. */
  ghost predicate Faithful(objects: map<string, File>, log: Table, n: nat) {
    && WellNamed(objects)
    && (forall k: nat | HasSnapshot(objects, k) :: 0 < k <= n && SnapshotFile(objects[SnapshotKey(k)].records, log, k))
    && forall k: nat | HasChunk(objects, k) :: 0 < k <= n && ChunkOf(objects[ChunkKey(k)].records, log, k)
  }

  lemma ListedChunk(objects: map<string, File>, lo: int, hi: int, f: FileInfo)
    requires WellNamed(objects) && Listed(objects, "chunks/", lo, hi, f)
    ensures 0 <= f.revision <= MAX_INT64 && f.key == ChunkKey(f.revision)
  {
    hide ParseRevisionFromKey;
    var k: nat :| IsName(f.key, k);
    KeysRoundTrip(k);
    assert f.key[0] == "chunks/"[0] && SnapshotKey(k)[0] == 's';
  }

  lemma ListedSnapshot(objects: map<string, File>, lo: int, hi: int, f: FileInfo)
    requires WellNamed(objects) && Listed(objects, "snapshots/", lo, hi, f)
    ensures 0 <= f.revision <= MAX_INT64 && f.key == SnapshotKey(f.revision)
  {
    hide ParseRevisionFromKey;
    var k: nat :| IsName(f.key, k);
    KeysRoundTrip(k);
    assert f.key[0] == "snapshots/"[0] && ChunkKey(k)[0] == 'c';
  }

  lemma ChunkIsListed(objects: map<string, File>, lo: int, hi: int, k: nat)
    requires HasChunk(objects, k) && lo < k <= hi
    ensures Listed(objects, "chunks/", lo, hi, FileInfo(ChunkKey(k), k))
  {
    KeysRoundTrip(k);
  }

  lemma SnapshotIsListed(objects: map<string, File>, lo: int, hi: int, k: nat)
    requires HasSnapshot(objects, k) && lo < k <= hi
    ensures Listed(objects, "snapshots/", lo, hi, FileInfo(SnapshotKey(k), k))
  {
    KeysRoundTrip(k);
  }

  // ---- Snapshot creation and chunk clean-up ----

  /** Only chunks up to `upTo` have gone. */
  ghost predicate Thinned(before: map<string, File>, after: map<string, File>, upTo: nat) {
    && (forall key | key in after :: key in before && after[key] == before[key])
    && forall key | key in before && key !in after :: exists k: nat :: k <= upTo && k <= MAX_INT64 && key == ChunkKey(k)
  }

  lemma SnapshotsStay(before: map<string, File>, after: map<string, File>, upTo: nat, k: nat)
    requires Thinned(before, after, upTo) && HasSnapshot(before, k)
    ensures HasSnapshot(after, k)
  {
    hide ChunkKey, SnapshotKey;
    if SnapshotKey(k) !in after {
      var j: nat :| j <= upTo && j <= MAX_INT64 && SnapshotKey(k) == ChunkKey(j);
      KeysInjective(j, k);
    }
  }

  lemma LaterChunksStay(before: map<string, File>, after: map<string, File>, upTo: nat, k: nat)
    requires Thinned(before, after, upTo) && HasChunk(before, k) && k > upTo
    ensures HasChunk(after, k)
  {
    hide ChunkKey;
    if ChunkKey(k) !in after {
      var j: nat :| j <= upTo && j <= MAX_INT64 && ChunkKey(k) == ChunkKey(j);
      KeysInjective(j, k);
    }
  }

  /** Clean-up behind a snapshot loses no revision, whichever deletes fail. */
  lemma ThinnedCovers(before: map<string, File>, after: map<string, File>, log: Table, n: nat, upTo: nat, r: nat)
    requires Faithful(before, log, n) && HasSnapshot(before, upTo) && Thinned(before, after, upTo) && Covered(before, r)
    ensures Covered(after, r)
  {
    hide ChunkKey, SnapshotKey;
    if k: nat :| HasSnapshot(before, k) && r <= k {
      SnapshotsStay(before, after, upTo, k);
    } else {
      var k: nat :| HasChunk(before, k) && Holds(before[ChunkKey(k)].records, r);
      SnapshotsStay(before, after, upTo, upTo);
      assert before[ChunkKey(k)].records != [];
      if k > upTo {
        LaterChunksStay(before, after, upTo, k);
      }
    }
  }

  lemma ThinnedIsFaithful(before: map<string, File>, after: map<string, File>, log: Table, n: nat, upTo: nat)
    requires Faithful(before, log, n) && Thinned(before, after, upTo)
    ensures Faithful(after, log, n)
  {
    hide ChunkKey, SnapshotKey, ChunkOf, SnapshotFile;
    assert forall k: nat | HasSnapshot(after, k) :: HasSnapshot(before, k);
    assert forall k: nat | HasChunk(after, k) :: HasChunk(before, k);
  }

  /** Adding the snapshot keeps what is there. */
  lemma SnapshotAdds(before: map<string, File>, after: map<string, File>, log: Table, n: nat, upTo: nat, file: File)
    requires Faithful(before, log, n) && 0 < upTo <= n && upTo <= MAX_INT64 && SnapshotFile(file.records, log, upTo)
    requires after == before[SnapshotKey(upTo) := file]
    ensures Faithful(after, log, n) && HasSnapshot(after, upTo)
    ensures forall r: nat :: Covered(before, r) ==> Covered(after, r)
  {
    hide ChunkKey, SnapshotKey, ChunkOf, SnapshotFile;
    forall k: nat | k <= MAX_INT64
      ensures ChunkKey(k) != SnapshotKey(upTo) && (SnapshotKey(k) == SnapshotKey(upTo) ==> k == upTo)
    {
      KeysInjective(k, upTo);
    }
    assert IsName(SnapshotKey(upTo), upTo);
    assert forall k: nat | HasSnapshot(before, k) :: HasSnapshot(after, k);
    assert forall k: nat | HasChunk(before, k) :: HasChunk(after, k) && after[ChunkKey(k)] == before[ChunkKey(k)];
    assert forall k: nat | HasSnapshot(after, k) :: k == upTo || HasSnapshot(before, k);
    assert forall k: nat | HasChunk(after, k) :: HasChunk(before, k);
  }

  /** Adding a chunk of rows of the log, too. */
  lemma ChunkAdds(before: map<string, File>, after: map<string, File>, log: Table, n: nat, k: nat, file: File)
    requires Faithful(before, log, n) && 0 < k <= n && k <= MAX_INT64 && ChunkOf(file.records, log, k) && after == before[ChunkKey(k) := file]
    ensures Faithful(after, log, n) && HasChunk(after, k)
    ensures forall j: nat | HasSnapshot(after, j) :: HasSnapshot(before, j)
    ensures forall j: nat | HasChunk(after, j) :: j == k || HasChunk(before, j)
    ensures !HasChunk(before, k) ==> forall r: nat :: Covered(before, r) ==> Covered(after, r)
  {
    hide ChunkKey, SnapshotKey, ChunkOf, SnapshotFile, Holds;
    forall j: nat | j <= MAX_INT64 ensures SnapshotKey(j) != ChunkKey(k) && (ChunkKey(j) == ChunkKey(k) ==> j == k) {
      KeysInjective(j, k);
      KeysInjective(k, j);
    }
    assert IsName(ChunkKey(k), k);
    assert forall j: nat | HasSnapshot(before, j) :: HasSnapshot(after, j);
    assert forall j: nat | HasChunk(before, j) && j != k :: HasChunk(after, j) && after[ChunkKey(j)] == before[ChunkKey(j)];
    assert forall j: nat | HasSnapshot(after, j) :: HasSnapshot(before, j);
    assert forall j: nat | HasChunk(after, j) :: j == k || HasChunk(before, j);
  }

  /** createSnapshot, from a database in which any rows may be erased. A lost
      answer leaves the snapshot without the clean-up; any deletes may fail. No
      revision loses coverage, and what is left still holds rows of the log. */
  method CreateSnapshot(store: ObjectStore, rows: Table, ghost log: Table, ghost n: nat, upTo: nat, stamp: int, upload: Attempt, failing: set<string>)
    requires LogInv(log, n) && Evolved(log, rows) && Faithful(store.objects, log, n) && 0 < upTo <= n && upTo <= MAX_INT64
    modifies store
    ensures Faithful(store.objects, log, n)
    ensures forall r: nat :: Covered(old(store.objects), r) ==> Covered(store.objects, r)
    ensures !upload.Lost? ==> HasSnapshot(store.objects, upTo) && store.objects[SnapshotKey(upTo)] == File(stamp, RowsBetween(rows, 0, upTo))
    ensures !upload.Lost? ==> forall r: nat | 1 <= r <= upTo :: Covered(store.objects, r)
    ensures upload.Answered? ==> forall k: nat | HasChunk(store.objects, k) && k <= upTo :: ChunkKey(k) in failing
    ensures upload.Lost? ==> store.objects == old(store.objects)
    ensures forall key | key in store.objects && key != SnapshotKey(upTo) :: key in old(store.objects) && store.objects[key] == old(store.objects)[key]
  {
    hide Faithful, Covered, LogInv, ChunkKey, SnapshotKey, RowsBetween, SnapshotFile, Evolved;
    var records := RowsBetween(rows, 0, upTo);
    if upload.Lost? {
      return;
    }
    ghost var before := store.objects;
    store.objects := store.objects[SnapshotKey(upTo) := File(stamp, records)];
    ghost var stored := store.objects;
    SnapshotIsFaithful(rows, log, n, upTo);
    SnapshotAdds(before, stored, log, n, upTo, File(stamp, records));
    SnapshotCovers(stored, upTo);
    if upload.Unanswered? {
      return;
    }
    FaithfulNames(stored, log, n);
    DeleteChunks(store, upTo, failing);
    ThinnedIsFaithful(stored, store.objects, log, n, upTo);
    forall r: nat | Covered(stored, r) ensures Covered(store.objects, r) {
      ThinnedCovers(stored, store.objects, log, n, upTo, r);
    }
    SnapshotsStay(stored, store.objects, upTo, upTo);
  }

  lemma FaithfulNames(objects: map<string, File>, log: Table, n: nat)
    requires Faithful(objects, log, n)
    ensures WellNamed(objects)
  {
  }

  lemma SnapshotIsFaithful(rows: Table, log: Table, n: nat, upTo: nat)
    requires LogInv(log, n) && Evolved(log, rows) && upTo <= n && upTo <= MAX_INT64
    ensures SnapshotFile(RowsBetween(rows, 0, upTo), log, upTo)
  {
    hide RowsBetween, RowEvolves, Linked;
    RowsFromLog(rows, log, 0, upTo);
  }

  lemma SnapshotCovers(objects: map<string, File>, upTo: nat)
    requires HasSnapshot(objects, upTo)
    ensures forall r: nat | r <= upTo :: Covered(objects, r)
  {
  }

  method DeleteChunks(store: ObjectStore, upTo: nat, failing: set<string>)
    requires WellNamed(store.objects) && upTo <= MAX_INT64
    modifies store
    ensures Thinned(old(store.objects), store.objects, upTo)
    ensures forall k: nat | HasChunk(store.objects, k) && k <= upTo :: ChunkKey(k) in failing
  {
    hide ChunkKey, Listed, WellNamed;
    ghost var before := store.objects;
    var files := ListFiles(store.objects, "chunks/", BELOW_INT64, upTo);
    for i := 0 to |files|
      invariant forall key | key in store.objects :: key in before && store.objects[key] == before[key]
      invariant forall key | key in before && key !in store.objects :: exists j | 0 <= j < i :: files[j].key == key
      invariant forall j | 0 <= j < i :: files[j].key in store.objects ==> files[j].key in failing
    {
      if files[i].key !in failing {
        store.objects := store.objects - {files[i].key};
      }
    }
    forall key | key in before && key !in store.objects ensures exists k: nat :: k <= upTo && k <= MAX_INT64 && key == ChunkKey(k) {
      var j :| 0 <= j < |files| && files[j].key == key;
      ListedInRange(before, "chunks/", BELOW_INT64, upTo, files[j]);
      ListedChunk(before, BELOW_INT64, upTo, files[j]);
    }
    forall k: nat | HasChunk(store.objects, k) && k <= upTo ensures ChunkKey(k) in failing {
      ChunkIsListed(before, BELOW_INT64, upTo, k);
      assert FileInfo(ChunkKey(k), k) in files;
    }
  }

  lemma ListedInRange(objects: map<string, File>, prefix: string, lo: int, hi: int, f: FileInfo)
    requires Listed(objects, prefix, lo, hi, f)
    ensures lo < f.revision <= hi && f.key in objects
  {
  }

  // ---- Rebuilding ----

  /** The newest snapshot. */
  method GetLatestSnapshot(objects: map<string, File>) returns (latest: Option<FileInfo>)
    ensures latest.None? <==> forall f :: !Listed(objects, "snapshots/", BELOW_INT64, MAX_INT64, f)
    ensures latest.Some? ==> Listed(objects, "snapshots/", BELOW_INT64, MAX_INT64, latest.value)
    ensures latest.Some? ==> forall f | Listed(objects, "snapshots/", BELOW_INT64, MAX_INT64, f) :: f.revision <= latest.value.revision
  {
    hide Listed;
    var files := ListFiles(objects, "snapshots/", BELOW_INT64, MAX_INT64);
    if files == [] {
      return None;
    }
    var newest := files[|files| - 1];
    assert newest in files;
    forall f | Listed(objects, "snapshots/", BELOW_INT64, MAX_INT64, f) ensures f.revision <= newest.revision {
      assert f in files;
      var i :| 0 <= i < |files| && files[i] == f;
    }
    return Some(newest);
  }

  ghost predicate Newest(objects: map<string, File>, from: nat) {
    && (forall k: nat | HasSnapshot(objects, k) :: k <= from)
    && (from > 0 ==> HasSnapshot(objects, from))
  }

  /** The chunks above a revision. */
  ghost function ChunksAbove(objects: map<string, File>, from: nat): set<string> {
    set key | key in objects && exists k: nat :: k > from && k <= MAX_INT64 && key == ChunkKey(k)
  }

  /** The newest snapshot and the chunks above it. */
  ghost function RebuildKeys(objects: map<string, File>, from: nat): set<string>
    requires from <= MAX_INT64
  {
    ChunksAbove(objects, from) + if from > 0 then {SnapshotKey(from)} else {}
  }

  /** The newest snapshot, then all later chunks in order. It succeeds if and only
      if they can be downloaded and no two of them hold different copies of a
      record, and then gives back the log, some rows erased. */
  method Rebuild(store: ObjectStore, failing: set<string>, ghost log: Table, ghost n: nat) returns (db: Database, ok: bool, ghost from: nat)
    requires LogInv(log, n) && Faithful(store.objects, log, n)
    requires forall r: nat | 1 <= r <= n :: Covered(store.objects, r)
    ensures fresh(db) && SubLog(db.rows, log) && Newest(store.objects, from) && from <= MAX_INT64
    ensures ok <==> RebuildKeys(store.objects, from) !! failing && Consistent(map[], store.objects, RebuildKeys(store.objects, from))
    ensures ok ==> Evolved(log, db.rows)
    // Row for row what the files hold, and nothing else.
    ensures ok ==> Merged(map[], db.rows, store.objects, RebuildKeys(store.objects, from))
  {
    hide Faithful, Covered, LogInv, ChunkKey, SnapshotKey, Listed, Replay, Join, Merged, Consistent, SubLog, FromLog, Increasing, Agrees;
    db := new Database();
    var latest := GetLatestSnapshot(store.objects);
    var objects := store.objects;
    LatestIsNewest(objects, log, n, latest);
    var start: nat := if latest.Some? then latest.value.revision else 0;
    from := start;
    ghost var done := {};
    EmptyPart(log);
    NothingMerged(map[], objects);
    if latest.Some? {
      SnapshotRows(objects, log, n, latest.value);
      if latest.value.key in failing {
        return db, false, from;
      }
      ok := ImportOnto(db, objects, latest.value.key, {}, map[], RebuildKeys(objects, from), log, n);
      if !ok {
        return db, false, from;
      }
      done := {} + {latest.value.key};
    }
    ok := BackfillChunks(db, store.objects, start, failing, done, map[], RebuildKeys(objects, from), log, n);
    if ok {
      MergedIsConsistent(map[], db.rows, objects, RebuildKeys(objects, from));
      CoveredRows(objects, log, n, from, db.rows);
    }
  }

  lemma EmptyPart(log: Table)
    ensures SubLog(map[], log)
  {
  }

  /** backfillChunksFromRevision: every later chunk, in order, until a download
      fails or a copy differs. */
  method BackfillChunks(db: Database, objects: map<string, File>, from: nat, failing: set<string>,
                        ghost done: set<string>, ghost base: Table, ghost keys: set<string>, ghost log: Table, ghost n: nat)
    returns (ok: bool)
    requires LogInv(log, n) && Faithful(objects, log, n) && SubLog(db.rows, log) && Merged(base, db.rows, objects, done)
    requires from <= MAX_INT64 && keys == ChunksAbove(objects, from) + done && done !! failing
    modifies db`rows
    ensures SubLog(db.rows, log)
    ensures ok <==> keys !! failing && Consistent(base, objects, keys)
    ensures ok ==> Merged(base, db.rows, objects, keys)
  {
    hide Faithful, LogInv, ChunkKey, Listed, Replay, Merged, Consistent, SubLog, FromLog, Increasing, ChunksAbove;
    var files := ListFiles(objects, "chunks/", from, MAX_INT64);
    ghost var sofar := done;
    for i := 0 to |files|
      invariant SubLog(db.rows, log) && Merged(base, db.rows, objects, sofar) && sofar == done + NamesOf(files[..i])
      invariant sofar <= keys && sofar !! failing
    {
      assert files[i] in files;
      ChunkRows(objects, log, n, from, files[i]);
      if files[i].key in failing {
        return false;
      }
      var imported := ImportOnto(db, objects, files[i].key, sofar, base, keys, log, n);
      if !imported {
        return false;
      }
      NamesSnoc(files, i);
      sofar := sofar + {files[i].key};
    }
    assert files[..|files|] == files;
    FaithfulNames(objects, log, n);
    ListedAreAbove(objects, from, files);
    assert sofar == keys;
    MergedIsConsistent(base, db.rows, objects, keys);
    ok := true;
  }

  ghost function NamesOf(fs: seq<FileInfo>): set<string> {
    set f | f in fs :: f.key
  }

  lemma NamesSnoc(fs: seq<FileInfo>, i: nat)
    requires i < |fs|
    ensures NamesOf(fs[..i + 1]) == NamesOf(fs[..i]) + {fs[i].key}
  {
    assert fs[..i + 1] == fs[..i] + [fs[i]];
  }

  /** The listed files are the chunks above the revision. */
  lemma ListedAreAbove(objects: map<string, File>, from: nat, files: seq<FileInfo>)
    requires WellNamed(objects) && forall f :: f in files <==> Listed(objects, "chunks/", from, MAX_INT64, f)
    ensures NamesOf(files) == ChunksAbove(objects, from)
  {
    hide ChunkKey, Listed, WellNamed;
    forall key | key in ChunksAbove(objects, from) ensures key in NamesOf(files) {
      var k: nat :| k > from && k <= MAX_INT64 && key == ChunkKey(k);
      ChunkIsListed(objects, from, MAX_INT64, k);
      assert FileInfo(ChunkKey(k), k) in files;
    }
    forall f | f in files ensures f.key in ChunksAbove(objects, from) {
      ListedInRange(objects, "chunks/", from, MAX_INT64, f);
      ListedChunk(objects, from, MAX_INT64, f);
    }
  }

  lemma ChunkRows(objects: map<string, File>, log: Table, n: nat, from: nat, f: FileInfo)
    requires Faithful(objects, log, n) && Listed(objects, "chunks/", from, MAX_INT64, f)
    ensures f.key in objects && FromLog(objects[f.key].records, log) && Increasing(objects[f.key].records) && NonNegative(objects[f.key].records)
    ensures f.key in ChunksAbove(objects, from)
  {
    hide ChunkKey, SnapshotFile, ParseRevisionFromKey, RowEvolves;
    ListedChunk(objects, from, MAX_INT64, f);
    assert HasChunk(objects, f.revision);
  }

  lemma SnapshotRows(objects: map<string, File>, log: Table, n: nat, f: FileInfo)
    requires Faithful(objects, log, n) && Listed(objects, "snapshots/", BELOW_INT64, MAX_INT64, f)
    ensures 0 < f.revision <= n && f.revision <= MAX_INT64 && f.key == SnapshotKey(f.revision) && HasSnapshot(objects, f.revision)
    ensures f.key in objects && FromLog(objects[f.key].records, log) && Increasing(objects[f.key].records) && NonNegative(objects[f.key].records)
  {
    hide ChunkKey, SnapshotKey, ChunkOf, ParseRevisionFromKey, RowEvolves;
    ListedSnapshot(objects, BELOW_INT64, MAX_INT64, f);
    assert HasSnapshot(objects, f.revision);
  }

  lemma LatestIsGreatest(objects: map<string, File>, latest: Option<FileInfo>)
    requires latest.None? <==> forall f :: !Listed(objects, "snapshots/", BELOW_INT64, MAX_INT64, f)
    requires latest.Some? ==> forall f | Listed(objects, "snapshots/", BELOW_INT64, MAX_INT64, f) :: f.revision <= latest.value.revision
    ensures forall k: nat | HasSnapshot(objects, k) :: latest.Some? && k <= latest.value.revision
  {
    hide Listed, SnapshotKey;
    forall k: nat | HasSnapshot(objects, k) ensures latest.Some? && k <= latest.value.revision {
      SnapshotIsListed(objects, BELOW_INT64, MAX_INT64, k);
    }
  }

  lemma LatestIsNewest(objects: map<string, File>, log: Table, n: nat, latest: Option<FileInfo>)
    requires Faithful(objects, log, n) && (latest.None? <==> forall f :: !Listed(objects, "snapshots/", BELOW_INT64, MAX_INT64, f))
    requires latest.Some? ==> Listed(objects, "snapshots/", BELOW_INT64, MAX_INT64, latest.value)
    requires latest.Some? ==> forall f | Listed(objects, "snapshots/", BELOW_INT64, MAX_INT64, f) :: f.revision <= latest.value.revision
    ensures latest.Some? ==> 0 < latest.value.revision <= MAX_INT64
    ensures Newest(objects, if latest.Some? then latest.value.revision as nat else 0)
  {
    hide Faithful, Listed, SnapshotKey, HasSnapshot;
    LatestIsGreatest(objects, latest);
    if latest.Some? {
      SnapshotRows(objects, log, n, latest.value);
    }
  }

  /** The newest snapshot and every later chunk are everything. */
  lemma CoveredRows(objects: map<string, File>, log: Table, n: nat, from: nat, rows: Table)
    requires LogInv(log, n) && Faithful(objects, log, n) && SubLog(rows, log) && Newest(objects, from) && from <= MAX_INT64
    requires (forall r: nat | 1 <= r <= n :: Covered(objects, r)) && Merged(map[], rows, objects, RebuildKeys(objects, from))
    ensures Evolved(log, rows)
  {
    hide ChunkKey, SnapshotKey, Linked, RowEvolves, ChunkOf, SnapshotFile, Sourced, RebuildKeys;
    forall r: nat | r in log ensures r in rows {
      assert Covered(objects, r);
      if k: nat :| HasSnapshot(objects, k) && r <= k {
        InSnapshot(objects, log, n, from, rows, r);
      } else {
        var k: nat :| HasChunk(objects, k) && Holds(objects[ChunkKey(k)].records, r);
        InChunk(objects, log, n, from, rows, r, k);
      }
    }
  }

  lemma InSnapshot(objects: map<string, File>, log: Table, n: nat, from: nat, rows: Table, r: nat)
    requires Faithful(objects, log, n) && HasSnapshot(objects, from) && Merged(map[], rows, objects, RebuildKeys(objects, from)) && 1 <= r <= from
    ensures r in rows
  {
    hide ChunkKey, SnapshotKey, ChunkOf, Sourced, RowEvolves;
    var rs := objects[SnapshotKey(from)].records;
    assert SnapshotFile(rs, log, from) && HasAll(rows, rs);
    assert r in Revisions(rs);
    var i :| 0 <= i < |rs| && rs[i].revision as nat == r;
    assert HasRow(rows, rs[i]);
  }

  lemma InChunk(objects: map<string, File>, log: Table, n: nat, from: nat, rows: Table, r: nat, k: nat)
    requires Faithful(objects, log, n) && Newest(objects, from) && from <= MAX_INT64 && Merged(map[], rows, objects, RebuildKeys(objects, from))
    requires r >= 1 && HasChunk(objects, k) && Holds(objects[ChunkKey(k)].records, r)
    ensures r in rows
  {
    hide ChunkKey, SnapshotKey, Sourced, RowEvolves, SnapshotFile;
    var rs := objects[ChunkKey(k)].records;
    var i :| 0 <= i < |rs| && rs[i].revision == r;
    if k > from {
      assert ChunkKey(k) in ChunksAbove(objects, from);
      assert HasAll(rows, rs);
      assert HasRow(rows, rs[i]);
    } else {
      assert ChunkOf(rs, log, k);
      assert r <= k;
      InSnapshot(objects, log, n, from, rows, r);
    }
  }

  /** A snapshot is taken after row 1 was erased, while rows 1 to 3 are still
      buffered; their flush holds row 1 as it was written. Every file is a
      faithful copy of the log, and no database can be built from them. */
  method RebuildRefused(log: Table, at: int, stamp: int) returns (store: ObjectStore, db: Database, ok: bool)
    requires LogInv(log, 3) && log[1].key == log[2].key && log[1].compactedAt.None?
    ensures fresh(store) && Faithful(store.objects, log, 3) && !ok
  {
    hide Faithful, Covered, LogInv, ChunkKey, SnapshotKey, RowsBetween, Consistent, RebuildKeys, Compact, Evolved, ChunkOf, Newest;
    store := new ObjectStore();
    EmptyIsFaithful(log);
    CompactEvolves(log, 1, at);
    CreateSnapshot(store, Compact(log, 1, at), log, 3, 2, stamp, Answered, {});
    ThreeRows(log, at);
    KeysInjective(3, 2);
    ghost var before := store.objects;
    OneSnapshot(before);
    var chunk := File(stamp, RowsBetween(log, 0, 3));
    ChunkAdds(before, before[ChunkKey(3) := chunk], log, 3, 3, chunk);
    var stored := store.PutIfAbsent(ChunkKey(3), chunk, Answered, false);
    ChunkCovers(store.objects, log);
    ghost var from;
    db, ok, from := Rebuild(store, {}, log, 3);
    OnlyNewest(store.objects, from);
    CopiesDiffer(store.objects, log, at);
  }

  lemma EmptyIsFaithful(log: Table)
    ensures Faithful(map[], log, 3)
  {
  }

  lemma OneSnapshot(objects: map<string, File>)
    requires forall key | key in objects :: key == SnapshotKey(2)
    ensures forall k: nat | HasSnapshot(objects, k) :: k == 2
  {
    hide SnapshotKey, ChunkKey;
    forall k: nat | HasSnapshot(objects, k) ensures k == 2 {
      KeysInjective(k, 2);
    }
  }

  lemma ThreeRows(log: Table, at: int)
    requires LogInv(log, 3) && log[1].key == log[2].key && log[1].compactedAt.None?
    ensures var rs := RowsBetween(log, 0, 3); ChunkOf(rs, log, 3) && |rs| == 3 && forall i: nat | i < 3 :: rs[i] == log[i + 1] && rs[i].revision == i + 1
    ensures var qs := RowsBetween(Compact(log, 1, at), 0, 2); |qs| == 2 && qs[0].revision == 1 && qs[0] != log[1]
  {
    hide LogInv, Increasing, RowEvolves, Compact, SubLog, FromLog, RowsBetween, Revisions;
    WholeLog(log, 3);
    RowsFromLog(log, log, 0, 3);
    FirstThree(log);
    FirstErased(log, at);
    FirstThree(Compact(log, 1, at));
  }

  lemma WholeLog(log: Table, n: nat)
    requires LogInv(log, n)
    ensures SubLog(log, log) && Keyed(log) && GapFree(log, n) && forall r: nat | 1 <= r <= n :: log[r].revision == r
  {
    hide Linked;
  }

  lemma FirstThree(t: Table)
    requires 1 in t && 2 in t
    ensures RowsBetween(t, 0, 2) == [t[1], t[2]]
    ensures 3 in t ==> RowsBetween(t, 0, 3) == [t[1], t[2], t[3]]
  {
    assert RowsBetween(t, 0, 0) == [];
    assert RowsBetween(t, 0, 1) == [t[1]];
  }

  lemma FirstErased(log: Table, at: int)
    requires GapFree(log, 3) && log[1].key == log[2].key && log[1].compactedAt.None?
    ensures var u := Compact(log, 1, at); 1 in u && 2 in u && u[1] == Erase(log[1], at) && u[1] != log[1]
  {
    assert Superseded(log, 1);
  }

  lemma ChunkCovers(objects: map<string, File>, log: Table)
    requires HasChunk(objects, 3)
    requires var rs := objects[ChunkKey(3)].records; |rs| == 3 && forall i: nat | i < 3 :: rs[i].revision == i + 1
    ensures forall r: nat | 1 <= r <= 3 :: Covered(objects, r)
  {
    hide ChunkKey, SnapshotKey;
    var rs := objects[ChunkKey(3)].records;
    forall r: nat | 1 <= r <= 3 ensures Covered(objects, r) {
      assert rs[r - 1].revision == r;
      assert Holds(rs, r);
    }
  }

  lemma OnlyNewest(objects: map<string, File>, from: nat)
    requires Newest(objects, from) && HasSnapshot(objects, 2) && forall k: nat | HasSnapshot(objects, k) :: k == 2
    ensures from == 2
  {
  }

  lemma CopiesDiffer(objects: map<string, File>, log: Table, at: int)
    requires HasSnapshot(objects, 2) && HasChunk(objects, 3)
    requires var rs, qs := objects[ChunkKey(3)].records, objects[SnapshotKey(2)].records;
             |rs| == 3 && |qs| == 2 && rs[0].revision == qs[0].revision && rs[0] != qs[0]
    ensures !Consistent(map[], objects, RebuildKeys(objects, 2))
  {
    hide ChunkKey, SnapshotKey;
    var keys := RebuildKeys(objects, 2);
    assert ChunkKey(3) in ChunksAbove(objects, 2) && SnapshotKey(2) in keys;
    assert !SameCopies(objects[ChunkKey(3)].records, objects[SnapshotKey(2)].records);
  }
}
