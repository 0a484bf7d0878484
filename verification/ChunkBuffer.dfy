/** Object storage with create-only writes, and the buffer that turns committed
    records into chunk files. */
module ChunkBuffer {
  import opened Records
  import opened ObjectKeys

  /** A file: its records, and the header's creation stamp, which makes two
      serialisations of the same records differ. */
  datatype File = File(stamp: int, records: seq<Record>)

  class ObjectStore {
    var objects: map<string, File>

    constructor ()
      ensures objects == map[]
    {
      objects := map[];
    }

    /** A conditional create. `taken` reports a failed precondition. */
    method PutIfMatch(key: string, file: File, attempt: Attempt) returns (ok: bool, taken: bool)
      modifies this
      ensures objects == if key in old(objects) || attempt.Lost? then old(objects) else old(objects)[key := file]
      ensures ok <==> key !in old(objects) && attempt.Answered?
      ensures taken <==> key in old(objects) && attempt.Answered?
    {
      taken := key in objects && attempt.Answered?;
      ok := key !in objects && attempt.Answered?;
      if key !in objects && !attempt.Lost? {
        objects := objects[key := file];
      }
    }

    /** Succeeds exactly when the object was created, or was already there with
        the same contents and could be read back. */
    method PutIfAbsent(key: string, file: File, attempt: Attempt, readBack: bool) returns (ok: bool)
      modifies this
      ensures objects == if key in old(objects) || attempt.Lost? then old(objects) else old(objects)[key := file]
      ensures ok <==> attempt.Answered? && (key !in old(objects) || (readBack && old(objects)[key] == file))
      ensures ok ==> key in objects && objects[key] == file
    {
      var created, taken := PutIfMatch(key, file, attempt);
      if created {
        return true;
      }
      if !taken || !readBack {
        return false;
      }
      return objects[key] == file;
    }
  }

  // ---- The buffer ----

  datatype Entry = Entry(record: Record, size: nat)

  function TotalSize(es: seq<Entry>): nat {
    if es == [] then 0 else TotalSize(es[..|es| - 1]) + es[|es| - 1].size
  }

  function RecordsOf(es: seq<Entry>): seq<Record> {
    seq(|es|, i requires 0 <= i < |es| => es[i].record)
  }

  function Contents(fs: seq<File>): seq<Record> {
    if fs == [] then [] else Contents(fs[..|fs| - 1]) + fs[|fs| - 1].records
  }

  predicate Increasing(rs: seq<Record>) {
    && (forall i | 0 <= i < |rs| :: 0 <= rs[i].revision <= MAX_INT64)
    && forall i, j | 0 <= i < j < |rs| :: rs[i].revision < rs[j].revision
  }

  function LastRevision(es: seq<Entry>): int
    requires es != []
  {
    es[|es| - 1].record.revision
  }

  function BatchKey(rs: seq<Record>): string
    requires rs != [] && rs[|rs| - 1].revision >= 0
  {
    ChunkKey(rs[|rs| - 1].revision)
  }

  lemma {:induction false} TotalSizeConcat(a: seq<Entry>, b: seq<Entry>)
    ensures TotalSize(a + b) == TotalSize(a) + TotalSize(b)
  {
    if b == [] {
      assert a + b == a;
    } else {
      TotalSizeConcat(a, b[..|b| - 1]);
      assert (a + b)[..|a + b| - 1] == a + b[..|b| - 1];
    }
  }

  lemma LastBuffered(flushed: seq<File>, entries: seq<Entry>, everything: seq<Record>)
    requires entries != [] && Contents(flushed) + RecordsOf(entries) == everything && Increasing(everything)
    ensures entries[|entries| - 1].record.revision >= 0
  {
    assert everything[|everything| - 1] == entries[|entries| - 1].record;
  }

  lemma AppendOne(flushed: seq<File>, entries: seq<Entry>, e: Entry)
    ensures TotalSize(entries + [e]) == TotalSize(entries) + e.size
    ensures RecordsOf(entries + [e]) == RecordsOf(entries) + [e.record]
    ensures Contents(flushed) + RecordsOf(entries + [e]) == Contents(flushed) + RecordsOf(entries) + [e.record]
  {
  }

  lemma AppendKeepsFree(rs: seq<Record>, objects: map<string, File>, unsettled: set<string>, r: Record)
    requires KeysFree(rs, objects, unsettled) && (r.revision >= 0 && ChunkKey(r.revision) in objects ==> ChunkKey(r.revision) in unsettled)
    ensures KeysFree(rs + [r], objects, unsettled)
  {
  }

  lemma MoreUnsettled(rs: seq<Record>, objects: map<string, File>, a: set<string>, b: set<string>)
    requires KeysFree(rs, objects, a) && a <= b
    ensures KeysFree(rs, objects, b)
  {
  }

  lemma NothingBuffered(flushed: seq<File>)
    ensures Contents(flushed) + RecordsOf([]) == Contents(flushed)
  {
  }

  lemma BatchInside(entries: seq<Entry>, batch: seq<Entry>)
    requires batch != [] && batch <= entries
    ensures RecordsOf(batch)[|batch| - 1] == RecordsOf(entries)[|batch| - 1] == batch[|batch| - 1].record
  {
  }

  lemma KeyOfBatch(es: seq<Entry>)
    requires es != [] && LastRevision(es) >= 0
    ensures var rs := RecordsOf(es); |rs| == |es| && rs[|rs| - 1].revision == LastRevision(es) && BatchKey(rs) == ChunkKey(LastRevision(es))
  {
  }

  lemma RecordsConcat(a: seq<Entry>, b: seq<Entry>)
    ensures RecordsOf(a + b) == RecordsOf(a) + RecordsOf(b)
  {
  }

  predicate KeysFree(rs: seq<Record>, objects: map<string, File>, unsettled: set<string>) {
    forall i | 0 <= i < |rs| && rs[i].revision >= 0 && ChunkKey(rs[i].revision) in objects :: ChunkKey(rs[i].revision) in unsettled
  }

  /** One Primary's buffer. `flushed`, `everything` and `unsettled` are history:
      the files acknowledged by storage, the records ever buffered, and the
      keys of buffered records under which storage already holds a file. */
  class Buffer {
    const store: ObjectStore
    const thresholdBytes: int
    var entries: seq<Entry>
    var bytes: int
    var flushing: bool
    /** What the flush under way took when it started. */
    var batch: seq<Entry>
    var batchBytes: int
    var draining: bool
    var flushed: seq<File>
    var everything: seq<Record>
    var unsettled: set<string>

    /** Acknowledged files in order, then the buffer, are everything ever
        buffered; and no buffered record's key is taken but an unsettled one. */
    ghost predicate Valid()
      reads this, store
    {
      && Contents(flushed) + RecordsOf(entries) == everything && Increasing(everything)
      && KeysFree(RecordsOf(entries), store.objects, unsettled)
      && bytes == TotalSize(entries)
      && (flushing ==> batch != [] && batch <= entries && batchBytes == TotalSize(batch) && batch[|batch| - 1].record.revision >= 0)
    }

    constructor (store: ObjectStore, thresholdBytes: int)
      ensures Valid() && this.store == store && entries == [] && everything == [] && !flushing && !draining && unsettled == {}
    {
      this.store, this.thresholdBytes := store, thresholdBytes;
      entries, bytes, flushing, batch, batchBytes, draining := [], 0, false, [], 0, false;
      flushed, everything, unsettled := [], [], {};
      new;
      assert RecordsOf([]) == [];
    }

    /** A committed record joins the buffer; revisions only grow. A failed
        synchronous write may have taken its key. */
    method Append(record: Record, size: nat) returns (full: bool)
      requires Valid() && Increasing(everything + [record]) && record.revision >= 0
      modifies this`entries, this`bytes, this`everything, this`unsettled
      ensures unsettled == old(unsettled) + if ChunkKey(record.revision) in store.objects then {ChunkKey(record.revision)} else {}
      ensures Valid() && entries == old(entries) + [Entry(record, size)] && everything == old(everything) + [record]
      ensures full <==> thresholdBytes > 0 && TotalSize(entries) >= thresholdBytes
    {
      hide Increasing, ChunkKey, Contents, KeysFree, TotalSize, RecordsOf;
      var e := Entry(record, size);
      AppendOne(flushed, entries, e);
      if ChunkKey(record.revision) in store.objects {
        MoreUnsettled(RecordsOf(entries), store.objects, unsettled, unsettled + {ChunkKey(record.revision)});
        unsettled := unsettled + {ChunkKey(record.revision)};
      }
      AppendKeepsFree(RecordsOf(entries), store.objects, unsettled, record);
      entries := entries + [e];
      bytes := bytes + size;
      everything := everything + [record];
      full := thresholdBytes > 0 && bytes >= thresholdBytes;
    }

    /** At most one flush is under way. */
    method StartFlush() returns (started: bool)
      requires Valid()
      modifies this`flushing, this`batch, this`batchBytes
      ensures Valid() && (started <==> old(entries) != [] && !old(flushing))
      ensures started ==> flushing && batch == entries
      ensures !started ==> flushing == old(flushing) && batch == old(batch) && batchBytes == old(batchBytes)
    {
      if entries == [] || flushing {
        return false;
      }
      LastBuffered(flushed, entries, everything);
      flushing, batch, batchBytes := true, entries, bytes;
      return true;
    }

    /** The flush's upload. With nothing unsettled its key is new, so only the
        storage request itself can fail. */
    method Upload(stamp: int, attempt: Attempt, readBack: bool) returns (ok: bool)
      requires Valid() && flushing
      modifies store, this`unsettled
      ensures Valid()
      ensures var key, file := BatchKey(RecordsOf(batch)), File(stamp, RecordsOf(batch));
              && (old(unsettled) == {} ==> key !in old(store.objects))
              && (ok <==> attempt.Answered? && (key !in old(store.objects) || (readBack && old(store.objects)[key] == file)))
              && store.objects == (if key in old(store.objects) || attempt.Lost? then old(store.objects) else old(store.objects)[key := file])
              && (ok ==> key in store.objects && store.objects[key] == file)
              && unsettled == (if key in store.objects then old(unsettled) + {key} else old(unsettled))
    {
      hide Increasing, ChunkKey, TotalSize, Contents;
      BatchInside(entries, batch);
      var records := RecordsOf(batch);
      var key := BatchKey(records);
      ok := store.PutIfAbsent(key, File(stamp, records), attempt, readBack);
      if key in store.objects {
        unsettled := unsettled + {key};
      }
    }

    /** The flush ends. What it took leaves the buffer only if storage
        acknowledged it, and the byte count never needs its clamp. */
    method FinishFlush(stamp: int, ok: bool)
      requires Valid() && flushing
      requires ok ==> var key := BatchKey(RecordsOf(batch)); key in store.objects && store.objects[key] == File(stamp, RecordsOf(batch))
      modifies this`flushing, this`entries, this`bytes, this`flushed, this`unsettled
      ensures Valid() && !flushing && 0 <= bytes
      ensures ok ==>
                && entries == old(entries)[|batch|..] && bytes == old(bytes) - batchBytes
                && flushed == old(flushed) + [File(stamp, RecordsOf(batch))]
                && unsettled == old(unsettled) - {BatchKey(RecordsOf(batch))}
      ensures !ok ==> entries == old(entries) && bytes == old(bytes) && flushed == old(flushed) && unsettled == old(unsettled)
    {
      hide KeysFree, Increasing, ChunkKey, Contents, TotalSize;
      flushing := false;
      if ok {
        TakeBatch(stamp);
        entries := entries[|batch|..];
        bytes := if bytes < batchBytes then 0 else bytes - batchBytes;
        flushed := flushed + [File(stamp, RecordsOf(batch))];
        unsettled := unsettled - {BatchKey(RecordsOf(batch))};
      }
    }

    /** A flush with nothing in between. It empties the buffer or changes
        neither the buffer nor what has been acknowledged. */
    method Flush(stamp: int, attempt: Attempt, readBack: bool) returns (ok: bool)
      requires Valid()
      modifies this, store
      ensures Valid() && everything == old(everything) && draining == old(draining)
      ensures old(flushing) || old(entries) == [] ==> ok && entries == old(entries) && flushed == old(flushed) && store.objects == old(store.objects)
      ensures !old(flushing) && old(entries) != [] ==>
                && !flushing && LastRevision(old(entries)) >= 0
                && var key, file := ChunkKey(LastRevision(old(entries))), File(stamp, RecordsOf(old(entries)));
                   && (ok <==> attempt.Answered? && (key !in old(store.objects) || (readBack && old(store.objects)[key] == file)))
                   && store.objects == (if key in old(store.objects) || attempt.Lost? then old(store.objects) else old(store.objects)[key := file])
                   && (old(unsettled) == {} ==> key !in old(store.objects))
                   && (ok ==> entries == [] && Contents(flushed) == everything)
      ensures !ok ==> entries == old(entries) && flushed == old(flushed)
    {
      hide KeysFree, Increasing, ChunkKey, BatchKey, Contents, RecordsOf, TotalSize;
      var started := StartFlush();
      if !started {
        return true;
      }
      KeyOfBatch(batch);
      ok := Upload(stamp, attempt, readBack);
      FinishFlush(stamp, ok);
      if ok {
        assert entries == [];
        NothingBuffered(flushed);
      }
    }

    /** The record is kept whatever the flush does; a buffer that stays full
        after a failed flush drains the Primary. */
    method BufferRecord(record: Record, size: nat, stamp: int, attempt: Attempt, readBack: bool) returns (ok: bool)
      requires Valid() && Increasing(everything + [record]) && record.revision >= 0
      modifies this, store
      ensures Valid() && everything == old(everything) + [record]
      ensures entries == old(entries) + [Entry(record, size)] || (ok && entries == [] && Contents(flushed) == everything)
      ensures !ok ==> thresholdBytes > 0 && TotalSize(entries) >= thresholdBytes && draining && flushed == old(flushed)
      ensures ok ==> draining == old(draining)
    {
      hide KeysFree, Increasing, ChunkKey, BatchKey, Contents, RecordsOf, TotalSize;
      var full := Append(record, size);
      if !full {
        return true;
      }
      ok := Flush(stamp, attempt, readBack);
      if !ok {
        var stillFull := thresholdBytes > 0 && bytes >= thresholdBytes;
        draining := if stillFull then true else draining;
      }
    }

    /** A synchronous write of a later revision takes no buffered key; it is
        refused if its own is taken. */
    method SyncChunk(revision: nat, file: File, attempt: Attempt) returns (ok: bool)
      requires Valid() && revision <= MAX_INT64 && (forall i | 0 <= i < |everything| :: everything[i].revision < revision)
      modifies store
      ensures Valid() && (ok <==> ChunkKey(revision) !in old(store.objects) && attempt.Answered?)
      ensures store.objects == if ChunkKey(revision) in old(store.objects) || attempt.Lost? then old(store.objects) else old(store.objects)[ChunkKey(revision) := file]
    {
      LaterKeyIsFree(flushed, entries, everything, revision);
      var taken;
      ok, taken := store.PutIfMatch(ChunkKey(revision), file, attempt);
    }

    lemma TakeBatch(stamp: int)
      requires Contents(flushed) + RecordsOf(entries) == everything && Increasing(everything) && KeysFree(RecordsOf(entries), store.objects, unsettled)
      requires bytes == TotalSize(entries) && batch != [] && batch <= entries && batchBytes == TotalSize(batch)
      requires batch[|batch| - 1].record.revision >= 0
      ensures var rest := entries[|batch|..]; var key := BatchKey(RecordsOf(batch));
              && TotalSize(rest) == bytes - batchBytes
              && Contents(flushed + [File(stamp, RecordsOf(batch))]) + RecordsOf(rest) == everything
              && KeysFree(RecordsOf(rest), store.objects, unsettled - {key})
    {
      var rest, file := entries[|batch|..], File(stamp, RecordsOf(batch));
      assert entries == batch + rest;
      TotalSizeConcat(batch, rest);
      RecordsConcat(batch, rest);
      assert (flushed + [file])[..|flushed|] == flushed;
      assert Contents(flushed) + RecordsOf(batch) + RecordsOf(rest) == everything;
      SuffixIncreasing(Contents(flushed), RecordsOf(entries));
      KeysStayFree(RecordsOf(entries), |batch|, store.objects, unsettled);
    }
  }

  lemma LaterKeyIsFree(flushed: seq<File>, entries: seq<Entry>, everything: seq<Record>, revision: nat)
    requires Contents(flushed) + RecordsOf(entries) == everything && Increasing(everything) && revision <= MAX_INT64
    requires forall i | 0 <= i < |everything| :: everything[i].revision < revision
    ensures forall i | 0 <= i < |entries| :: entries[i].record.revision >= 0 && ChunkKey(entries[i].record.revision) != ChunkKey(revision)
  {
    hide ChunkKey;
    forall i | 0 <= i < |entries|
      ensures entries[i].record.revision >= 0 && ChunkKey(entries[i].record.revision) != ChunkKey(revision)
    {
      assert everything[|Contents(flushed)| + i] == entries[i].record;
      KeysInjective(entries[i].record.revision, revision);
    }
  }

  lemma SuffixIncreasing(a: seq<Record>, b: seq<Record>)
    requires Increasing(a + b)
    ensures Increasing(b)
  {
    forall i | 0 <= i < |b| ensures b[i] == (a + b)[|a| + i] {
    }
  }

  /** A settled key is none of the later records' keys. */
  lemma KeysStayFree(rs: seq<Record>, k: nat, objects: map<string, File>, unsettled: set<string>)
    requires 0 < k <= |rs| && Increasing(rs) && KeysFree(rs, objects, unsettled)
    ensures KeysFree(rs[k..], objects, unsettled - {ChunkKey(rs[k - 1].revision)})
  {
    hide ChunkKey;
    forall i | 0 <= i < |rs[k..]| ensures ChunkKey(rs[k..][i].revision) != ChunkKey(rs[k - 1].revision) {
      assert rs[k..][i] == rs[k + i];
      KeysInjective(rs[k + i].revision, rs[k - 1].revision);
    }
  }

  lemma TwoIncrease(r: Record, s: Record)
    requires 0 <= r.revision <= s.revision <= MAX_INT64
    ensures Increasing([] + [r]) && (r.revision < s.revision ==> Increasing([] + [r] + [s]))
  {
    hide *;
    assert [] + [r] == [r];
    assert [r] + [s] == [r, s];
    PairIncreases(r, s);
  }

  lemma PairIncreases(r: Record, s: Record)
    requires 0 <= r.revision <= s.revision <= MAX_INT64
    ensures Increasing([r]) && (r.revision < s.revision ==> Increasing([r, s]))
  {
  }

  lemma FewEntries(es: seq<Entry>)
    ensures |es| == 1 ==> RecordsOf(es) == [es[0].record]
    ensures |es| == 2 ==> RecordsOf(es) == [es[0].record, es[1].record]
  {
  }

  /** An upload that was stored without an answer is tried again. The records are
      the same, the header's stamp is not: refused, and the record stays. */
  method RetryRefused(record: Record, size: nat, stamp: int, stamp': int) returns (b: Buffer, first: bool, second: bool)
    requires 0 <= record.revision <= MAX_INT64 && stamp != stamp'
    ensures fresh(b) && fresh(b.store) && b.Valid() && !first && !second
    ensures b.entries == [Entry(record, size)] && b.store.objects == map[ChunkKey(record.revision) := File(stamp, [record])]
  {
    hide ChunkKey, Contents, TotalSize, RecordsOf, KeysFree, Increasing, Buffer.Valid;
    var store := new ObjectStore();
    b := new Buffer(store, 0);
    TwoIncrease(record, record);
    var full := b.Append(record, size);
    assert b.entries == [Entry(record, size)];
    FewEntries(b.entries);
    first := b.Flush(stamp, Unanswered, true);
    second := b.Flush(stamp', Answered, true);
  }

  /** A record whose key a failed synchronous write has taken with another file is
      buffered, and its flush is refused until a later record joins it. */
  method TakenKeyWaits(store: ObjectStore, record: Record, later: Record, leftover: File, stamp: int) returns (b: Buffer, first: bool, second: bool)
    requires 0 <= record.revision < later.revision <= MAX_INT64 && store.objects == map[ChunkKey(record.revision) := leftover]
    requires leftover != File(stamp, [record])
    modifies store
    ensures fresh(b) && b.Valid() && !first && second && b.entries == []
    ensures store.objects == map[ChunkKey(record.revision) := leftover, ChunkKey(later.revision) := File(stamp, [record, later])]
  {
    hide ChunkKey, Contents, TotalSize, RecordsOf, KeysFree, Increasing, Buffer.Valid;
    b := new Buffer(store, 0);
    TwoIncrease(record, later);
    KeysInjective(record.revision, later.revision);
    var full := b.Append(record, 0);
    assert b.entries == [Entry(record, 0)];
    FewEntries(b.entries);
    first := b.Flush(stamp, Answered, true);
    full := b.Append(later, 0);
    assert b.entries == [Entry(record, 0), Entry(later, 0)];
    FewEntries(b.entries);
    second := b.Flush(stamp, Answered, true);
  }
}
