/** The multi-version log: the INSERT statement behind every write, the links
    it keeps between the rows of one key, and its refinement of an etcd-style
    compare-and-swap key map. */
module Mvcc {
  import opened Bytes
  import opened Records

  datatype InsertError =
    | InvalidRecord
    | CreateKeyExists
    | DeleteKeyNotFound
    | CompareRevisionFailed
    | ConstraintFailed

  predicate SameIndex(a: Record, b: Record) {
    a.key == b.key && a.createRevision == b.createRevision && a.prevRevision == b.prevRevision
  }

  /** The unique index on (key, create_revision, prev_revision). */
  predicate IndexConflict(t: Table, row: Record) {
    exists r | r in t :: SameIndex(t[r], row)
  }

  predicate ValidForInsert(q: Record) {
    && q.revision > 0
    && |q.key| > 0
    && q.prevRevision >= 0
    && q.lease >= 0
    && q.dek >= 0
    && q.createRevision == 0
    && q.version == 0
    && q.createdAt.None?
    && q.compactedAt.None?
    && q.leaderId != ""
    && !(q.created && q.deleted)
  }

  /** The row computed by the INSERT's CASE expressions. */
  function NewRow(t: Table, q: Record, now: int): Record {
    var latest := LatestRev(t, q.key, MaxRev(t));
    var live := latest > 0 && !t[latest].deleted;
    q.(createRevision := if live then t[latest].createRevision else MaxRev(t) + 1,
       version := if q.deleted then 0 else (if latest > 0 then t[latest].version else 0) + 1,
       createdAt := Some(now))
  }

  /** One INSERT. SQLite checks NOT NULL columns in declaration order (created,
      deleted, prev_revision) and the uniqueness constraints after them. */
  function InsertRow(t: Table, q: Record, now: int): Result<Record, InsertError> {
    var live := LiveAt(t, q.key, MaxRev(t));
    if !ValidForInsert(q) then Err(InvalidRecord)
    else if q.created && live then Err(CreateKeyExists)
    else if q.deleted && !live then Err(DeleteKeyNotFound)
    else if q.prevRevision != (if live then LatestRev(t, q.key, MaxRev(t)) else 0) then Err(CompareRevisionFailed)
    else if q.revision in t || IndexConflict(t, NewRow(t, q, now)) then Err(ConstraintFailed)
    else Ok(NewRow(t, q, now))
  }

  // ---- The links between the rows of a key ----

  /** Row `r` continues its key's previous row, or starts a new life of the key. */
  ghost predicate Linked(t: Table, r: nat)
    requires r in t && r > 0
  {
    var row := t[r];
    var p := LatestRev(t, row.key, r - 1);
    var live := p > 0 && !t[p].deleted;
    && |row.key| > 0
    && row.prevRevision == (if live then p else 0)
    && row.createRevision == (if live then t[p].createRevision else r)
    && row.version == (if row.deleted then 0 else (if p > 0 then t[p].version else 0) + 1)
    && (row.deleted ==> live)
    && (row.created ==> !live)
  }

  /** A log of revisions 1..n whose rows are all linked. */
  ghost predicate LogInv(t: Table, n: nat) {
    && GapFree(t, n)
    && Keyed(t)
    && forall r {:trigger Linked(t, r)} | r in t && r > 0 :: Linked(t, r)
  }

  lemma LogIsGapFree(t: Table, n: nat)
    requires LogInv(t, n)
    ensures GapFree(t, n)
  {
  }

  lemma LinkedCongruent(t: Table, u: Table, r: nat)
    requires r > 0 && r in t && r in u && t[r] == u[r] && Linked(t, r)
    requires forall x: nat | 0 < x < r :: (x in t <==> x in u) && (x in t ==> t[x] == u[x])
    ensures Linked(u, r)
  {
  }

  lemma AppendKeepsLog(t: Table, n: nat, row: Record)
    requires LogInv(t, n) && row.revision == n + 1 && Linked(t[n + 1 := row], n + 1)
    ensures LogInv(t[n + 1 := row], n + 1)
  {
    var u := t[n + 1 := row];
    forall r {:trigger Linked(u, r)} | r in u && r > 0 ensures Linked(u, r) {
      if r <= n {
        LinkedBelow(t, u, n, r);
      }
    }
  }

  lemma LinkedBelow(t: Table, u: Table, n: nat, r: nat)
    requires LogInv(t, n) && r in t && forall x: nat | 1 <= x <= n :: x in u && u[x] == t[x]
    ensures r in u && Linked(u, r)
  {
    assert Linked(t, r);
    LinkedCongruent(t, u, r);
  }

  /** Appending the inserted row at the next revision keeps the log linked. */
  lemma InsertKeepsLog(t: Table, n: nat, q: Record, now: int)
    requires LogInv(t, n) && q.revision == n + 1 && InsertRow(t, q, now).Ok?
    ensures LogInv(t[n + 1 := InsertRow(t, q, now).value], n + 1)
  {
    NewRowLinked(t, n, q, now);
    AppendKeepsLog(t, n, InsertRow(t, q, now).value);
  }

  lemma NewRowLinked(t: Table, n: nat, q: Record, now: int)
    requires GapFree(t, n) && q.revision == n + 1 && InsertRow(t, q, now).Ok?
    ensures Linked(t[n + 1 := InsertRow(t, q, now).value], n + 1)
  {
    MaxRevGapFree(t, n);
    LatestRevCongruent(t, t[n + 1 := InsertRow(t, q, now).value], q.key, n);
  }

  /** prev_revision names the key's preceding row exactly when that row is live. */
  lemma PrevRevisionLinks(t: Table, n: nat, r: nat)
    requires LogInv(t, n) && r in t
    ensures var p := t[r].prevRevision;
            if p > 0 then
              p < r && p in t && t[p].key == t[r].key && !t[p].deleted
              && forall x | p < x < r && x in t :: t[x].key != t[r].key
            else
              p == 0 && (forall x | x in t && x < r && t[x].key == t[r].key ::
                           t[x].deleted || exists y | x < y < r && y in t :: t[y].key == t[r].key)
  {
    assert Linked(t, r);
    var p := LatestRev(t, t[r].key, r - 1);
    assert p > 0 ==> p in t && p < r && t[p].key == t[r].key;
  }

  /** No two rows of the log share (key, create_revision, prev_revision). */
  lemma IndexUnique(t: Table, n: nat, a: nat, b: nat)
    requires LogInv(t, n) && a in t && b in t
    requires t[a].key == t[b].key && t[a].createRevision == t[b].createRevision && t[a].prevRevision == t[b].prevRevision
    ensures a == b
  {
    assert Linked(t, a) && Linked(t, b);
  }

  /** The constraint branch of the INSERT is dead at the next revision. */
  lemma ConstraintsNeverFire(t: Table, n: nat, q: Record, now: int)
    requires LogInv(t, n) && q.revision == n + 1
    ensures InsertRow(t, q, now) != Err(ConstraintFailed)
  {
    MaxRevGapFree(t, n);
    var row := NewRow(t, q, now);
    var latest := LatestRev(t, q.key, n);
    var live := latest > 0 && !t[latest].deleted;
    if q.prevRevision == (if live then latest else 0) {
      forall r | r in t && t[r].key == row.key && t[r].prevRevision == row.prevRevision
        ensures t[r].createRevision != row.createRevision
      {
        assert Linked(t, r);
        assert r <= latest;
        if live {
          CreateRevisionBound(t, n, latest);
        } else {
          CreateRevisionBound(t, n, r);
        }
      }
    }
  }

  lemma {:induction false} CreateRevisionBound(t: Table, n: nat, r: nat)
    requires LogInv(t, n) && r in t
    ensures 1 <= t[r].createRevision <= r
    decreases r
  {
    assert Linked(t, r);
    var p := LatestRev(t, t[r].key, r - 1);
    if p > 0 && !t[p].deleted {
      CreateRevisionBound(t, n, p);
    }
  }

  /** The rows of key `k` that put a value, from revision `from` to `to`. */
  ghost function Puts(t: Table, k: Bytes, from: nat, to: nat): set<nat> {
    set r: nat | r in t && from <= r <= to && t[r].key == k && !t[r].deleted
  }

  /** The key has no tombstone in [from, to). */
  ghost predicate Unbroken(t: Table, k: Bytes, from: nat, to: nat) {
    forall x | x in t && from <= x < to && t[x].key == k :: !t[x].deleted
  }

  /** Through one life of a key: the creating row has its own revision as
      create_revision, every later row of the life repeats it, and `version`
      counts the puts of the life so far (0 on the tombstone ending it). */
  lemma {:induction false} LifeOfKey(t: Table, n: nat, r: nat)
    requires LogInv(t, n) && r in t
    ensures var row := t[r]; var c := row.createRevision;
            && 1 <= c <= r && c in t && t[c].key == row.key && !t[c].deleted
            && t[c].createRevision == c && t[c].prevRevision == 0
            && Unbroken(t, row.key, c, r)
            && (forall x | x in t && c <= x <= r && t[x].key == row.key :: t[x].createRevision == c)
            && row.version == (if row.deleted then 0 else |Puts(t, row.key, c, r)|)
    decreases r
  {
    assert Linked(t, r);
    var k := t[r].key;
    var p := LatestRev(t, k, r - 1);
    if p > 0 && !t[p].deleted {
      LifeOfKey(t, n, p);
      var c := t[r].createRevision;
      if !t[r].deleted {
        assert Puts(t, k, c, r) == Puts(t, k, c, p) + {r};
      }
    } else if !t[r].deleted {
      assert Puts(t, k, r, r) == {r};
      if p > 0 {
        assert Linked(t, p);
      }
    }
  }

  // ---- Refinement of an etcd key map ----

  datatype KeyValue = KeyValue(key: Bytes, value: Bytes, createRevision: int, modRevision: int, version: int, lease: int)

  type Store = map<Bytes, KeyValue>

  function ToKeyValue(r: Record): KeyValue {
    KeyValue(r.key, r.value, r.createRevision, r.revision, r.version, r.lease)
  }

  /** The key map a reader at revision `rev` sees. */
  function StoreAt(t: Table, rev: nat): Store {
    map k | k in KeysOf(t) && LiveAt(t, k, rev) :: ToKeyValue(t[LatestRev(t, k, rev)])
  }

  /** The three request shapes of the Kubernetes etcd client, each guarded by
      an equality compare on the key's mod_revision. */
  datatype Request =
    | Create(key: Bytes, value: Bytes, lease: int)
    | Update(key: Bytes, value: Bytes, lease: int, compare: int)
    | Delete(key: Bytes, compare: int)

  predicate ValidRequest(q: Request) {
    && |q.key| > 0
    && (!q.Delete? ==> q.lease >= 0)
    && (!q.Create? ==> q.compare > 0)
  }

  function Compared(q: Request): int {
    if q.Create? then 0 else q.compare
  }

  function ModRevision(s: Store, k: Bytes): int {
    if k in s then s[k].modRevision else 0
  }

  /** etcd's transaction on the key map at revision `rev`. */
  function Apply(s: Store, q: Request, rev: nat): Store {
    if ModRevision(s, q.key) != Compared(q) then s
    else if q.Delete? then s - {q.key}
    else
      var life := if q.key in s then (s[q.key].createRevision, s[q.key].version + 1) else (rev, 1);
      s[q.key := KeyValue(q.key, q.value, life.0, rev, life.1, q.lease)]
  }

  /** The record LeaderTxn hands to InsertRecord for a parsed request. */
  function ToRecord(q: Request, rev: nat, leader: string): Record {
    match q
    case Create(k, v, l) => Record(rev, k, true, false, 0, 0, 0, l, 0, v, None, None, leader)
    case Update(k, v, l, c) => Record(rev, k, false, false, 0, c, 0, l, 0, v, None, None, leader)
    case Delete(k, c) => Record(rev, k, false, true, 0, c, 0, 0, 0, [], None, None, leader)
  }

  /** Which refusal a request meets: SQLite's column order puts the life of the
      key before the compare, so a create is never refused by its compare. */
  lemma RefusalOf(t: Table, n: nat, q: Request, leader: string, now: int)
    requires LogInv(t, n) && ValidRequest(q) && leader != ""
    ensures var r, s := InsertRow(t, ToRecord(q, n + 1, leader), now), StoreAt(t, n);
            && (r == Err(CreateKeyExists) <==> q.Create? && q.key in s)
            && (r == Err(DeleteKeyNotFound) <==> q.Delete? && q.key !in s)
            && (r == Err(CompareRevisionFailed) <==> (q.Update? || (q.Delete? && q.key in s)) && ModRevision(s, q.key) != q.compare)
  {
    ConstraintsNeverFire(t, n, ToRecord(q, n + 1, leader), now);
    MaxRevGapFree(t, n);
    StoreLookup(t, n, q.key);
  }

  /** The row a request leaves: the request's own columns, the writer and the
      time, continuing the life of the key that the compare named. */
  lemma InsertedRow(t: Table, n: nat, q: Request, leader: string, now: int)
    requires LogInv(t, n) && InsertRow(t, ToRecord(q, n + 1, leader), now).Ok?
    ensures var row, s := InsertRow(t, ToRecord(q, n + 1, leader), now).value, StoreAt(t, n);
            && row.revision == n + 1 && row.key == q.key && (row.created <==> q.Create?) && (row.deleted <==> q.Delete?)
            && row.value == (if q.Delete? then [] else q.value) && row.lease == (if q.Delete? then 0 else q.lease)
            && row.leaderId == leader && row.createdAt == Some(now) && row.compactedAt == None && row.dek == 0
            && row.prevRevision == (if q.Create? then 0 else q.compare)
            && row.createRevision == (if q.key in s then s[q.key].createRevision else n + 1)
            && row.version == if q.Delete? then 0 else if q.key in s then s[q.key].version + 1 else 1
  {
    MaxRevGapFree(t, n);
    StoreLookup(t, n, q.key);
    TombstoneVersion(t, n, q.key);
  }

  /** A key that is not live has no row or a tombstone, whose version is 0. */
  lemma TombstoneVersion(t: Table, n: nat, k: Bytes)
    requires LogInv(t, n)
    ensures var h := LatestRev(t, k, n); h > 0 && t[h].deleted ==> t[h].version == 0
  {
    var h := LatestRev(t, k, n);
    if h > 0 {
      assert Linked(t, h);
    }
  }

  /** One request against the log: a failed insert changes nothing. */
  function LogStep(t: Table, n: nat, q: Request, leader: string, now: int): (Table, nat) {
    var r := InsertRow(t, ToRecord(q, n + 1, leader), now);
    if r.Ok? then (t[n + 1 := r.value], n + 1) else (t, n)
  }

  lemma StoreLookup(t: Table, rev: nat, k: Bytes)
    ensures k in StoreAt(t, rev) <==> LiveAt(t, k, rev)
    ensures LiveAt(t, k, rev) ==> StoreAt(t, rev)[k] == ToKeyValue(t[LatestRev(t, k, rev)])
  {
  }

  /** A request is inserted exactly when the compare holds. */
  lemma InsertedIffCompareHolds(t: Table, n: nat, q: Request, leader: string, now: int)
    requires LogInv(t, n) && ValidRequest(q) && leader != ""
    ensures InsertRow(t, ToRecord(q, n + 1, leader), now).Ok? <==> ModRevision(StoreAt(t, n), q.key) == Compared(q)
  {
    MaxRevGapFree(t, n);
    ConstraintsNeverFire(t, n, ToRecord(q, n + 1, leader), now);
    StoreLookup(t, n, q.key);
  }

  /** One request on the log is one etcd transaction on the key map. */
  lemma StepRefines(t: Table, n: nat, q: Request, leader: string, now: int)
    requires LogInv(t, n) && ValidRequest(q) && leader != ""
    ensures var s := LogStep(t, n, q, leader, now);
            && LogInv(s.0, s.1)
            && StoreAt(s.0, s.1) == Apply(StoreAt(t, n), q, n + 1)
            && s.1 == NextRevision(StoreAt(t, n), n, q)
  {
    hide StoreAt;
    InsertedIffCompareHolds(t, n, q, leader, now);
    var rec := ToRecord(q, n + 1, leader);
    var r := InsertRow(t, rec, now);
    if r.Ok? {
      InsertKeepsLog(t, n, rec, now);
      AppendedStore(t, n, r.value);
      RowIsApplied(t, n, q, leader, now);
    }
  }

  /** The inserted row carries the value, life and version etcd would store. */
  lemma RowIsApplied(t: Table, n: nat, q: Request, leader: string, now: int)
    requires LogInv(t, n) && ModRevision(StoreAt(t, n), q.key) == Compared(q) && ValidRequest(q)
    ensures StoreWith(StoreAt(t, n), NewRow(t, ToRecord(q, n + 1, leader), now)) == Apply(StoreAt(t, n), q, n + 1)
  {
    hide StoreAt;
    MaxRevGapFree(t, n);
    StoreLookup(t, n, q.key);
    var latest := LatestRev(t, q.key, n);
    assert latest > 0 ==> Linked(t, latest);
  }

  /** Appending a row changes the visible map at its own key only. */
  lemma AppendedStore(t: Table, n: nat, row: Record)
    requires GapFree(t, n) && row.revision == n + 1
    ensures StoreAt(t[n + 1 := row], n + 1) == StoreWith(StoreAt(t, n), row)
  {
    hide StoreAt, StoreWith;
    var u := t[n + 1 := row];
    var a, b := StoreAt(u, n + 1), StoreWith(StoreAt(t, n), row);
    forall k ensures (k in a <==> k in b) && (k in a ==> a[k] == b[k]) {
      AppendedLookup(t, n, row, k);
    }
  }

  function StoreWith(s: Store, row: Record): Store {
    if row.deleted then s - {row.key} else s[row.key := ToKeyValue(row)]
  }

  lemma AppendedLatest(t: Table, n: nat, row: Record, k: Bytes)
    requires GapFree(t, n) && row.revision == n + 1
    ensures LatestRev(t[n + 1 := row], k, n + 1) == if k == row.key then n + 1 else LatestRev(t, k, n)
  {
    LatestRevCongruent(t, t[n + 1 := row], k, n);
  }

  lemma AppendedLookup(t: Table, n: nat, row: Record, k: Bytes)
    requires GapFree(t, n) && row.revision == n + 1
    ensures var a, b := StoreAt(t[n + 1 := row], n + 1), StoreWith(StoreAt(t, n), row);
            (k in a <==> k in b) && (k in a ==> a[k] == b[k])
  {
    hide StoreAt;
    var u := t[n + 1 := row];
    AppendedLatest(t, n, row, k);
    var h := LatestRev(t, k, n);
    assert k != row.key && h > 0 ==> u[h] == t[h];
    assert k != row.key ==> (LiveAt(u, k, n + 1) <==> LiveAt(t, k, n));
    StoreLookup(t, n, k);
    StoreLookup(u, n + 1, k);
  }

  /** A history: the requests in the order the write gate admits them, each
      with the clock reading its row is stamped with. */
  type History = seq<(Request, int)>

  ghost function RunLog(t: Table, n: nat, h: History, leader: string): (Table, nat)
    decreases |h|
  {
    if h == [] then (t, n)
    else
      var s := LogStep(t, n, h[0].0, leader, h[0].1);
      RunLog(s.0, s.1, h[1..], leader)
  }

  /** etcd's run of the same requests: the revision advances on success only. */
  ghost function RunStore(s: Store, n: nat, h: History): (Store, nat)
    decreases |h|
  {
    if h == [] then (s, n)
    else RunStore(Apply(s, h[0].0, n + 1), NextRevision(s, n, h[0].0), h[1..])
  }

  function NextRevision(s: Store, n: nat, q: Request): nat {
    if ModRevision(s, q.key) == Compared(q) then n + 1 else n
  }

  /** Every history of requests: the log and the etcd map agree on the final
      contents and revision, and the log is linked throughout. */
  lemma {:induction false} HistoryRefines(t: Table, n: nat, h: History, leader: string)
    requires LogInv(t, n) && leader != "" && forall i | 0 <= i < |h| :: ValidRequest(h[i].0)
    ensures var (u, m) := RunLog(t, n, h, leader);
            LogInv(u, m) && (StoreAt(u, m), m) == RunStore(StoreAt(t, n), n, h)
    decreases |h|
  {
    hide LogStep, LogInv, StoreAt, Apply, NextRevision;
    if h != [] {
      StepRefines(t, n, h[0].0, leader, h[0].1);
      var s := LogStep(t, n, h[0].0, leader, h[0].1);
      HistoryRefines(s.0, s.1, h[1..], leader);
    }
  }

  /** Rows at and below the revision are those of `t`. */
  ghost predicate SamePast(t: Table, u: Table, rev: nat) {
    forall r: nat | r <= rev :: (r in u <==> r in t) && (r in t ==> u[r] == t[r])
  }

  lemma PastStore(t: Table, u: Table, rev: nat)
    requires SamePast(t, u, rev)
    ensures StoreAt(u, rev) == StoreAt(t, rev)
  {
    hide StoreAt;
    forall k ensures (k in StoreAt(u, rev) <==> k in StoreAt(t, rev)) && (k in StoreAt(t, rev) ==> StoreAt(u, rev)[k] == StoreAt(t, rev)[k]) {
      LatestRevCongruent(t, u, k, rev);
      StoreLookup(t, rev, k);
      StoreLookup(u, rev, k);
    }
  }

  /** A history never touches the rows it started from. */
  lemma {:induction false} HistoryKeepsPast(t: Table, n: nat, h: History, leader: string)
    ensures var (u, m) := RunLog(t, n, h, leader); n <= m && SamePast(t, u, n)
    decreases |h|
  {
    if h != [] {
      var s := LogStep(t, n, h[0].0, leader, h[0].1);
      StepKeepsPast(t, n, h[0].0, leader, h[0].1);
      hide LogStep;
      HistoryKeepsPast(s.0, s.1, h[1..], leader);
    }
  }

  lemma StepKeepsPast(t: Table, n: nat, q: Request, leader: string, now: int)
    ensures var (u, m) := LogStep(t, n, q, leader, now); n <= m && SamePast(t, u, n)
  {
    hide InsertRow;
  }

  lemma {:induction false} HistorySplits(t: Table, n: nat, h: History, i: nat, leader: string)
    requires i <= |h|
    ensures var (u, m) := RunLog(t, n, h[..i], leader); RunLog(u, m, h[i..], leader) == RunLog(t, n, h, leader)
    decreases i
  {
    if i == 0 {
      assert h[0..] == h;
    } else {
      hide LogStep;
      var s := LogStep(t, n, h[0].0, leader, h[0].1);
      HistorySplits(s.0, s.1, h[1..], i - 1, leader);
      assert h[..i][1..] == h[1..][..i - 1] && h[1..][i - 1..] == h[i..];
    }
  }

  /** The key map of every earlier moment of a history stays readable at the
      revision that moment had reached. */
  lemma HistoryRemembers(t: Table, n: nat, h: History, i: nat, leader: string)
    requires LogInv(t, n) && leader != "" && (forall j | 0 <= j < |h| :: ValidRequest(h[j].0)) && i <= |h|
    ensures var (s, m) := RunStore(StoreAt(t, n), n, h[..i]); StoreAt(RunLog(t, n, h, leader).0, m) == s
  {
    hide StoreAt, LogInv, RunLog, RunStore, ValidRequest;
    assert forall j | 0 <= j < i :: h[..i][j] == h[j];
    HistoryRefines(t, n, h[..i], leader);
    HistorySplits(t, n, h, i, leader);
    var (u, m) := RunLog(t, n, h[..i], leader);
    HistoryKeepsPast(u, m, h[i..], leader);
    PastStore(u, RunLog(t, n, h, leader).0, m);
  }
}
