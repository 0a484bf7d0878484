/** Reads at a revision: the unary Range, the RangeStream that pages through
    the same rows while the table changes under it, and the page sizer. */
module Ranges {
  import opened Bytes
  import opened Records
  import opened Mvcc
  import opened Erasure
  import opened Compaction

  /** The WHERE clause on the key, taken as an arbitrary predicate. */
  type Filter = Bytes -> bool

  // ---- The queries ----

  /** revision > 0 bounds the rows read; revision 0 reads all of them. */
  function Bound(t: Table, revision: nat): nat {
    if revision > 0 then revision else MaxRev(t)
  }

  function LiveKeys(t: Table, f: Filter, revision: nat): set<Bytes> {
    set k | k in KeysOf(t) && f(k) && LiveAt(t, k, Bound(t, revision))
  }

  function RowAt(t: Table, k: Bytes, bound: nat): Record
    requires LiveAt(t, k, bound)
  {
    t[LatestRev(t, k, bound)]
  }

  predicate AllLive(t: Table, keys: seq<Bytes>, bound: nat) {
    forall k | k in keys :: LiveAt(t, k, bound)
  }

  function RowsOf(t: Table, keys: seq<Bytes>, bound: nat): (rows: seq<Record>)
    requires AllLive(t, keys, bound)
    ensures |rows| == |keys|
    ensures forall i | 0 <= i < |keys| :: keys[i] in keys && rows[i] == RowAt(t, keys[i], bound)
  {
    seq(|keys|, i requires 0 <= i < |keys| => assert keys[i] in keys; RowAt(t, keys[i], bound))
  }

  /** The matching live keys in ascending order. */
  function Listing(t: Table, f: Filter, revision: nat): (keys: seq<Bytes>)
    ensures AllLive(t, keys, Bound(t, revision)) && |keys| == |LiveKeys(t, f, revision)|
  {
    Sorted(LiveKeys(t, f, revision))
  }

  /** The live latest-per-key rows at the revision, in ascending key order. */
  function LiveRows(t: Table, f: Filter, revision: nat): (rows: seq<Record>)
    ensures |rows| == |LiveKeys(t, f, revision)|
  {
    RowsOf(t, Listing(t, f, revision), Bound(t, revision))
  }

  /** Each matching key that is live at the revision appears once, in ascending
      order, with its newest row. */
  lemma LiveRowsExact(t: Table, f: Filter, revision: nat)
    ensures var rows, bound := LiveRows(t, f, revision), if revision > 0 then revision else MaxRev(t);
            && (forall i, j | 0 <= i < j < |rows| :: Less(rows[i].key, rows[j].key))
            && (forall i | 0 <= i < |rows| :: f(rows[i].key) && LiveAt(t, rows[i].key, bound) && rows[i] == RowAt(t, rows[i].key, bound))
            && forall k | f(k) && LiveAt(t, k, bound) :: exists i | 0 <= i < |rows| :: rows[i].key == k
  {
    var rows, bound, keys := LiveRows(t, f, revision), Bound(t, revision), Listing(t, f, revision);
    forall i | 0 <= i < |rows| ensures rows[i].key == keys[i] && f(rows[i].key) && rows[i] == RowAt(t, rows[i].key, bound) {
      assert keys[i] in keys;
    }
    forall k | f(k) && LiveAt(t, k, bound) ensures exists i | 0 <= i < |rows| :: rows[i].key == k {
      assert k in KeysOf(t) by {
        assert t[LatestRev(t, k, bound)].key == k;
      }
      assert k in keys;
    }
  }

  function Take<T>(s: seq<T>, n: nat): seq<T> {
    if n < |s| then s[..n] else s
  }

  datatype Order = Asc | Desc

  /** A result row of the UNION ALL: the count row, whose key is the empty
      string and so sorts first ascending and last descending, or a record. */
  datatype QueryRow = CountRow(count: nat) | RecordRow(rec: Record)

  function Reverse<T>(s: seq<T>): (r: seq<T>)
    ensures |r| == |s| && forall i | 0 <= i < |s| :: r[i] == s[|s| - 1 - i]
  {
    if s == [] then [] else Reverse(s[1..]) + [s[0]]
  }

  function AsRows(rs: seq<Record>): (q: seq<QueryRow>)
    ensures |q| == |rs| && forall i | 0 <= i < |rs| :: q[i] == RecordRow(rs[i])
  {
    seq(|rs|, i requires 0 <= i < |rs| => RecordRow(rs[i]))
  }

  /** The rows SQLite returns, LIMIT limit+1 applied to the union. */
  function QueryRows(t: Table, f: Filter, revision: nat, limit: nat, order: Order): seq<QueryRow> {
    var live := LiveRows(t, f, revision);
    var rows := if order.Asc? then [CountRow(|live|)] + AsRows(live) else AsRows(Reverse(live)) + [CountRow(|live|)];
    if limit > 0 then Take(rows, limit + 1) else rows
  }

  /** The literal zero columns of the count row, read as a record. */
  const ZERO_RECORD := Record(0, [], false, false, 0, 0, 0, 0, 0, [], None, None, "")

  function CountColumn(q: QueryRow): nat {
    if q.CountRow? then q.count else 0
  }

  function RecordColumns(q: QueryRow): Record {
    if q.CountRow? then ZERO_RECORD else q.rec
  }

  /** The scan loop: the first row is taken as the count row. */
  method ScanRows(rows: seq<QueryRow>) returns (records: seq<Record>, totalCount: nat)
    ensures totalCount == if rows == [] then 0 else CountColumn(rows[0])
    ensures |records| == if rows == [] then 0 else |rows| - 1
    ensures forall j | 0 <= j < |records| :: records[j] == RecordColumns(rows[j + 1])
  {
    records, totalCount := [], 0;
    var isFirstRow := true;
    for i := 0 to |rows|
      invariant isFirstRow <==> i == 0
      invariant totalCount == if i == 0 then 0 else CountColumn(rows[0])
      invariant |records| == if i == 0 then 0 else i - 1
      invariant forall j | 0 <= j < |records| :: records[j] == RecordColumns(rows[j + 1])
    {
      if isFirstRow {
        totalCount := CountColumn(rows[i]);
        isFirstRow := false;
      } else {
        records := records + [RecordColumns(rows[i])];
      }
    }
  }

  function Limited<T>(s: seq<T>, limit: nat): seq<T> {
    if limit > 0 then Take(s, limit) else s
  }

  /** Ascending, the rows and their total; descending, the largest key's row is
      eaten as the count row, the total reads 0 and the count row comes out as
      a last record. */
  method FindRecordsBy(t: Table, f: Filter, revision: nat, limit: nat, order: Order)
    returns (records: seq<Record>, totalCount: nat)
    ensures order.Asc? ==> records == Limited(LiveRows(t, f, revision), limit) && totalCount == |LiveRows(t, f, revision)|
    ensures order.Desc? ==>
              && totalCount == 0
              && records == if LiveRows(t, f, revision) == [] then [] else Limited(Reverse(LiveRows(t, f, revision))[1..] + [ZERO_RECORD], limit)
  {
    hide LiveRows;
    var rows := QueryRows(t, f, revision, limit, order);
    records, totalCount := ScanRows(rows);
  }

  /** The paging query: the first `limit` live rows with keys after the cursor. */
  function FindPage(t: Table, f: Filter, revision: nat, limit: nat, afterKey: Bytes): seq<Record> {
    var keys := Sorted(KeysAfter(LiveKeys(t, f, revision), afterKey));
    assert AllLive(t, keys, Bound(t, revision));
    RowsOf(t, Take(keys, limit), Bound(t, revision))
  }

  /** An empty cursor adds no clause. */
  function KeysAfter(s: set<Bytes>, afterKey: Bytes): set<Bytes> {
    if |afterKey| > 0 then set k | k in s && Less(afterKey, k) else s
  }

  datatype RangeError = InvalidArgument | Unimplemented | Compacted | SendFailed | Canceled

  function KeyValues(rows: seq<Record>): (kvs: seq<KeyValue>)
    ensures |kvs| == |rows| && forall i | 0 <= i < |rows| :: kvs[i] == ToKeyValue(rows[i])
  {
    seq(|rows|, i requires 0 <= i < |rows| => ToKeyValue(rows[i]))
  }

  predicate AnyCompacted(rows: seq<Record>) {
    exists i | 0 <= i < |rows| :: rows[i].compactedAt.Some?
  }

  method RecordsToKeyValues(rows: seq<Record>) returns (r: Result<seq<KeyValue>, RangeError>)
    ensures r == if AnyCompacted(rows) then Err(Compacted) else Ok(KeyValues(rows))
  {
    var kvs := [];
    for i := 0 to |rows|
      invariant |kvs| == i && forall j | 0 <= j < i :: rows[j].compactedAt.None? && kvs[j] == ToKeyValue(rows[j])
    {
      if rows[i].compactedAt.Some? {
        return Err(Compacted);
      }
      kvs := kvs + [ToKeyValue(rows[i])];
    }
    assert kvs == KeyValues(rows);
    return Ok(kvs);
  }

  // ---- Requests ----

  datatype RangeRequest = RangeRequest(
    filter: Filter,
    revision: nat,
    limit: int,
    countOnly: bool,
    keysOnly: bool,
    minModRevision: int,
    maxModRevision: int,
    minCreateRevision: int,
    maxCreateRevision: int,
    serializable: bool,
    sortTarget: int,
    sorted: bool,
    descending: bool)

  function Validate(q: RangeRequest): Option<RangeError> {
    if q.limit < 0 then Some(InvalidArgument)
    else if q.keysOnly then Some(Unimplemented)
    else if q.maxCreateRevision != 0 then Some(Unimplemented)
    else if q.maxModRevision != 0 then Some(Unimplemented)
    else if q.minModRevision != 0 then Some(Unimplemented)
    else if q.minCreateRevision != 0 then Some(Unimplemented)
    else if q.serializable then Some(Unimplemented)
    else if q.sortTarget != 0 then Some(Unimplemented)
    else None
  }

  /** The options the store implements. */
  predicate Supported(q: RangeRequest) {
    && !q.keysOnly && !q.serializable && q.sortTarget == 0
    && q.minModRevision == q.maxModRevision == q.minCreateRevision == q.maxCreateRevision == 0
  }

  datatype RangeResponse = RangeResponse(kvs: seq<KeyValue>, count: nat, more: bool)

  /** What an ascending read of `t` answers: the reference both reads meet. */
  function Read(t: Table, q: RangeRequest): Result<RangeResponse, RangeError>
    requires q.limit >= 0
  {
    var live := LiveRows(t, q.filter, q.revision);
    var rows := Limited(live, q.limit);
    if q.countOnly then Ok(RangeResponse([], |live|, |live| > |rows|))
    else if AnyCompacted(rows) then Err(Compacted)
    else Ok(RangeResponse(KeyValues(rows), |live|, |live| > |rows|))
  }

  // ---- What a read means: the key map at its revision ----

  ghost function Matching(s: Store, f: Filter): set<Bytes> {
    set k | k in s && f(k)
  }

  /** `kvs` holds entries of the key map whose keys match, each once and in
      ascending key order: all of them, or the `limit` smallest. */
  ghost predicate Lists(kvs: seq<KeyValue>, s: Store, f: Filter, limit: int) {
    && (forall i, j | 0 <= i < j < |kvs| :: Less(kvs[i].key, kvs[j].key))
    && (forall i | 0 <= i < |kvs| :: kvs[i].key in Matching(s, f) && kvs[i] == s[kvs[i].key])
    && (limit > 0 ==> |kvs| <= limit)
    && forall k | k in Matching(s, f) ::
         || (exists i | 0 <= i < |kvs| :: kvs[i].key == k)
         || (|kvs| == limit > 0 && forall i | 0 <= i < |kvs| :: Less(kvs[i].key, k))
  }

  /** The matching key's current row is erased, and the limit reaches it. */
  ghost predicate Erased(t: Table, at: nat, f: Filter, limit: int, k: Bytes) {
    && k in Matching(StoreAt(t, at), f) && t[LatestRev(t, k, at)].compactedAt.Some?
    && (limit > 0 ==> |SmallerIn(Matching(StoreAt(t, at), f), k)| < limit)
  }

  /** The response a key map gives: every matching key counted, and listed
      unless only the count was asked for. */
  ghost predicate Responds(v: RangeResponse, s: Store, q: RangeRequest) {
    && v.count == |Matching(s, q.filter)|
    && (v.more <==> 0 < q.limit < |Matching(s, q.filter)|)
    && if q.countOnly then v.kvs == [] else Lists(v.kvs, s, q.filter, q.limit)
  }

  /** The answer to an ascending read is that of the key map at `at`. */
  ghost predicate AnswersStore(r: Result<RangeResponse, RangeError>, t: Table, at: nat, q: RangeRequest) {
    && (r.Ok? ==> Responds(r.value, StoreAt(t, at), q))
    && (r.Err? ==> r.error == Compacted)
    && (r.Err? <==> !q.countOnly && exists k :: Erased(t, at, q.filter, q.limit, k))
  }

  /** `rows` are the current rows of the matching keys, in ascending key order. */
  ghost predicate RowsMatch(rows: seq<Record>, t: Table, at: nat, f: Filter) {
    && |rows| == |Matching(StoreAt(t, at), f)|
    && (forall i, j | 0 <= i < j < |rows| :: Less(rows[i].key, rows[j].key))
    && (forall i | 0 <= i < |rows| :: rows[i].key in Matching(StoreAt(t, at), f) && rows[i] == t[LatestRev(t, rows[i].key, at)])
    && (forall i | 0 <= i < |rows| :: ToKeyValue(rows[i]) == StoreAt(t, at)[rows[i].key])
    && forall k | k in Matching(StoreAt(t, at), f) :: exists i | 0 <= i < |rows| :: rows[i].key == k
  }

  /** Revision 0 reads the newest key map, a revision above it that revision's. */
  lemma LiveRowsMatch(t: Table, f: Filter, revision: nat)
    ensures RowsMatch(LiveRows(t, f, revision), t, if revision == 0 then MaxRev(t) else revision, f)
  {
    hide LiveRows, Less, MaxRev, LatestRev, LiveKeys;
    LiveRowsExact(t, f, revision);
    MatchingIsLive(t, f, revision);
    var at := if revision == 0 then MaxRev(t) else revision;
    forall k ensures k in Matching(StoreAt(t, at), f) <==> f(k) && LiveAt(t, k, at) {
      StoreLookup(t, at, k);
    }
    var rows := LiveRows(t, f, revision);
    forall i | 0 <= i < |rows| ensures ToKeyValue(rows[i]) == StoreAt(t, at)[rows[i].key] {
      StoreLookup(t, at, rows[i].key);
    }
    hide StoreAt, LiveAt, Matching;
  }

  lemma MatchingIsLive(t: Table, f: Filter, revision: nat)
    ensures Matching(StoreAt(t, if revision == 0 then MaxRev(t) else revision), f) == LiveKeys(t, f, revision)
  {
  }

  lemma RowsList(rows: seq<Record>, t: Table, at: nat, f: Filter)
    requires RowsMatch(rows, t, at, f)
    ensures Lists(KeyValues(rows), StoreAt(t, at), f, 0)
  {
    hide Less, LatestRev, StoreAt, Matching;
    var kvs := KeyValues(rows);
    forall k | k in Matching(StoreAt(t, at), f) ensures exists i | 0 <= i < |kvs| :: kvs[i].key == k {
      var j :| 0 <= j < |rows| && rows[j].key == k;
      assert kvs[j].key == k;
    }
  }

  lemma TakeLists(kvs: seq<KeyValue>, s: Store, f: Filter, limit: nat)
    requires Lists(kvs, s, f, 0)
    ensures Lists(Limited(kvs, limit), s, f, limit)
  {
    hide Less, Matching;
    var first := Limited(kvs, limit);
    forall k | k in Matching(s, f)
      ensures (exists i | 0 <= i < |first| :: first[i].key == k) || (|first| == limit > 0 && forall i | 0 <= i < |first| :: Less(first[i].key, k))
    {
      var j :| 0 <= j < |kvs| && kvs[j].key == k;
      if j < |first| {
        assert first[j].key == k;
      }
    }
  }

  lemma LimitedLists(rows: seq<Record>, t: Table, at: nat, f: Filter, limit: nat)
    requires RowsMatch(rows, t, at, f)
    ensures Lists(KeyValues(Limited(rows, limit)), StoreAt(t, at), f, limit)
  {
    hide RowsMatch, Lists, StoreAt;
    RowsList(rows, t, at, f);
    TakeLists(KeyValues(rows), StoreAt(t, at), f, limit);
    assert KeyValues(Limited(rows, limit)) == Limited(KeyValues(rows), limit);
  }

  /** The limit keeps the rows that have fewer smaller matching keys. */
  lemma ErasedIffListed(rows: seq<Record>, t: Table, at: nat, f: Filter, limit: nat)
    requires RowsMatch(rows, t, at, f)
    ensures AnyCompacted(Limited(rows, limit)) <==> exists k :: Erased(t, at, f, limit, k)
  {
    hide Less, LatestRev, StoreAt, SmallerIn;
    forall i | 0 <= i < |rows| ensures Erased(t, at, f, limit, rows[i].key) <==> rows[i].compactedAt.Some? && i < |Limited(rows, limit)| {
      SmallerMatching(rows, t, at, f, i);
    }
    if k :| Erased(t, at, f, limit, k) {
      var i :| 0 <= i < |rows| && rows[i].key == k;
      assert Limited(rows, limit)[i].compactedAt.Some?;
    }
    if i :| 0 <= i < |Limited(rows, limit)| && Limited(rows, limit)[i].compactedAt.Some? {
      assert Erased(t, at, f, limit, rows[i].key);
    }
  }

  lemma SmallerMatching(rows: seq<Record>, t: Table, at: nat, f: Filter, i: nat)
    requires RowsMatch(rows, t, at, f) && i < |rows|
    ensures |SmallerIn(Matching(StoreAt(t, at), f), rows[i].key)| == i
  {
    hide Less, LatestRev, StoreAt;
    var m, keys := Matching(StoreAt(t, at), f), seq(|rows|, j requires 0 <= j < |rows| => rows[j].key);
    forall k ensures k in m <==> k in keys {
      if k in m {
        var j :| 0 <= j < |rows| && rows[j].key == k;
        assert keys[j] == k;
      }
    }
    PositionCountsSmaller(m, keys, i);
  }

  /** Every ascending read is the answer of a key map of the store. */
  lemma ReadIsStore(t: Table, q: RangeRequest)
    requires q.limit >= 0
    ensures AnswersStore(Read(t, q), t, if q.revision == 0 then MaxRev(t) else q.revision, q)
  {
    hide LiveRows, RowsMatch, Lists, Erased, Matching, StoreAt;
    var at, live := if q.revision == 0 then MaxRev(t) else q.revision, LiveRows(t, q.filter, q.revision);
    LiveRowsMatch(t, q.filter, q.revision);
    assert |live| == |Matching(StoreAt(t, at), q.filter)| by {
      MatchCount(live, t, at, q.filter);
    }
    ErasedIffListed(live, t, at, q.filter, q.limit);
    LimitedLists(live, t, at, q.filter, q.limit);
  }

  /** After any history of transactions, a read at revision 0 answers from the
      reference map the history leads to, and a read at the revision an earlier
      moment had reached answers from the map of that moment. */
  lemma HistoryReads(t: Table, n: nat, h: History, i: nat, leader: string, q: RangeRequest)
    requires LogInv(t, n) && leader != "" && (forall j | 0 <= j < |h| :: ValidRequest(h[j].0)) && i <= |h|
    requires q.limit >= 0 && (if q.revision == 0 then i == |h| else q.revision == RunStore(StoreAt(t, n), n, h[..i]).1)
    ensures var r := Read(RunLog(t, n, h, leader).0, q);
            r.Ok? ==> Responds(r.value, RunStore(StoreAt(t, n), n, h[..i]).0, q)
  {
    hide RunLog, RunStore, StoreAt, ValidRequest, Responds, Read, LogInv;
    HistoryRemembers(t, n, h, i, leader);
    ReadIsStore(RunLog(t, n, h, leader).0, q);
    if i == |h| {
      assert h[..i] == h;
      HistoryRefines(t, n, h, leader);
      HeadOfLog(RunLog(t, n, h, leader).0, RunLog(t, n, h, leader).1);
    }
  }

  lemma HeadOfLog(t: Table, n: nat)
    requires LogInv(t, n)
    ensures MaxRev(t) == n
  {
    MaxRevGapFree(t, n);
  }

  lemma MatchCount(rows: seq<Record>, t: Table, at: nat, f: Filter)
    requires RowsMatch(rows, t, at, f)
    ensures |rows| == |Matching(StoreAt(t, at), f)|
  {
  }

  method Range(t: Table, q: RangeRequest) returns (r: Result<RangeResponse, RangeError>)
    ensures q.limit < 0 ==> r == Err(InvalidArgument)
    ensures q.limit >= 0 && !Supported(q) ==> r == Err(Unimplemented)
    ensures q.limit >= 0 && Supported(q) && !q.descending ==>
              r == Read(t, q) && AnswersStore(r, t, if q.revision == 0 then MaxRev(t) else q.revision, q)
    // Descending, the first record row is read as the count row.
    ensures q.limit >= 0 && Supported(q) && q.descending ==>
              var matching := Matching(StoreAt(t, if q.revision == 0 then MaxRev(t) else q.revision), q.filter);
              ((r.Ok? && r.value.count == |matching|) <==> matching == {})
  {
    hide AnswersStore;
    if Validate(q).None? {
      ReadIsStore(t, q);
      LiveRowsMatch(t, q.filter, q.revision);
    }
    var invalid := Validate(q);
    if invalid.Some? {
      return Err(invalid.value);
    }
    var rows, totalCount := FindRecordsBy(t, q.filter, q.revision, q.limit, if q.descending then Desc else Asc);
    var more := totalCount > |rows|;
    if q.countOnly {
      return Ok(RangeResponse([], totalCount, more));
    }
    var kvs := RecordsToKeyValues(rows);
    if kvs.Err? {
      return Err(kvs.error);
    }
    return Ok(RangeResponse(kvs.value, totalCount, more));
  }

  // ---- A table changing under a reader ----

  /** At and below `rev`, `u` holds the rows of `t`, some of them erased. */
  ghost predicate StableAt(t: Table, u: Table, rev: nat) {
    && (forall r: nat | r <= rev :: r in t <==> r in u)
    && forall r: nat {:trigger t[r]} {:trigger u[r]} | r <= rev && r in t :: RowEvolves(t[r], u[r])
  }

  /** What happens to the table under a reader: a row is written or overwritten,
      a tentative row deleted, a compaction executed. */
  datatype Edit = WriteRow(revision: nat, row: Record) | DeleteRow(revision: nat) | Erase(bound: int, now: int)

  function Edited(t: Table, e: Edit): Table {
    match e
    case WriteRow(r, row) => t[r := row]
    case DeleteRow(r) => t - {r}
    case Erase(c, now) => Compact(t, c, now)
  }

  function Edits(t: Table, es: seq<Edit>): Table {
    if es == [] then t else Edited(Edits(t, es[..|es| - 1]), es[|es| - 1])
  }

  /** Rows are only written and deleted above the revision. */
  predicate Above(es: seq<Edit>, rev: nat) {
    forall e | e in es :: !e.Erase? ==> e.revision > rev
  }

  lemma EditIsStable(t: Table, e: Edit, rev: nat)
    requires !e.Erase? ==> e.revision > rev
    ensures StableAt(t, Edited(t, e), rev)
  {
  }

  lemma StableTransitive(t: Table, u: Table, v: Table, rev: nat)
    requires StableAt(t, u, rev) && StableAt(u, v, rev)
    ensures StableAt(t, v, rev)
  {
  }

  /** Any number of appends, overwrites, deletions and compactions. */
  lemma {:induction false} EditsAreStable(t: Table, es: seq<Edit>, rev: nat)
    requires Above(es, rev)
    ensures StableAt(t, Edits(t, es), rev)
    decreases |es|
  {
    if es != [] {
      var before, last := es[..|es| - 1], es[|es| - 1];
      assert last in es && forall e | e in before :: e in es;
      EditsAreStable(t, before, rev);
      EditIsStable(Edits(t, before), last, rev);
      hide StableAt, Edited;
      StableTransitive(t, Edits(t, before), Edits(t, es), rev);
    }
  }

  /** The table after the edits of the first `i` intervals. */
  function TableAt(t0: Table, between: nat -> seq<Edit>, i: nat): Table {
    if i == 0 then t0 else Edits(TableAt(t0, between, i - 1), between(i - 1))
  }

  lemma {:induction false} TablesAreStable(t0: Table, between: nat -> seq<Edit>, rev: nat, i: nat)
    requires forall j: nat :: Above(between(j), rev)
    ensures StableAt(t0, TableAt(t0, between, i), rev)
  {
    if i > 0 {
      TablesAreStable(t0, between, rev, i - 1);
      EditsAreStable(TableAt(t0, between, i - 1), between(i - 1), rev);
      hide StableAt, Edits;
      StableTransitive(t0, TableAt(t0, between, i - 1), TableAt(t0, between, i), rev);
    }
  }

  /** The listing at `rev` names the same keys and revisions. */
  lemma StableLiveKeys(t: Table, u: Table, f: Filter, rev: nat)
    requires StableAt(t, u, rev) && rev > 0
    ensures LiveKeys(u, f, rev) == LiveKeys(t, f, rev)
    ensures forall k :: LatestRev(u, k, rev) == LatestRev(t, k, rev)
  {
    forall k ensures LatestRev(u, k, rev) == LatestRev(t, k, rev) && (LiveAt(u, k, rev) <==> LiveAt(t, k, rev)) {
      LatestRevCongruent(t, u, k, rev);
    }
    forall k ensures k in LiveKeys(u, f, rev) <==> k in LiveKeys(t, f, rev) {
      LiveKeyMember(t, f, rev, k);
      LiveKeyMember(u, f, rev, k);
    }
  }

  lemma LiveKeyMember(t: Table, f: Filter, rev: nat, k: Bytes)
    requires rev > 0
    ensures k in LiveKeys(t, f, rev) <==> f(k) && LiveAt(t, k, rev)
  {
  }

  /** `later` lists as many rows, each exact or reported compacted. */
  ghost predicate ExactOrCompacted(before: seq<Record>, later: seq<Record>) {
    |later| == |before| && forall i | 0 <= i < |before| :: later[i].compactedAt.Some? || later[i] == before[i]
  }

  /** After any edits above it, a read at a revision lists the same records, each
      of them exact or reported compacted. */
  lemma OldReadsExactOrCompacted(t: Table, es: seq<Edit>, f: Filter, rev: nat)
    requires Above(es, rev) && rev > 0
    ensures ExactOrCompacted(LiveRows(t, f, rev), LiveRows(Edits(t, es), f, rev))
  {
    EditsAreStable(t, es, rev);
    StableRows(t, Edits(t, es), f, rev);
  }

  /** Every run of transactions and compactions is such a sequence of edits. */
  lemma {:induction false} StepsAreEdits(t: Table, n: nat, ops: seq<Op>, leader: string) returns (es: seq<Edit>)
    ensures var s := Steps(Run(t, n, []), ops, leader); Above(es, n) && s.table == Edits(t, es) && s.n >= n
    decreases |ops|
  {
    if ops == [] {
      es := [];
    } else {
      hide InsertRow, Compact, ToRecord;
      var init, last := ops[..|ops| - 1], ops[|ops| - 1];
      es := StepsAreEdits(t, n, init, leader);
      var s, s' := Steps(Run(t, n, []), init, leader), Steps(Run(t, n, []), ops, leader);
      var more := if last.Execute? then [Edit.Erase(last.revision, last.at)] else if s'.n > s.n then [WriteRow(s'.n, s'.table[s'.n])] else [];
      assert (es + more)[..|es|] == es && es + [] == es;
      es := es + more;
    }
  }

  /** So reads at or below the head a run started from list the same records
      after it, each exact or reported compacted. */
  lemma OldReadsAfterRun(t: Table, n: nat, ops: seq<Op>, leader: string, f: Filter, rev: nat)
    requires 0 < rev <= n
    ensures ExactOrCompacted(LiveRows(t, f, rev), LiveRows(Steps(Run(t, n, []), ops, leader).table, f, rev))
  {
    hide Steps, LiveRows, Edits, ExactOrCompacted;
    var es := StepsAreEdits(t, n, ops, leader);
    OldReadsExactOrCompacted(t, es, f, rev);
  }

  /** At most one key per revision. */
  lemma {:induction false} KeyCount(t: Table, s: set<Bytes>, rev: nat)
    requires forall k | k in s :: exists r: nat | r in t :: 1 <= r <= rev && t[r].key == k
    ensures |s| <= rev
    decreases rev
  {
    if rev == 0 {
      assert s == {};
    } else if rev in t && t[rev].key in s {
      KeyCount(t, s - {t[rev].key}, rev - 1);
    } else {
      KeyCount(t, s, rev - 1);
    }
  }

  // ---- The stream ----

  const INITIAL_CHUNK_KEYS: nat := 10
  const MAX_CHUNK_KEYS: nat := 10_000
  const TARGET_CHUNK_BYTES: nat := 1536 * 1024

  class ChunkSizer {
    var keys: nat

    constructor ()
      ensures 1 <= keys == INITIAL_CHUNK_KEYS <= MAX_CHUNK_KEYS
    {
      keys := INITIAL_CHUNK_KEYS;
    }

    /** Doubles after a small chunk, halves after a large one, within bounds. */
    method Observe(chunkBytes: nat)
      requires 1 <= keys <= MAX_CHUNK_KEYS
      modifies this
      ensures 1 <= keys <= MAX_CHUNK_KEYS
      ensures old(keys) / 2 <= keys <= 2 * old(keys)
      ensures 2 * chunkBytes >= TARGET_CHUNK_BYTES && chunkBytes <= 2 * TARGET_CHUNK_BYTES ==> keys == old(keys)
      ensures chunkBytes <= 2 * TARGET_CHUNK_BYTES ==> keys >= old(keys)
      ensures chunkBytes >= TARGET_CHUNK_BYTES / 2 ==> keys <= old(keys)
    {
      if chunkBytes < TARGET_CHUNK_BYTES / 2 {
        keys := if keys * 2 < MAX_CHUNK_KEYS then keys * 2 else MAX_CHUNK_KEYS;
      } else if chunkBytes > TARGET_CHUNK_BYTES * 2 {
        keys := if keys / 2 > 1 then keys / 2 else 1;
      }
    }
  }

  /** One streamed response; only the last one carries count and more. */
  datatype Page = Page(kvs: seq<KeyValue>, final: Option<(nat, bool)>)

  function Sent(pages: seq<Page>): seq<KeyValue> {
    if pages == [] then [] else Sent(pages[..|pages| - 1]) + pages[|pages| - 1].kvs
  }

  /** Everything outside the database that a stream depends on. */
  datatype Env = Env(size: seq<KeyValue> -> nat, canceledAt: nat -> bool, sendFailsAt: nat -> bool)

  /** The pages form one answer equal to `want`. */
  predicate Answers(pages: seq<Page>, want: RangeResponse) {
    && pages != []
    && Sent(pages) == want.kvs
    && pages[|pages| - 1].final == Some((want.count, want.more))
    && forall i | 0 <= i < |pages| - 1 :: pages[i].final.None?
  }

  /** Cursor arithmetic: the keys after K[c-1] are K[c..]. */
  lemma KeysAfterCursor(s: set<Bytes>, c: nat)
    requires 0 < c <= |Sorted(s)| && [] !in s
    ensures Sorted(KeysAfter(s, Sorted(s)[c - 1])) == Sorted(s)[c..]
  {
    hide Less, Sorted;
    var keys := Sorted(s);
    var cursor := keys[c - 1];
    assert cursor in s;
    forall k ensures k in Sorted(KeysAfter(s, cursor)) <==> k in keys[c..] {
      if k in keys {
        var i :| 0 <= i < |keys| && keys[i] == k;
        if i >= c {
          assert keys[c..][i - c] == k;
          assert Less(cursor, k);
        } else {
          NotAfter(keys, c, i);
        }
      }
    }
    AscendingUnique(Sorted(KeysAfter(s, cursor)), keys[c..]);
  }

  lemma NotAfter(keys: seq<Bytes>, c: nat, i: nat)
    requires Ascending(keys) && i < c <= |keys|
    ensures !Less(keys[c - 1], keys[i]) && keys[i] !in keys[c..]
  {
    LessIrreflexive(keys[i]);
    if i < c - 1 {
      LessAsymmetric(keys[i], keys[c - 1]);
    }
    assert forall j | c <= j < |keys| :: Less(keys[i], keys[j]);
  }

  /** The listing of a later table: same keys, each row exact or erased. */
  lemma StableRows(t: Table, u: Table, f: Filter, rev: nat)
    requires StableAt(t, u, rev) && rev > 0
    ensures Listing(u, f, rev) == Listing(t, f, rev)
    ensures |LiveRows(u, f, rev)| == |LiveRows(t, f, rev)| == |Listing(t, f, rev)|
    ensures forall i | 0 <= i < |LiveRows(t, f, rev)| :: RowEvolves(LiveRows(t, f, rev)[i], LiveRows(u, f, rev)[i])
    ensures forall i | 0 <= i < |LiveRows(u, f, rev)| :: LiveRows(u, f, rev)[i].key == Listing(t, f, rev)[i]
  {
    StableLiveKeys(t, u, f, rev);
    hide StableAt, LiveKeys, Sorted;
    var keys := Listing(t, f, rev);
    forall i | 0 <= i < |keys| ensures RowEvolves(LiveRows(t, f, rev)[i], LiveRows(u, f, rev)[i]) && LiveRows(u, f, rev)[i].key == keys[i] {
      assert keys[i] in keys;
      StableRow(t, u, keys[i], rev);
    }
  }

  lemma StableRow(t: Table, u: Table, k: Bytes, rev: nat)
    requires StableAt(t, u, rev) && LiveAt(t, k, rev) && LiveAt(u, k, rev)
    ensures RowEvolves(RowAt(t, k, rev), RowAt(u, k, rev)) && RowAt(u, k, rev).key == k
  {
  }

  /** The page after `c` streamed keys is the next slice of the listing. */
  lemma PageIsSlice(t: Table, f: Filter, rev: nat, c: nat, limit: nat)
    requires rev > 0 && [] !in LiveKeys(t, f, rev) && c <= |Listing(t, f, rev)|
    ensures var cursor := if c == 0 then [] else Listing(t, f, rev)[c - 1];
            FindPage(t, f, rev, limit, cursor) == Take(LiveRows(t, f, rev)[c..], limit)
  {
    var s := LiveKeys(t, f, rev);
    var cursor: Bytes := if c == 0 then [] else Sorted(s)[c - 1];
    if c > 0 {
      KeysAfterCursor(s, c);
      assert Sorted(s)[c - 1] in s;
    }
    assert Sorted(KeysAfter(s, cursor)) == Sorted(s)[c..];
    hide LiveKeys, Sorted;
    RowsSlice(t, Listing(t, f, rev), rev, c, limit);
  }

  lemma RowsSlice(t: Table, keys: seq<Bytes>, bound: nat, c: nat, limit: nat)
    requires AllLive(t, keys, bound) && c <= |keys|
    ensures AllLive(t, Take(keys[c..], limit), bound)
    ensures RowsOf(t, Take(keys[c..], limit), bound) == Take(RowsOf(t, keys, bound)[c..], limit)
  {
  }

  lemma LiveCountBound(t: Table, f: Filter, rev: nat)
    requires rev > 0
    ensures |LiveRows(t, f, rev)| == |LiveKeys(t, f, rev)| <= rev
  {
    forall k | k in LiveKeys(t, f, rev) ensures exists r: nat | r in t :: 1 <= r <= rev && t[r].key == k {
      assert LatestRev(t, k, rev) in t;
    }
    KeyCount(t, LiveKeys(t, f, rev), rev);
  }

  /** An uncompacted page of the later table holds the first table's rows. */
  lemma PageExact(live: seq<Record>, seen: seq<Record>, keys: seq<Bytes>, c: nat, rows: seq<Record>)
    requires |seen| == |live| == |keys| && c + |rows| <= |live| && rows == seen[c..c + |rows|] && !AnyCompacted(rows)
    requires forall i | 0 <= i < |live| :: RowEvolves(live[i], seen[i])
    requires forall i | 0 <= i < |live| :: seen[i].key == keys[i]
    ensures NextRows(KeyValues(rows), live, keys, c)
  {
    forall i | c <= i < c + |rows| ensures seen[i] == live[i] && live[i].compactedAt.None? {
      assert rows[i - c] == seen[i];
    }
  }

  /** A compacted row within the limit makes the unary read fail as well. */
  lemma CompactedPageFailsRead(t: Table, q: RangeRequest, c: nat, m: nat)
    requires q.limit >= 0 && !q.countOnly && c + m <= |LiveRows(t, q.filter, q.revision)|
    requires q.limit > 0 ==> c + m <= q.limit
    requires AnyCompacted(LiveRows(t, q.filter, q.revision)[c..c + m])
    ensures Read(t, q).Err?
  {
    hide LiveRows;
    var live := LiveRows(t, q.filter, q.revision);
    var i :| 0 <= i < m && live[c..c + m][i].compactedAt.Some?;
    var rows := Limited(live, q.limit);
    assert rows[c + i].compactedAt.Some?;
  }

  lemma ReadWhenUncompacted(t: Table, q: RangeRequest, count: nat)
    requires q.limit >= 0 && !q.countOnly
    requires var live := LiveRows(t, q.filter, q.revision);
             && count == (if 0 < q.limit < |live| then q.limit else |live|)
             && forall i | 0 <= i < count :: live[i].compactedAt.None?
    ensures var live := LiveRows(t, q.filter, q.revision);
            Read(t, q) == Ok(RangeResponse(KeyValues(live)[..count], |live|, |live| > count))
  {
    hide LiveRows;
    var live := LiveRows(t, q.filter, q.revision);
    assert live[..count] == Limited(live, q.limit) && !AnyCompacted(live[..count]);
    assert KeyValues(live[..count]) == KeyValues(live)[..count];
  }

  /** One query of the stream: the next `chunkLimit` rows after `c` streamed
      ones, read from a later table `t` than the first one, `t0`. */
  method ReadPage(ghost t0: Table, t: Table, q: RangeRequest, ghost c: nat, chunkLimit: nat, afterKey: Bytes)
    returns (r: Result<seq<KeyValue>, RangeError>, more: bool)
    requires StableAt(t0, t, q.revision) && q.revision > 0 && [] !in LiveKeys(t0, q.filter, q.revision)
    requires q.limit >= 0 && !q.countOnly && c <= |Listing(t0, q.filter, q.revision)|
    requires q.limit > 0 ==> c + chunkLimit <= q.limit
    requires afterKey == if c == 0 then [] else Listing(t0, q.filter, q.revision)[c - 1]
    ensures r.Err? ==> r.error.Compacted? && Read(t, q).Err?
    ensures r.Ok? ==>
              var live, m := LiveRows(t0, q.filter, q.revision), |r.value|;
              && NextRows(r.value, live, Listing(t0, q.filter, q.revision), c)
              && m == (if c + chunkLimit < |live| then chunkLimit else |live| - c)
              && (more <==> c + m < |live|)
  {
    hide FindPage, LiveRows, Listing, LiveKeys, StableAt, Read, RowEvolves, KeyValues;
    ghost var live, seen := LiveRows(t0, q.filter, q.revision), LiveRows(t, q.filter, q.revision);
    var rows := FindPage(t, q.filter, q.revision, chunkLimit + 1, afterKey);
    assert |live| == |seen| && c <= |seen| && rows == Take(seen[c..], chunkLimit + 1) by {
      StableLiveKeys(t0, t, q.filter, q.revision);
      StableRows(t0, t, q.filter, q.revision);
      PageIsSlice(t, q.filter, q.revision, c, chunkLimit + 1);
    }
    more := |rows| > chunkLimit;
    if more {
      rows := rows[..chunkLimit];
    }
    assert rows == seen[c..c + |rows|];
    r := RecordsToKeyValues(rows);
    if r.Err? {
      CompactedPageFailsRead(t, q, c, |rows|);
    } else {
      PageFromLaterTable(t0, t, q.filter, q.revision, c, rows);
    }
  }

  lemma PageFromLaterTable(t0: Table, t: Table, f: Filter, rev: nat, c: nat, rows: seq<Record>)
    requires StableAt(t0, t, rev) && rev > 0 && c + |rows| <= |LiveRows(t, f, rev)|
    requires rows == LiveRows(t, f, rev)[c..c + |rows|] && !AnyCompacted(rows)
    ensures NextRows(KeyValues(rows), LiveRows(t0, f, rev), Listing(t0, f, rev), c)
  {
    hide *;
    StableRows(t0, t, f, rev);
    PageExact(LiveRows(t0, f, rev), LiveRows(t, f, rev), Listing(t0, f, rev), c, rows);
  }

  /** RangeStream. Between its queries `i` and `i + 1` the table is edited above
      the revision it reads, and compacted, as `between(i)` says. */
  method RangeStream(t0: Table, between: nat -> seq<Edit>, q: RangeRequest, env: Env)
    returns (pages: seq<Page>, err: Option<RangeError>)
    requires 0 < q.revision <= MAX_INT64 && q.limit <= MAX_INT64
    requires forall i: nat :: Above(between(i), q.revision)
    requires forall r | r in t0 :: t0[r].key != []
    ensures q.limit < 0 ==> err == Some(InvalidArgument)
    ensures q.limit >= 0 && (!Supported(q) || q.sorted) ==> err == Some(Unimplemented)
    // Success is the unary answer at the moment the stream began.
    ensures err.None? ==> q.limit >= 0 && Supported(q) && Read(t0, q).Ok? && Answers(pages, Read(t0, q).value)
    // A failure has a cause outside the paging.
    ensures err.Some? && q.limit >= 0 && Supported(q) && !q.sorted ==> Explained(err.value, t0, between, q, env)
  {
    hide LiveRows, Listing, LiveKeys, StableAt;
    pages := [];
    var invalid := Validate(q);
    if invalid.Some? {
      return pages, invalid;
    }
    if q.sorted {
      return pages, Some(Unimplemented);
    }
    if q.countOnly {
      var _, totalCount := FindRecordsBy(t0, q.filter, q.revision, 1, Asc);
      if env.sendFailsAt(0) {
        return pages, Some(SendFailed);
      }
      pages := [Page([], Some((totalCount, q.limit > 0 && totalCount > q.limit)))];
      assert Sent(pages[..0]) == [];
      return pages, None;
    }
    forall i: nat ensures StableAt(t0, TableAt(t0, between, i), q.revision) {
      TablesAreStable(t0, between, q.revision, i);
    }
    NoEmptyKey(t0, q.filter, q.revision);
    pages, err := StreamPages(t0, between, q, env);
  }

  lemma NoEmptyKey(t: Table, f: Filter, rev: nat)
    requires forall r | r in t :: t[r].key != []
    ensures [] !in LiveKeys(t, f, rev)
  {
  }

  /** The client went away, a send failed, or some row was compacted. */
  ghost predicate Explained(e: RangeError, t0: Table, between: nat -> seq<Edit>, q: RangeRequest, env: Env)
    requires q.limit >= 0
  {
    || (e.Canceled? && exists i :: env.canceledAt(i))
    || (e.SendFailed? && exists i :: env.sendFailsAt(i))
    || (e.Compacted? && exists i :: Read(TableAt(t0, between, i), q).Err?)
  }

  lemma Explain(i: nat, t0: Table, between: nat -> seq<Edit>, q: RangeRequest, env: Env)
    requires q.limit >= 0
    ensures env.canceledAt(i) ==> Explained(Canceled, t0, between, q, env)
    ensures env.sendFailsAt(i) ==> Explained(SendFailed, t0, between, q, env)
    ensures Read(TableAt(t0, between, i), q).Err? ==> Explained(Compacted, t0, between, q, env)
  {
  }

  /** `count` rows of the listing have been sent, exactly, in open pages. */
  ghost predicate Streamed(pages: seq<Page>, live: seq<Record>, keys: seq<Bytes>, count: nat, afterKey: Bytes) {
    && count <= |live| == |keys|
    && (forall i | 0 <= i < |pages| :: pages[i].final.None?)
    && Sent(pages) == KeyValues(live)[..count]
    && (forall i | 0 <= i < count :: live[i].compactedAt.None?)
    && afterKey == if count == 0 then [] else keys[count - 1]
  }

  /** `kvs` are the next exact rows of the listing after `count`. */
  ghost predicate NextRows(kvs: seq<KeyValue>, live: seq<Record>, keys: seq<Bytes>, count: nat) {
    var m := |kvs|;
    && count + m <= |live| == |keys|
    && KeyValues(live)[..count] + kvs == KeyValues(live)[..count + m]
    && (forall i | count <= i < count + m :: live[i].compactedAt.None?)
    && (m > 0 ==> kvs[m - 1].key == keys[count + m - 1])
  }

  lemma StreamedNothing(live: seq<Record>, keys: seq<Bytes>)
    requires |live| == |keys|
    ensures Streamed([], live, keys, 0, [])
  {
  }

  lemma Cursor(pages: seq<Page>, live: seq<Record>, keys: seq<Bytes>, count: nat, afterKey: Bytes)
    requires Streamed(pages, live, keys, count, afterKey)
    ensures count <= |keys| && afterKey == if count == 0 then [] else keys[count - 1]
  {
  }

  lemma SendPage(pages: seq<Page>, live: seq<Record>, keys: seq<Bytes>, count: nat, afterKey: Bytes, kvs: seq<KeyValue>)
    requires Streamed(pages, live, keys, count, afterKey) && NextRows(kvs, live, keys, count) && kvs != []
    ensures Streamed(pages + [Page(kvs, None)], live, keys, count + |kvs|, kvs[|kvs| - 1].key)
  {
  }

  lemma SendLastPage(pages: seq<Page>, live: seq<Record>, keys: seq<Bytes>, count: nat, afterKey: Bytes, kvs: seq<KeyValue>, total: nat, more: bool)
    requires Streamed(pages, live, keys, count, afterKey) && NextRows(kvs, live, keys, count)
    ensures Answers(pages + [Page(kvs, Some((total, more)))], RangeResponse(KeyValues(live)[..count + |kvs|], total, more))
    ensures forall i | 0 <= i < count + |kvs| :: live[i].compactedAt.None?
  {
  }

  /** The count reported with the last page: what was sent, or the total when
      the limit cut the listing short. */
  method FinalCount(ghost t0: Table, t: Table, q: RangeRequest, sent: nat, more: bool) returns (total: nat)
    requires StableAt(t0, t, q.revision) && q.revision > 0
    ensures total == if more then |LiveRows(t0, q.filter, q.revision)| else sent
  {
    total := sent;
    if more {
      StableRows(t0, t, q.filter, q.revision);
      var _, all := FindRecordsBy(t, q.filter, q.revision, 1, Asc);
      total := all;
    }
  }

  lemma LastPageAnswers(t0: Table, q: RangeRequest, pages: seq<Page>, count: nat, afterKey: Bytes, kvs: seq<KeyValue>, total: nat, more: bool)
    requires q.limit >= 0 && !q.countOnly
    requires Streamed(pages, LiveRows(t0, q.filter, q.revision), Listing(t0, q.filter, q.revision), count, afterKey)
    requires NextRows(kvs, LiveRows(t0, q.filter, q.revision), Listing(t0, q.filter, q.revision), count)
    requires total == |LiveRows(t0, q.filter, q.revision)| && (more <==> count + |kvs| < total)
    requires count + |kvs| == if 0 < q.limit < total then q.limit else total
    ensures Read(t0, q).Ok? && Answers(pages + [Page(kvs, Some((total, more)))], Read(t0, q).value)
  {
    hide *;
    SendLastPage(pages, LiveRows(t0, q.filter, q.revision), Listing(t0, q.filter, q.revision), count, afterKey, kvs, total, more);
    ReadWhenUncompacted(t0, q, count + |kvs|);
  }

  /** The paging loop. */
  method StreamPages(t0: Table, between: nat -> seq<Edit>, q: RangeRequest, env: Env)
    returns (pages: seq<Page>, err: Option<RangeError>)
    requires 0 < q.revision <= MAX_INT64 && 0 <= q.limit <= MAX_INT64 && !q.countOnly
    requires forall i: nat :: StableAt(t0, TableAt(t0, between, i), q.revision)
    requires [] !in LiveKeys(t0, q.filter, q.revision)
    ensures err.None? ==> Read(t0, q).Ok? && Answers(pages, Read(t0, q).value)
    ensures err.Some? ==> Explained(err.value, t0, between, q, env)
  {
    hide *;
    pages := [];
    var sizer := new ChunkSizer();
    ghost var live, keys := LiveRows(t0, q.filter, q.revision), Listing(t0, q.filter, q.revision);
    var totalLimit := if q.limit == 0 then MAX_INT64 else q.limit;
    var count, queries := 0, 0;
    var afterKey: Bytes := [];
    LiveCountBound(t0, q.filter, q.revision);
    StreamedNothing(live, keys);
    while true
      invariant fresh(sizer) && 1 <= sizer.keys <= MAX_CHUNK_KEYS
      invariant 0 <= count <= |live| && count < totalLimit
      invariant Streamed(pages, live, keys, count, afterKey)
      decreases |live| - count
    {
      Explain(queries, t0, between, q, env);
      if env.canceledAt(queries) {
        return pages, Some(Canceled);
      }
      var chunkLimit := if sizer.keys < totalLimit - count then sizer.keys else totalLimit - count;
      Cursor(pages, live, keys, count, afterKey);
      var kvs, more := ReadPage(t0, TableAt(t0, between, queries), q, count, chunkLimit, afterKey);
      if kvs.Err? {
        return pages, Some(kvs.error);
      }
      var done := !more || count + |kvs.value| == totalLimit;
      sizer.Observe(env.size(kvs.value));
      var total := 0;
      if done {
        total := FinalCount(t0, TableAt(t0, between, queries + 1), q, count + |kvs.value|, more);
      }
      if env.sendFailsAt(queries) {
        return pages, Some(SendFailed);
      }
      if done {
        LastPageAnswers(t0, q, pages, count, afterKey, kvs.value, total, more);
        return pages + [Page(kvs.value, Some((total, more)))], None;
      }
      SendPage(pages, live, keys, count, afterKey, kvs.value);
      pages := pages + [Page(kvs.value, None)];
      count, queries := count + |kvs.value|, queries + 1;
      afterKey := kvs.value[|kvs.value| - 1].key;
    }
  }
}
