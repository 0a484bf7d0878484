/** The replicated record and the SQLite `records` table, a map from the
    primary key `revision` to the row. */
module Records {
  import opened Bytes

  datatype Option<+T> = None | Some(value: T)

  datatype Result<+T, +E> = Ok(value: T) | Err(error: E)

  /** The replication-significant columns. A NULL value reads back as the empty
      byte string; `replicated_at` and `crc` are local stamps and are left out. */
  datatype Record = Record(
    revision: int,
    key: Bytes,
    created: bool,
    deleted: bool,
    createRevision: int,
    prevRevision: int,
    version: int,
    lease: int,
    dek: int,
    value: Bytes,
    createdAt: Option<int>,
    compactedAt: Option<int>,
    leaderId: string)

  const MAX_INT64: int := 0x7fff_ffff_ffff_ffff

  type NodeId = string

  datatype PrimaryState = AsReplica | Starting | Active | Draining

  /** One storage request: answered, lost, or done with the answer lost. */
  datatype Attempt = Answered | Lost | Unanswered

  type Table = map<nat, Record>

  /** Every row sits under its own positive revision. */
  ghost predicate Keyed(t: Table) {
    forall r | r in t :: r > 0 && t[r].revision == r
  }

  /** The table holds exactly the revisions 1..n. */
  ghost predicate GapFree(t: Table, n: nat) {
    forall r: nat :: r in t <==> 1 <= r <= n
  }

  /** The rows of revisions up to `n`. */
  function UpTo(t: Table, n: nat): Table {
    map r | r in t && r <= n :: t[r]
  }

  predicate IsMax(m: nat, s: set<nat>) {
    m in s && forall r | r in s :: r <= m
  }

  lemma {:induction false} MaxExists(s: set<nat>) returns (m: nat)
    requires s != {}
    ensures IsMax(m, s)
  {
    var x :| x in s;
    if s == {x} {
      m := x;
    } else {
      var y := MaxExists(s - {x});
      m := if x < y then y else x;
      assert forall r | r in s :: r == x || r in s - {x};
    }
  }

  /** SELECT COALESCE(MAX(revision), 0) FROM records. */
  function MaxRev(t: Table): (m: nat)
    ensures forall r | r in t :: r <= m
    ensures t.Keys != {} ==> m in t
    ensures t.Keys == {} ==> m == 0
  {
    if t.Keys == {} then 0
    else
      assert exists m :: IsMax(m, t.Keys) by { var m := MaxExists(t.Keys); }
      var m: nat :| IsMax(m, t.Keys);
      m
  }

  lemma MaxRevGapFree(t: Table, n: nat)
    requires GapFree(t, n)
    ensures MaxRev(t) == n
  {
    assert n > 0 ==> n in t.Keys;
    assert n == 0 ==> t.Keys == {};
  }

  /** The revision of the newest row of key `k` at or below `upTo`, or 0:
      ROW_NUMBER() OVER (PARTITION BY key ORDER BY revision DESC) = 1. */
  function LatestRev(t: Table, k: Bytes, upTo: nat): (rev: nat)
    ensures rev > 0 ==> rev <= upTo && rev in t && t[rev].key == k
    ensures forall r | r in t && 0 < r <= upTo && t[r].key == k :: r <= rev
  {
    if upTo == 0 then 0
    else if upTo in t && t[upTo].key == k then upTo
    else LatestRev(t, k, upTo - 1)
  }

  /** LatestRev depends only on which rows of the key exist at or below the bound. */
  lemma LatestRevCongruent(t: Table, u: Table, k: Bytes, upTo: nat)
    requires forall r: nat | 0 < r <= upTo :: (r in t && t[r].key == k) <==> (r in u && u[r].key == k)
    ensures LatestRev(t, k, upTo) == LatestRev(u, k, upTo)
  {
  }

  predicate LiveAt(t: Table, k: Bytes, upTo: nat) {
    var r := LatestRev(t, k, upTo);
    r > 0 && !t[r].deleted
  }

  function KeysOf(t: Table): set<Bytes> {
    set r | r in t :: t[r].key
  }
}
