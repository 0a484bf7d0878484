/** Runs of transactions and compactions on one log, and
    DeriveCompactionRevision. */
module Compaction {
  import opened Bytes
  import opened Records
  import opened Mvcc
  import opened Erasure

  // ---- Whole runs ----

  datatype Op =
    | Txn(req: Request, at: int)
    | Execute(revision: int, at: int)

  type Outcome = Result<Record, InsertError>

  datatype Run = Run(table: Table, n: nat, outcomes: seq<Outcome>)

  ghost function Step(s: Run, op: Op, leader: string): Run {
    match op
    case Txn(q, at) =>
      var r := InsertRow(s.table, ToRecord(q, s.n + 1, leader), at);
      Run(if r.Ok? then s.table[s.n + 1 := r.value] else s.table, if r.Ok? then s.n + 1 else s.n, s.outcomes + [r])
    case Execute(c, at) =>
      s.(table := Compact(s.table, c, at))
  }

  ghost function Steps(s: Run, ops: seq<Op>, leader: string): Run {
    if ops == [] then s else Step(Steps(s, ops[..|ops| - 1], leader), ops[|ops| - 1], leader)
  }

  /** The same run with its compactions taken out. */
  ghost function Uncompacted(ops: seq<Op>): seq<Op> {
    if ops == [] then []
    else
      var init := Uncompacted(ops[..|ops| - 1]);
      if ops[|ops| - 1].Txn? then init + [ops[|ops| - 1]] else init
  }

  /** The log of a compacted run is the log of the uncompacted run with only
      superseded or deleted rows at or below the highest compaction erased;
      every transaction has the same outcome in both. */
  lemma {:induction false} CompactionInvisible(t: Table, n: nat, ops: seq<Op>, leader: string, c: int)
    requires LogInv(t, n) && leader != ""
    requires forall i | 0 <= i < |ops| :: ops[i].Execute? ==> ops[i].revision <= c
    ensures var s, p := Steps(Run(t, n, []), ops, leader), Steps(Run(t, n, []), Uncompacted(ops), leader);
            && s.n == p.n && s.outcomes == p.outcomes
            && LogInv(p.table, p.n) && ErasedBelow(p.table, s.table, c)
            && StoreAt(s.table, s.n) == StoreAt(p.table, p.n)
    decreases |ops|
  {
    if ops == [] {
      HeadsKept(t, t, c, n);
    } else {
      var last, init := ops[|ops| - 1], ops[..|ops| - 1];
      CompactionInvisible(t, n, init, leader, c);
      var s, p := Steps(Run(t, n, []), init, leader), Steps(Run(t, n, []), Uncompacted(init), leader);
      UncompactedSnoc(ops);
      StepInvisible(s, p, last, leader, c);
    }
  }

  lemma UncompactedSnoc(ops: seq<Op>)
    requires ops != []
    ensures var u := Uncompacted(ops); var init := Uncompacted(ops[..|ops| - 1]);
            if ops[|ops| - 1].Txn? then u != [] && u[..|u| - 1] == init && u[|u| - 1] == ops[|ops| - 1] else u == init
  {
  }

  lemma StepInvisible(s: Run, p: Run, op: Op, leader: string, c: int)
    requires s.n == p.n && s.outcomes == p.outcomes && leader != ""
    requires LogInv(p.table, p.n) && ErasedBelow(p.table, s.table, c)
    requires op.Execute? ==> op.revision <= c
    ensures var s', p' := Step(s, op, leader), if op.Txn? then Step(p, op, leader) else p;
            && s'.n == p'.n && s'.outcomes == p'.outcomes
            && LogInv(p'.table, p'.n) && ErasedBelow(p'.table, s'.table, c)
            && StoreAt(s'.table, s'.n) == StoreAt(p'.table, p'.n)
  {
    hide LogInv, ErasedBelow, StoreAt, InsertRow, Compact;
    match op
    case Txn(q, at) =>
      var rec := ToRecord(q, s.n + 1, leader);
      InsertIgnoresErasure(p.table, s.table, c, rec, at);
      TxnErased(p.table, s.table, c, s.n, rec, at);
    case Execute(d, at) =>
      CompactErases(p.table, s.table, c, d, at);
      LogIsGapFree(p.table, p.n);
      HeadsKept(p.table, Compact(s.table, d, at), c, p.n);
  }

  lemma TxnErased(a: Table, u: Table, c: int, n: nat, rec: Record, at: int)
    requires LogInv(a, n) && ErasedBelow(a, u, c) && rec.revision == n + 1
    ensures var r := InsertRow(a, rec, at);
            if r.Ok? then
              var b, v := a[n + 1 := r.value], u[n + 1 := r.value];
              LogInv(b, n + 1) && ErasedBelow(b, v, c) && StoreAt(v, n + 1) == StoreAt(b, n + 1)
            else StoreAt(u, n) == StoreAt(a, n)
  {
    hide ErasedBelow, StoreAt, InsertRow;
    var r := InsertRow(a, rec, at);
    if r.Ok? {
      InsertKeepsLog(a, n, rec, at);
      AppendErased(a, u, c, n, r.value);
      HeadsKept(a[n + 1 := r.value], u[n + 1 := r.value], c, n + 1);
    } else {
      HeadsKept(a, u, c, n);
    }
  }

  /** Rows up to the clock readings of their compaction. */
  ghost predicate SameButClock(u: Table, v: Table) {
    && (forall r :: r in u <==> r in v)
    && forall r | r in u :: u[r].compactedAt.Some? == v[r].compactedAt.Some? && v[r] == u[r].(compactedAt := v[r].compactedAt)
  }

  /** After a run whose compactions all stay at or below `c`, compacting at `c`
      equals one compaction at `c` of the run without any. */
  lemma LastCompactionSuffices(a: Table, u: Table, c: int, at: int, at': int)
    requires ErasedBelow(a, u, c) && c > 0
    ensures SameButClock(Compact(u, c, at), Compact(a, c, at'))
  {
  }

  /** Over every run: repeated or increasing compactions equal the last alone. */
  lemma CompactionsCollapse(t: Table, n: nat, ops: seq<Op>, leader: string, c: int, at: int, at': int)
    requires LogInv(t, n) && leader != "" && c > 0
    requires forall i | 0 <= i < |ops| :: ops[i].Execute? ==> ops[i].revision <= c
    ensures SameButClock(Compact(Steps(Run(t, n, []), ops, leader).table, c, at),
                         Compact(Steps(Run(t, n, []), Uncompacted(ops), leader).table, c, at'))
  {
    hide ErasedBelow, SameButClock, Compact;
    CompactionInvisible(t, n, ops, leader, c);
    LastCompactionSuffices(Steps(Run(t, n, []), Uncompacted(ops), leader).table, Steps(Run(t, n, []), ops, leader).table, c, at, at');
  }

  // ---- DeriveCompactionRevision ----

  predicate IsFirstUncompacted(t: Table, r: nat) {
    r in t && t[r].compactedAt.None? && forall x | x in t && t[x].compactedAt.None? :: r <= x
  }

  lemma {:induction false} FirstUncompactedExists(t: Table, r: nat)
    requires r in t && t[r].compactedAt.None?
    ensures exists f :: IsFirstUncompacted(t, f)
    decreases r
  {
    if !IsFirstUncompacted(t, r) {
      var x :| x in t && t[x].compactedAt.None? && x < r;
      FirstUncompactedExists(t, x);
    }
  }

  /** The contiguous compacted prefix, read off the first uncompacted row. */
  function DeriveCompactionRevision(t: Table): nat {
    if forall r | r in t :: t[r].compactedAt.Some? then MaxRev(t)
    else
      assert exists f :: IsFirstUncompacted(t, f) by {
        var r :| r in t && t[r].compactedAt.None?;
        FirstUncompactedExists(t, r);
      }
      var f: nat :| IsFirstUncompacted(t, f);
      if f <= 1 then 0 else f - 1
  }

  /** Of a gap-free table it is the last revision of the compacted prefix: all up
      to it are compacted and the next one is not, or is not there. */
  lemma DerivedIsPrefix(t: Table, n: nat)
    requires GapFree(t, n)
    ensures var d := DeriveCompactionRevision(t);
            && d <= n && (forall r: nat | 1 <= r <= d :: r in t && t[r].compactedAt.Some?)
            && (d < n <==> d + 1 in t) && (d < n ==> t[d + 1].compactedAt.None?)
  {
    MaxRevGapFree(t, n);
  }

  /** The derived revision stays within the executed bound, and marks a fully
      compacted prefix. */
  lemma DerivedFromErased(a: Table, u: Table, c: nat, n: nat)
    requires ErasedBelow(a, u, c) && GapFree(a, n) && AllUncompacted(a)
    ensures DeriveCompactionRevision(u) <= c
    ensures forall r: nat | 1 <= r <= DeriveCompactionRevision(u) :: r in u && u[r].compactedAt.Some?
  {
    var d := DeriveCompactionRevision(u);
    assert a.Keys == u.Keys;
    MaxRevGapFree(u, n);
    assert d > 0 ==> d in u && u[d].compactedAt.Some?;
    assert d > 0 ==> u[d] != a[d];
  }

  ghost predicate AllUncompacted(t: Table) {
    forall r | r in t :: t[r].compactedAt.None?
  }

  lemma {:induction false} TxnsLeaveUncompacted(t: Table, n: nat, ops: seq<Op>, leader: string)
    requires AllUncompacted(t) && forall i | 0 <= i < |ops| :: ops[i].Txn?
    ensures AllUncompacted(Steps(Run(t, n, []), ops, leader).table)
    decreases |ops|
  {
    if ops != [] {
      TxnsLeaveUncompacted(t, n, ops[..|ops| - 1], leader);
    }
  }

  lemma {:induction false} UncompactedAreTxns(ops: seq<Op>)
    ensures forall i | 0 <= i < |Uncompacted(ops)| :: Uncompacted(ops)[i].Txn?
    decreases |ops|
  {
    if ops != [] {
      UncompactedAreTxns(ops[..|ops| - 1]);
    }
  }

  /** After every run from an uncompacted log, the derived revision is at most
      the highest executed one and every row up to it is compacted. */
  lemma DerivedRevisionSound(t: Table, n: nat, ops: seq<Op>, leader: string, c: nat)
    requires LogInv(t, n) && leader != "" && AllUncompacted(t)
    requires forall i | 0 <= i < |ops| :: ops[i].Execute? ==> ops[i].revision <= c
    ensures var u := Steps(Run(t, n, []), ops, leader).table;
            && DeriveCompactionRevision(u) <= c
            && forall r: nat | 1 <= r <= DeriveCompactionRevision(u) :: r in u && u[r].compactedAt.Some?
  {
    hide DeriveCompactionRevision, ErasedBelow;
    CompactionInvisible(t, n, ops, leader, c);
    UncompactedAreTxns(ops);
    TxnsLeaveUncompacted(t, n, Uncompacted(ops), leader);
    var p := Steps(Run(t, n, []), Uncompacted(ops), leader);
    DerivedFromErased(p.table, Steps(Run(t, n, []), ops, leader).table, c, p.n);
  }

  // ---- Rows above the reader's revision ----

  /** With rows above revision `rev` in the table, as a follower holds after a
      rolled-back write, a compaction spares the head of `k` at `rev` exactly
      when the head lies above the compaction or nothing newer is stored. */
  lemma HeadSparedIffNotSuperseded(t: Table, c: nat, now: int, k: Bytes, rev: nat)
    requires LiveAt(t, k, rev) && t[LatestRev(t, k, rev)].compactedAt.None? && c > 0
    ensures var h := LatestRev(t, k, rev);
            Compact(t, c, now)[h] == t[h] <==> !(h <= c && exists x | x in t && x > rev :: t[x].key == k)
  {
  }
}
