/** How a quorum write in flight can complete: which replicas can be counted,
    and what a counted replica then stores. */
module Completion {
  import opened Records
  import opened Sets
  import opened Replicate
  import opened Replication
  import opened Durability

  /** A run while the transaction is in flight. */
  ghost predicate InFlight(b: Cluster, es: seq<Event>, s: Cluster) {
    WellFormed(b) && Run(b, es, s) && forall i | 0 <= i < |es| :: Meanwhile(es[i])
  }

  /** Only replica `k` and its streams have moved, and receipts were only added. */
  ghost predicate OnlyMoves(s: Cluster, s': Cluster, k: NodeId) {
    && s.txn.Some? && s'.txn.Some? && WellFormed(s) && WellFormed(s')
    && s'.txn.value == s.txn.value.(acked := s'.txn.value.acked)
    && s.txn.value.acked <= s'.txn.value.acked <= s.txn.value.acked + {k}
    && s'.nodes.Keys == s.nodes.Keys && s'.log == s.log && s'.next == s.next
    && forall n | n in s.nodes && n != k :: s'.nodes[n] == s.nodes[n] && s'.down[n] == s.down[n] && s'.up[n] == s.up[n]
  }

  /** `n` is counted, or enough others are. */
  predicate Counted(s: Cluster, n: NodeId) {
    s.txn.Some? && (n in s.txn.value.acked || |s.txn.value.acked| >= s.txn.value.required)
  }

  // ---- Runs ----

  lemma InFlightNil(s: Cluster)
    requires WellFormed(s)
    ensures InFlight(s, [], s)
  {
  }

  lemma InFlightCons(s: Cluster, e: Event, es: seq<Event>, s': Cluster)
    requires WellFormed(s) && Meanwhile(e) && Enabled(s, e) && InFlight(Step(s, e), es, s')
    ensures InFlight(s, [e] + es, s')
  {
    hide Step, Enabled;
    assert ([e] + es)[1..] == es;
  }

  lemma {:induction false} RunsCompose(a: Cluster, es: seq<Event>, b: Cluster, fs: seq<Event>, c: Cluster)
    requires InFlight(a, es, b) && InFlight(b, fs, c)
    ensures InFlight(a, es + fs, c)
    decreases |es|
  {
    hide Step, Enabled, WellFormed;
    if es == [] {
      assert es + fs == fs;
    } else {
      StepWellFormed(a, es[0]);
      var t := Step(a, es[0]);
      assert Meanwhile(es[0]);
      assert InFlight(t, es[1..], b);
      RunsCompose(t, es[1..], b, fs, c);
      InFlightCons(a, es[0], es[1..] + fs, c);
      assert es + fs == [es[0]] + (es[1..] + fs);
    }
  }

  lemma MovesTransitive(a: Cluster, b: Cluster, c: Cluster, k: NodeId)
    requires OnlyMoves(a, b, k) && OnlyMoves(b, c, k)
    ensures OnlyMoves(a, c, k)
  {
  }

  // ---- One replica ----

  /** A receipt of the transaction's revision is counted; any other is dropped. */
  lemma ReceiptStep(s: Cluster, n: NodeId)
    requires WellFormed(s) && s.txn.Some? && n in s.nodes && s.up[n] != []
    ensures Enabled(s, Receipt(n)) && OnlyMoves(s, Step(s, Receipt(n)), n)
    ensures var t := Step(s, Receipt(n));
            && t.nodes == s.nodes && t.down == s.down && t.up[n] == s.up[n][1..]
            && (s.up[n][0] == s.txn.value.row.revision ==> Counted(t, n))
  {
    hide WellFormed;
    ReadablyQueued(s, n);
    StepWellFormed(s, Receipt(n));
  }

  lemma ReadStep(s: Cluster, n: NodeId)
    requires WellFormed(s) && s.txn.Some? && n in s.nodes && s.down[n] != []
    ensures Enabled(s, Read(n)) && OnlyMoves(s, Step(s, Read(n)), n) && s.down[n][0] in s.down[n]
    ensures var t := Step(s, Read(n)); var m := s.down[n][0];
            && t.txn == s.txn && t.nodes[n] == Handle(s.nodes[n], m) && t.down[n] == s.down[n][1..]
            && t.up[n] == if m.RecordMsg? && !t.nodes[n].failed then s.up[n] + [m.rec.revision as nat] else s.up[n]
  {
    hide Handle, WellFormed;
    ReadablyQueued(s, n);
    StepWellFormed(s, Read(n));
  }

  lemma ReadablyQueued(s: Cluster, n: NodeId)
    requires WellFormed(s) && n in s.nodes
    ensures s.nodes.Keys == s.down.Keys == s.up.Keys && PositiveRevisions(s.down[n]) && AsWritten(s.down[n])
  {
  }

  /** The receipts queued before position `i` are read, then that one counts. */
  lemma {:induction false} ReceiptReached(s: Cluster, n: NodeId, i: nat) returns (es: seq<Event>, s': Cluster)
    requires WellFormed(s) && s.txn.Some? && n in s.nodes && i < |s.up[n]| && s.up[n][i] == s.txn.value.row.revision
    ensures InFlight(s, es, s') && OnlyMoves(s, s', n) && s'.nodes == s.nodes && Counted(s', n)
    decreases i
  {
    ReceiptStep(s, n);
    hide Step, Enabled, InFlight;
    var t := Step(s, Receipt(n));
    if i == 0 {
      es, s' := [], t;
      InFlightNil(t);
    } else {
      es, s' := ReceiptReached(t, n, i - 1);
      MovesTransitive(s, t, s', n);
    }
    InFlightCons(s, Receipt(n), es, s');
    es := [Receipt(n)] + es;
  }

  lemma QueueTail(f: Replica, q: seq<Msg>, i: nat)
    requires i < |q| && PositiveRevisions(q)
    ensures q[0] in q && PositiveRevisions(q[1..]) && PositiveRevisions(q[..i + 1]) && PositiveRevisions(q[1..][..i])
    ensures Drain(f, q[..i + 1]) == Drain(Handle(f, q[0]), q[1..][..i])
  {
    assert q[0] in q;
    assert q[..i + 1][1..] == q[1..][..i];
  }

  /** The messages before position `i` are read, then the record there is stored
      and receipted. */
  lemma {:induction false} RecordReached(s: Cluster, n: NodeId, i: nat) returns (es: seq<Event>, s': Cluster)
    requires WellFormed(s) && s.txn.Some? && n in s.nodes && i < |s.down[n]| && s.down[n][i].RecordMsg? && PositiveRevisions(s.down[n][..i + 1])
    requires !Drain(s.nodes[n], s.down[n][..i + 1]).failed
    ensures InFlight(s, es, s') && OnlyMoves(s, s', n)
    ensures s'.nodes[n] == Drain(s.nodes[n], s.down[n][..i + 1]) && s.down[n][i] in s.down[n]
    ensures s'.up[n] != [] && s'.up[n][|s'.up[n]| - 1] == s.down[n][i].rec.revision
    decreases i
  {
    ReadStep(s, n);
    QueueTail(s.nodes[n], s.down[n], i);
    hide Step, Enabled, InFlight, Handle, WellFormed, PositiveRevisions;
    var q, t := s.down[n], Step(s, Read(n));
    if i == 0 {
      assert q[1..][..0] == [];
      es, s' := [], t;
      InFlightNil(t);
    } else {
      es, s' := RecordReached(t, n, i - 1);
      MovesTransitive(s, t, s', n);
    }
    InFlightCons(s, Read(n), es, s');
    es := [Read(n)] + es;
  }

  /** The replica can still receipt the revision: a receipt is under way, or a
      record is queued and read without an error. */
  ghost predicate CanReceipt(s: Cluster, n: NodeId, rev: nat)
    requires WellFormed(s)
  {
    && n in s.nodes
    && (rev in s.up[n] || exists i :: RecordAt(s.nodes[n], s.down[n], i, rev))
  }

  ghost predicate RecordAt(f: Replica, q: seq<Msg>, i: int, rev: int) {
    && 0 <= i < |q| && q[i].RecordMsg? && q[i].rec.revision == rev
    && PositiveRevisions(q[..i + 1]) && !Drain(f, q[..i + 1]).failed
  }

  lemma RecordCounted(s: Cluster, n: NodeId, i: nat) returns (es: seq<Event>, s': Cluster)
    requires WellFormed(s) && s.txn.Some? && n in s.nodes && RecordAt(s.nodes[n], s.down[n], i, s.txn.value.row.revision)
    ensures InFlight(s, es, s') && OnlyMoves(s, s', n) && Counted(s', n)
    ensures s'.nodes[n] == Drain(s.nodes[n], s.down[n][..i + 1])
  {
    hide InFlight, Drain, Counted;
    var before, c := RecordReached(s, n, i);
    var receipts, last := ReceiptReached(c, n, |c.up[n]| - 1);
    RunsCompose(s, before, c, receipts, last);
    MovesTransitive(s, c, last, n);
    es, s' := before + receipts, last;
  }

  lemma ReplicaCounted(s: Cluster, n: NodeId) returns (es: seq<Event>, s': Cluster)
    requires WellFormed(s) && s.txn.Some? && s.txn.value.row.revision >= 0 && CanReceipt(s, n, s.txn.value.row.revision)
    ensures InFlight(s, es, s') && OnlyMoves(s, s', n) && Counted(s', n)
  {
    hide InFlight, OnlyMoves, Counted, RecordAt;
    if s.txn.value.row.revision in s.up[n] {
      var i :| 0 <= i < |s.up[n]| && s.up[n][i] == s.txn.value.row.revision;
      es, s' := ReceiptReached(s, n, i);
    } else {
      var i :| RecordAt(s.nodes[n], s.down[n], i, s.txn.value.row.revision);
      RecordIndex(s.nodes[n], s.down[n], i, s.txn.value.row.revision);
      es, s' := RecordCounted(s, n, i);
    }
  }

  lemma RecordIndex(f: Replica, q: seq<Msg>, i: int, rev: int)
    requires RecordAt(f, q, i, rev)
    ensures 0 <= i < |q|
  {
  }

  /** Replicas outside `ns` stand still. */
  ghost predicate OthersStand(s: Cluster, s': Cluster, ns: set<NodeId>) {
    && s.txn.Some? && s'.txn.Some? && WellFormed(s) && WellFormed(s') && s'.nodes.Keys == s.nodes.Keys
    && s'.txn.value == s.txn.value.(acked := s'.txn.value.acked) && s.txn.value.acked <= s'.txn.value.acked
    && forall n | n in s.nodes && n !in ns :: s'.nodes[n] == s.nodes[n]
  }

  lemma StillCanReceipt(s: Cluster, t: Cluster, k: NodeId, n: NodeId, rev: nat)
    requires OnlyMoves(s, t, k) && n != k && CanReceipt(s, n, rev)
    ensures CanReceipt(t, n, rev)
  {
    hide RecordAt;
  }

  lemma OthersStandToo(s: Cluster, t: Cluster, s': Cluster, k: NodeId, ns: set<NodeId>)
    requires k in ns && OnlyMoves(s, t, k) && OthersStand(t, s', ns - {k})
    ensures OthersStand(s, s', ns)
  {
  }

  predicate Gathered(s: Cluster, ns: set<NodeId>) {
    s.txn.Some? && (ns <= s.txn.value.acked || |s.txn.value.acked| >= s.txn.value.required)
  }

  lemma GatheredToo(t: Cluster, s': Cluster, k: NodeId, ns: set<NodeId>)
    requires k in ns && Counted(t, k) && OthersStand(t, s', ns - {k}) && Gathered(s', ns - {k})
    ensures Gathered(s', ns)
  {
    if k !in t.txn.value.acked {
      SubsetCount(t.txn.value.acked, s'.txn.value.acked);
    }
  }

  lemma MovedTxn(s: Cluster, t: Cluster, k: NodeId)
    requires OnlyMoves(s, t, k)
    ensures s.txn.Some? && t.txn.Some? && WellFormed(t) && t.txn.value.row == s.txn.value.row
  {
  }

  lemma NoneGathered(s: Cluster, ns: set<NodeId>)
    requires WellFormed(s) && s.txn.Some? && ns == {}
    ensures OthersStand(s, s, ns) && Gathered(s, ns)
  {
  }

  /** Any replicas that can receipt are all counted, unless enough are before. */
  lemma {:induction false} AllCounted(s: Cluster, ns: set<NodeId>) returns (es: seq<Event>, s': Cluster)
    requires WellFormed(s) && s.txn.Some? && s.txn.value.row.revision >= 0
    requires forall n | n in ns :: CanReceipt(s, n, s.txn.value.row.revision)
    ensures InFlight(s, es, s') && OthersStand(s, s', ns) && Gathered(s', ns)
    decreases |ns|
  {
    hide InFlight, OthersStand, Gathered, CanReceipt, Counted, WellFormed, OnlyMoves;
    if ns == {} {
      es, s' := [], s;
      InFlightNil(s);
      NoneGathered(s, ns);
    } else {
      var k :| k in ns;
      var first, t := ReplicaCounted(s, k);
      MovedTxn(s, t, k);
      forall n | n in ns - {k} ensures CanReceipt(t, n, s.txn.value.row.revision) {
        StillCanReceipt(s, t, k, n, s.txn.value.row.revision);
      }
      var rest, last := AllCounted(t, ns - {k});
      RunsCompose(s, first, t, rest, last);
      OthersStandToo(s, t, last, k, ns);
      GatheredToo(t, last, k, ns);
      es, s' := first + rest, last;
    }
  }

  // ---- What a counted replica stores ----

  /** In every state reached while the write is in flight, a counted `n` stores
      the row. */
  ghost predicate CountedHolds(b: Cluster, n: NodeId, row: Record) {
    forall es, s :: InFlight(b, es, s) && s.txn.Some? && n in s.txn.value.acked ==> n in s.nodes && Holds(s.nodes[n], row)
  }

  /** Its queue is read to the end without an error. */
  ghost predicate Live(s: Cluster, n: NodeId) {
    n in s.nodes && n in s.down && PositiveRevisions(s.down[n]) && !Drain(s.nodes[n], s.down[n]).failed
  }

  lemma {:induction false} PrefixLive(f: Replica, q: seq<Msg>, i: nat)
    requires PositiveRevisions(q) && i <= |q| && !Drain(f, q).failed
    ensures PositiveRevisions(q[..i]) && !Drain(f, q[..i]).failed
    decreases |q|
  {
    if i == 0 {
      FailedFirst(f, q);
      assert q[..0] == [];
    } else {
      QueueTail(f, q, i - 1);
      PrefixLive(Handle(f, q[0]), q[1..], i - 1);
    }
  }

  lemma {:induction false} FailedFirst(f: Replica, q: seq<Msg>)
    requires PositiveRevisions(q) && !Drain(f, q).failed
    ensures !f.failed
    decreases |q|
  {
    if q != [] {
      assert q[0] in q;
      FailedFirst(Handle(f, q[0]), q[1..]);
    }
  }

  /** Reading up to a record without an error leaves exactly that record stored. */
  lemma {:induction false} DrainStores(f: Replica, q: seq<Msg>, i: nat)
    requires i < |q| && PositiveRevisions(q[..i + 1]) && q[i].RecordMsg? && !Drain(f, q[..i + 1]).failed
    ensures var g, r := Drain(f, q[..i + 1]), q[i].rec.revision; r > 0 && r as nat in g.rows && g.rows[r as nat] == q[i].rec
    decreases i
  {
    hide ReplicateTentativeRecord;
    var p := q[..i + 1];
    assert p[i] in p && p[0] in p;
    if i == 0 {
      assert p[1..] == [];
      ReplicatedRecordStored(f.rows, q[0].rec, f.committed);
    } else {
      assert p[1..] == q[1..][..i];
      DrainStores(Handle(f, p[0]), q[1..], i - 1);
    }
  }

  lemma BeginFacts(s: Cluster, begin: Event)
    requires PrimaryInv(s) && begin.QuorumBegin? && Enabled(s, begin)
    ensures var b := Step(s, begin); var row := Row(s, begin).value;
            && WellFormed(b) && row.revision == s.next && b.nodes == s.nodes && b.up == s.up && b.txn.Some?
            && b.txn.value.row == row && b.txn.value.acked == {} && b.txn.value.required == begin.required > 0
            && (forall n | n in s.nodes :: n in b.txn.value.clean <==> Clean(s, n, row))
            && forall n | n in s.nodes :: b.down[n] == if n in begin.dropped then s.down[n] else s.down[n] + [RecordMsg(row)]
  {
    StepWellFormed(s, begin);
    RowRevision(s, begin);
    hide Clean;
  }

  lemma OnlyOne(a: set<NodeId>, n: NodeId)
    requires a <= {n} && |a| > 0
    ensures n in a
  {
  }

  lemma QueuedAfterBegin(s: Cluster, begin: Event, n: NodeId, i: nat)
    requires PrimaryInv(s) && begin.QuorumBegin? && Enabled(s, begin) && n in s.nodes && Live(Step(s, begin), n)
    requires i < |Step(s, begin).down[n]| && Step(s, begin).down[n][i].RecordMsg? && Step(s, begin).down[n][i].rec.revision == s.next
    ensures var b := Step(s, begin); RecordAt(b.nodes[n], b.down[n], i, s.next)
  {
    hide Step, Enabled, Drain;
    var b := Step(s, begin);
    PrefixLive(b.nodes[n], b.down[n], i + 1);
  }

  /** Another row of the revision that the replica comes to read is stored. */
  ghost predicate Takes(f: Replica, q: seq<Msg>, row: Record)
    requires PositiveRevisions(q)
    decreases |q|
  {
    q == [] || f.failed ||
    (assert q[0] in q; (Other(q[0], row) ==> !Handle(f, q[0]).failed) && Takes(Handle(f, q[0]), q[1..], row))
  }

  lemma {:induction false} OtherRead(f: Replica, q: seq<Msg>, row: Record) returns (i: nat)
    requires PositiveRevisions(q) && !OthersUnread(f, q, row) && Takes(f, q, row)
    ensures i < |q| && Other(q[i], row) && RecordAt(f, q, i, row.revision)
    decreases |q|
  {
    hide Handle;
    assert q[0] in q;
    if Other(q[0], row) {
      i := 0;
      QueueTail(f, q, 0);
      assert q[1..][..0] == [];
    } else {
      i := OtherRead(Handle(f, q[0]), q[1..], row);
      QueueTail(f, q, i + 1);
      assert q[1..][..i + 1] == q[1..][..i + 1];
      i := i + 1;
    }
  }

  lemma OtherStored(f: Replica, q: seq<Msg>, i: nat, row: Record)
    requires i < |q| && Other(q[i], row) && RecordAt(f, q, i, row.revision) && q[i].rec.compactedAt.None?
    ensures !Holds(Drain(f, q[..i + 1]), row)
  {
    hide Drain;
    DrainStores(f, q, i);
  }

  lemma SamePrefix(f: Replica, q: seq<Msg>, q': seq<Msg>, i: nat, rev: int)
    requires i < |q| && q <= q' && RecordAt(f, q, i, rev)
    ensures RecordAt(f, q', i, rev) && q'[i] == q[i] && q'[..i + 1] == q[..i + 1]
  {
    assert q'[..i + 1] == q[..i + 1];
  }

  /** A replica that is not clean can be counted without storing the row. */
  lemma UncleanCounted(s: Cluster, begin: Event, n: NodeId) returns (es: seq<Event>, s': Cluster)
    requires PrimaryInv(s) && begin.QuorumBegin? && Enabled(s, begin) && n in s.nodes
    requires Takes(s.nodes[n], s.down[n], Row(s, begin).value) && !Clean(s, n, Row(s, begin).value)
    ensures InFlight(Step(s, begin), es, s') && OnlyMoves(Step(s, begin), s', n)
    ensures n in s'.txn.value.acked && !Holds(s'.nodes[n], Row(s, begin).value)
  {
    hide Step, Enabled, Row, InFlight, PrimaryInv, WellFormed, Takes, OthersUnread, Holds;
    PrimaryWellFormed(s);
    BeginInserts(s, begin);
    BeginFacts(s, begin);
    ReadablyQueued(s, n);
    var b, row := Step(s, begin), Row(s, begin).value;
    if s.next in s.up[n] && !Holds(s.nodes[n], row) {
      var i :| 0 <= i < |b.up[n]| && b.up[n][i] == s.next;
      es, s' := ReceiptReached(b, n, i);
    } else {
      es, s' := OtherCounted(b, n, s.down[n]);
    }
    OnlyOne(s'.txn.value.acked, n);
  }

  lemma OtherCounted(b: Cluster, n: NodeId, q: seq<Msg>) returns (es: seq<Event>, s': Cluster)
    requires WellFormed(b) && b.txn.Some? && n in b.nodes && q <= b.down[n] && PositiveRevisions(q) && AsWritten(q)
    requires !OthersUnread(b.nodes[n], q, b.txn.value.row) && Takes(b.nodes[n], q, b.txn.value.row)
    ensures InFlight(b, es, s') && OnlyMoves(b, s', n) && Counted(s', n) && !Holds(s'.nodes[n], b.txn.value.row)
  {
    hide InFlight, Drain, RecordAt, Takes, OthersUnread, Holds, WellFormed, PositiveRevisions;
    ReadablyQueued(b, n);
    var i := OtherRead(b.nodes[n], q, b.txn.value.row);
    assert q[i] in q;
    OtherStored(b.nodes[n], q, i, b.txn.value.row);
    SamePrefix(b.nodes[n], q, b.down[n], i, b.txn.value.row.revision);
    es, s' := RecordCounted(b, n, i);
  }

  /** A clean replica is counted only once it stores the row. */
  lemma CleanCounted(s: Cluster, begin: Event, n: NodeId, es: seq<Event>, s': Cluster)
    requires PrimaryInv(s) && DurInv(s) && begin.QuorumBegin? && Enabled(s, begin) && n in s.nodes && Clean(s, n, Row(s, begin).value)
    requires InFlight(Step(s, begin), es, s')
    ensures s'.txn.Some? && s'.nodes.Keys == s.nodes.Keys && (n in s'.txn.value.acked ==> Holds(s'.nodes[n], Row(s, begin).value))
  {
    BeginFacts(s, begin);
    StepKeepsPrimary(s, begin);
    StepKeepsDurInv(s, begin);
    hide Step, Enabled, Row, Clean, Run;
    RunKeepsDurInv(Step(s, begin), es, s');
    TxnStays(Step(s, begin), es, s');
  }

  /** Exactly the clean replicas are counted only with the row stored. */
  lemma CountedHoldsIff(s: Cluster, begin: Event, n: NodeId)
    requires PrimaryInv(s) && DurInv(s) && begin.QuorumBegin? && Enabled(s, begin) && n in s.nodes
    requires Takes(s.nodes[n], s.down[n], Row(s, begin).value)
    ensures CountedHolds(Step(s, begin), n, Row(s, begin).value) <==> Clean(s, n, Row(s, begin).value)
  {
    hide Step, Enabled, Row, Clean, InFlight, Takes, PrimaryInv, WellFormed;
    PrimaryWellFormed(s);
    BeginInserts(s, begin);
    var b, row := Step(s, begin), Row(s, begin).value;
    if Clean(s, n, row) {
      forall es, s' | InFlight(b, es, s') && s'.txn.Some? && n in s'.txn.value.acked ensures n in s'.nodes && Holds(s'.nodes[n], row) {
        CleanCounted(s, begin, n, es, s');
      }
    } else {
      var es, s' := UncleanCounted(s, begin, n);
    }
  }

  /** In every completion of the write each counted replica stores the row. */
  ghost predicate AckHolds(b: Cluster, row: Record) {
    forall es, s :: InFlight(b, es, s) && Enabled(s, QuorumCommit({})) ==> AllHold(s, row)
  }

  ghost predicate AllHold(s: Cluster, row: Record) {
    s.txn.Some? && forall n | n in s.txn.value.acked :: n in s.nodes && Holds(s.nodes[n], row)
  }

  /** The replicas that a live stream brings the record can all receipt it. */
  lemma SentCanReceipt(s: Cluster, begin: Event, n: NodeId)
    requires PrimaryInv(s) && begin.QuorumBegin? && Enabled(s, begin) && n in s.nodes && n !in begin.dropped && Live(Step(s, begin), n)
    ensures WellFormed(Step(s, begin)) && CanReceipt(Step(s, begin), n, s.next)
  {
    BeginFacts(s, begin);
    hide Step, Enabled, Row, Live, Drain;
    QueuedAfterBegin(s, begin, n, |s.down[n]|);
  }

  /** Whatever the unclean replica, a completion counts it first. */
  lemma UncleanCompletion(s: Cluster, begin: Event, n: NodeId, ns: set<NodeId>) returns (es: seq<Event>, s': Cluster)
    requires PrimaryInv(s) && begin.QuorumBegin? && Enabled(s, begin) && n in s.nodes
    requires Takes(s.nodes[n], s.down[n], Row(s, begin).value) && !Clean(s, n, Row(s, begin).value)
    requires |ns| >= begin.required && (StepWellFormed(s, begin); forall k | k in ns :: CanReceipt(Step(s, begin), k, s.next))
    ensures InFlight(Step(s, begin), es, s') && Enabled(s', QuorumCommit({})) && !AllHold(s', Row(s, begin).value)
  {
    BeginFacts(s, begin);
    hide Step, Row, Clean, InFlight, Takes, CanReceipt, Holds, PrimaryInv, WellFormed;
    PrimaryWellFormed(s);
    var b := Step(s, begin);
    var first, c := UncleanCounted(s, begin, n);
    forall k | k in ns - {n} ensures CanReceipt(c, k, s.next) {
      StillCanReceipt(b, c, n, k, s.next);
    }
    var rest, last := AllCounted(c, ns - {n});
    RunsCompose(b, first, c, rest, last);
    es, s' := first + rest, last;
    EnoughGathered(last, ns, n);
  }

  lemma EnoughGathered(s: Cluster, ns: set<NodeId>, n: NodeId)
    requires Gathered(s, ns - {n}) && n in s.txn.value.acked && |ns| >= s.txn.value.required
    ensures Enabled(s, QuorumCommit({}))
  {
    if ns - {n} <= s.txn.value.acked {
      SubsetCount(ns, s.txn.value.acked);
    }
  }

  /** Where enough replicas can receipt: every completion leaves every counted
      replica with the row if and only if every replica was clean when the
      write began. */
  lemma AckHoldsIff(s: Cluster, begin: Event, ns: set<NodeId>)
    requires PrimaryInv(s) && DurInv(s) && begin.QuorumBegin? && Enabled(s, begin)
    requires forall n | n in s.nodes :: Takes(s.nodes[n], s.down[n], Row(s, begin).value)
    requires |ns| >= begin.required && (StepWellFormed(s, begin); forall k | k in ns :: CanReceipt(Step(s, begin), k, s.next))
    ensures AckHolds(Step(s, begin), Row(s, begin).value) <==> forall n | n in s.nodes :: Clean(s, n, Row(s, begin).value)
  {
    hide Step, Enabled, Row, Clean, InFlight, Takes, Holds, CanReceipt, PrimaryInv;
    PrimaryWellFormed(s);
    BeginInserts(s, begin);
    var b, row := Step(s, begin), Row(s, begin).value;
    if n :| n in s.nodes && !Clean(s, n, row) {
      var es, s' := UncleanCompletion(s, begin, n, ns);
    } else {
      forall es, s' | InFlight(b, es, s') && Enabled(s', QuorumCommit({})) ensures AllHold(s', row) {
        CommitInFlight(s');
        CleanCompletion(s, begin, es, s');
      }
    }
  }

  lemma BeginInserts(s: Cluster, begin: Event)
    requires begin.QuorumBegin? && Enabled(s, begin)
    ensures Row(s, begin).Ok?
  {
  }

  lemma CommitInFlight(s: Cluster)
    requires Enabled(s, QuorumCommit({}))
    ensures s.txn.Some?
  {
  }

  lemma CleanCompletion(s: Cluster, begin: Event, es: seq<Event>, s': Cluster)
    requires PrimaryInv(s) && DurInv(s) && begin.QuorumBegin? && Enabled(s, begin) && InFlight(Step(s, begin), es, s')
    requires forall n | n in s.nodes :: Clean(s, n, Row(s, begin).value)
    requires s'.txn.Some?
    ensures AllHold(s', Row(s, begin).value)
  {
    BeginFacts(s, begin);
    StepKeepsPrimary(s, begin);
    StepKeepsDurInv(s, begin);
    hide Step, Enabled, Row, Clean, InFlight, Run, OwnReceipts, OnlySentUnderWay;
    FlightKeepsAcked(Step(s, begin), es, s');
    forall n | n in s'.txn.value.acked ensures n in s'.nodes && Holds(s'.nodes[n], Row(s, begin).value) {
      CleanCounted(s, begin, n, es, s');
    }
  }

  lemma FlightKeepsAcked(b: Cluster, es: seq<Event>, s: Cluster)
    requires PrimaryInv(b) && DurInv(b) && b.txn.Some? && InFlight(b, es, s)
    ensures s.txn.Some? && s.txn.value.acked <= b.nodes.Keys
  {
    hide Run;
    RunKeepsDurInv(b, es, s);
    TxnStays(b, es, s);
  }
}
