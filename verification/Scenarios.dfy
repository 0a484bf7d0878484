/** Runs from the first term of an empty cluster in which a reused revision or a
    compaction goes wrong. */
module Scenarios {
  import opened Bytes
  import opened Records
  import opened Mvcc
  import opened Replicate
  import opened Replication
  import opened Durability
  import opened Completion
  import opened Retention
  import Election
  import Failover

  const KEY: Bytes := [1]

  function Fresh(): Replica {
    Replica(map[], 0, {}, [], [], false)
  }

  /** A term over an empty log, every session just opened. */
  function FirstTerm(ns: set<NodeId>): Cluster {
    Cluster(map[], map[], 1, 0, None, [], map[], map[], map n | n in ns :: Fresh(), map n | n in ns :: [], map n | n in ns :: [], {})
  }

  lemma FirstTermStarts(ns: set<NodeId>)
    ensures TermStart(FirstTerm(ns))
  {
  }

  /** A create of the key by quorum, one receipt required. */
  function Create1(v: Bytes, dropped: set<NodeId>): Event {
    QuorumBegin(Create(KEY, v, 0), "p", 0, 1, dropped)
  }

  function Row1(v: Bytes): (r: Record)
    ensures InsertRow(map[], ToRecord(Create(KEY, v, 0), 1, "p"), 0) == Ok(r) && r.revision == 1 && r.value == v
  {
    InsertRow(map[], ToRecord(Create(KEY, v, 0), 1, "p"), 0).value
  }

  /** Storing a record of revision 1 over none or over another. */
  lemma Stored1(t: Table, v: Bytes)
    requires t == map[] || exists u :: t == map[1 := Row1(u)]
    ensures ReplicateTentativeRecord(t, Row1(v), 0) == Outcome(map[1 := Row1(v)], None)
  {
    TentativeAccepted(t, map[], 0, Row1(v));
  }

  function Holding(v: Bytes): Replica {
    Replica(map[1 := Row1(v)], 0, {1}, [], [], false)
  }

  lemma Handled1(f: Replica, v: Bytes)
    requires f == Fresh() || exists u :: f == Holding(u)
    ensures Handle(f, RecordMsg(Row1(v))) == Holding(v)
  {
    Stored1(f.rows, v);
  }

  /** Revision 1 is next and its gate is free. */
  ghost predicate AtFirst(s: Cluster) {
    WellFormed(s) && s.log == map[] && s.rows == map[] && s.next == 1 && s.committed == 0 && s.txn.None?
  }

  lemma Begin1(s: Cluster, v: Bytes, dropped: set<NodeId>)
    requires AtFirst(s)
    ensures var e := Create1(v, dropped); var row := Row1(v);
            && Enabled(s, e) && Row(s, e) == Ok(row) && WellFormed(Step(s, e))
            && Step(s, e) == s.(txn := Some(Txn(row, 1, {}, (set n | n in s.nodes && Clean(s, n, row)))),
                                down := Broadcast(s.down, RecordMsg(row), dropped), sent := s.sent + {1})
  {
    hide InsertRow, ToRecord, Clean;
    var row := Row1(v);
    assert Row(s, Create1(v, dropped)) == Ok(row);
    StepWellFormed(s, Create1(v, dropped));
  }

  lemma Read1(s: Cluster, n: NodeId, v: Bytes)
    requires WellFormed(s) && n in s.nodes && s.down[n] == [RecordMsg(Row1(v))] && (s.nodes[n] == Fresh() || exists u :: s.nodes[n] == Holding(u))
    ensures Enabled(s, Read(n)) && WellFormed(Step(s, Read(n)))
    ensures Step(s, Read(n)) == s.(nodes := s.nodes[n := Holding(v)], down := s.down[n := []], up := s.up[n := s.up[n] + [1]])
  {
    Handled1(s.nodes[n], v);
    StepWellFormed(s, Read(n));
    hide Handle;
    assert s.down[n][1..] == [];
  }

  /** A first attempt at revision 1 that replica `n` alone reads, and that times
      out: its record stays stored at `n` and its receipt under way. */
  lemma RolledBack(ns: set<NodeId>, n: NodeId, v: Bytes) returns (past: seq<Event>, s: Cluster)
    requires n in ns
    ensures WellFormed(FirstTerm(ns)) && Run(FirstTerm(ns), past, s) && AtFirst(s)
    ensures s == FirstTerm(ns).(nodes := FirstTerm(ns).nodes[n := Holding(v)], up := FirstTerm(ns).up[n := [1]], sent := {1})
  {
    hide Step, Row1, Holding, Clean, WellFormed;
    var s0, e := FirstTerm(ns), Create1(v, ns - {n});
    FirstTermStarts(ns);
    AtFirstTerm(ns);
    Begin1(s0, v, ns - {n});
    var s1 := Step(s0, e);
    assert s1.down[n] == [RecordMsg(Row1(v))];
    Read1(s1, n, v);
    var s2 := Step(s1, Read(n));
    assert s2.up[n] == [1];
    assert s2.up == s0.up[n := [1]];
    assert s2.down == s0.down && s2.sent == {1};
    Abort1(s2);
    s := s2.(txn := None);
    RunThree(s0, e, s1, Read(n), s2, QuorumAbort, s);
    past := [e, Read(n), QuorumAbort];
  }

  lemma AtFirstTerm(ns: set<NodeId>)
    ensures AtFirst(FirstTerm(ns))
  {
  }

  lemma Abort1(s: Cluster)
    requires WellFormed(s) && s.txn.Some?
    ensures Enabled(s, QuorumAbort) && Step(s, QuorumAbort) == s.(txn := None) && WellFormed(s.(txn := None))
  {
  }

  lemma RunThree(s0: Cluster, e0: Event, s1: Cluster, e1: Event, s2: Cluster, e2: Event, s3: Cluster)
    requires WellFormed(s0) && Enabled(s0, e0) && Step(s0, e0) == s1 && WellFormed(s1) && Enabled(s1, e1) && Step(s1, e1) == s2
    requires WellFormed(s2) && Enabled(s2, e2) && Step(s2, e2) == s3
    ensures Run(s0, [e0, e1, e2], s3)
  {
    hide Step, Enabled, WellFormed, Run;
    RunNil(s0);
    assert [] + [e0] == [e0] && [e0] + [e1] == [e0, e1] && [e0, e1] + [e2] == [e0, e1, e2];
    RunSnoc(s0, [], s0, e0);
    RunSnoc(s0, [e0], s1, e1);
    RunSnoc(s0, [e0, e1], s2, e2);
  }

  /** The write as acknowledged, nothing further happening. */
  ghost function AtAck(s: Cluster, begin: Event, flight: seq<Event>, ready: Cluster, dropped: set<NodeId>): QuorumWrite
    requires WellFormed(ready) && Enabled(ready, QuorumCommit(dropped))
  {
    QuorumWrite(s, begin, flight, ready, dropped, [], Step(ready, QuorumCommit(dropped)))
  }

  lemma AtAckHappens(s: Cluster, begin: Event, flight: seq<Event>, ready: Cluster, dropped: set<NodeId>)
    requires WellFormed(s) && begin.QuorumBegin? && Enabled(s, begin) && InFlight(Step(s, begin), flight, ready)
    requires WellFormed(ready) && Enabled(ready, QuorumCommit(dropped))
    ensures Happens(AtAck(s, begin, flight, ready, dropped))
  {
    StepWellFormed(ready, QuorumCommit(dropped));
    hide Step, Enabled, InFlight;
    InFlightNil(Step(ready, QuorumCommit(dropped)));
  }

  lemma AckedBy(s0: Cluster, past: seq<Event>, s: Cluster, v: Bytes, dropped: set<NodeId>, flight: seq<Event>, ready: Cluster, missed: set<NodeId>)
    returns (w: QuorumWrite)
    requires TermStart(s0) && Run(s0, past, s) && AtFirst(s) && (Begin1(s, v, dropped); InFlight(Step(s, Create1(v, dropped)), flight, ready))
    requires WellFormed(ready) && Enabled(ready, QuorumCommit(missed))
    ensures w == AtAck(s, Create1(v, dropped), flight, ready, missed) && Acked(w) && Written(w) == Row1(v)
    ensures w.now.nodes == ready.nodes && w.now.rows == map[1 := Row1(v)]
  {
    hide Run, InFlight, TermStart, Row1, InsertRow;
    Begin1(s, v, dropped);
    AtAckHappens(s, Create1(v, dropped), flight, ready, missed);
    w := AtAck(s, Create1(v, dropped), flight, ready, missed);
    AckedInTerm(s0, past, w);
    CommitFacts(w);
    FlightLog(w);
  }

  lemma FlightLog(w: QuorumWrite)
    requires Acked(w) && w.before.rows == map[] && w.before.next == 1
    ensures Step(w.ready, QuorumCommit(w.dropped)).rows == map[1 := Written(w)]
  {
    BeginFacts(w.before, w.begin);
    hide Run, Row, Clean;
    TxnStays(Step(w.before, w.begin), w.flight, w.ready);
  }

  lemma OneStep(s: Cluster, e: Event)
    requires WellFormed(s) && Meanwhile(e) && Enabled(s, e)
    ensures InFlight(s, [e], Step(s, e))
  {
    StepWellFormed(s, e);
    hide Step, Enabled;
    InFlightNil(Step(s, e));
    InFlightCons(s, e, [], Step(s, e));
    assert [e] + [] == [e];
  }

  /** QuorumBegin, Read, QuorumAbort, QuorumBegin, Receipt, QuorumCommit: the
      second write is acknowledged on the receipt of the first, by a replica
      that has never seen it. */
  lemma StaleReceiptAcked(a: NodeId) returns (s0: Cluster, past: seq<Event>, w: QuorumWrite)
    ensures TermStart(s0) && Run(s0, past, w.before) && Acked(w) && w.flight == [Receipt(a)] && w.rest == []
    ensures w.ready.txn.Some? && a in w.ready.txn.value.acked && a in w.now.nodes && !Holds(w.now.nodes[a], Written(w))
  {
    hide Step, Run, InFlight, Row1, Clean, TermStart, Happens, WellFormed;
    var ns: set<NodeId> := {a};
    var s;
    past, s := RolledBack(ns, a, [1]);
    s0 := FirstTerm(ns);
    FirstTermStarts(ns);
    Begin1(s, [2], {});
    var b := Step(s, Create1([2], {}));
    ReceiptStep(b, a);
    OneStep(b, Receipt(a));
    var ready := Step(b, Receipt(a));
    OnlyOne(ready.txn.value.acked, a);
    w := AckedBy(s0, past, s, [2], {}, [Receipt(a)], ready, {});
  }

  /** The rolled-back attempt's receipt is read after the abort and so dropped. */
  lemma LeftoverStored(a: NodeId, c: NodeId) returns (past: seq<Event>, s: Cluster)
    requires a != c
    ensures WellFormed(FirstTerm({a, c})) && Run(FirstTerm({a, c}), past, s) && AtFirst(s)
    ensures s == FirstTerm({a, c}).(nodes := FirstTerm({a, c}).nodes[c := Holding([1])], sent := {1})
  {
    hide Step, Run, Row1, Holding, WellFormed;
    var ns: set<NodeId> := {a, c};
    var t;
    past, t := RolledBack(ns, c, [1]);
    DropReceipt(t, c);
    s := Step(t, Receipt(c));
    assert s.up == FirstTerm(ns).up;
    RunSnoc(FirstTerm(ns), past, t, Receipt(c));
    past := past + [Receipt(c)];
  }

  lemma DropReceipt(s: Cluster, n: NodeId)
    requires WellFormed(s) && s.txn.None? && n in s.up && s.up[n] == [1]
    ensures Enabled(s, Receipt(n)) && Step(s, Receipt(n)) == s.(up := s.up[n := []]) && WellFormed(s.(up := s.up[n := []]))
  {
    assert s.up[n][1..] == [];
  }

  /** Replica `c` misses the second attempt; `a` reads and receipts it. */
  lemma SecondAttempt(s: Cluster, a: NodeId, c: NodeId) returns (flight: seq<Event>, ready: Cluster)
    requires a != c && AtFirst(s) && s == FirstTerm({a, c}).(nodes := FirstTerm({a, c}).nodes[c := Holding([1])], sent := {1})
    ensures WellFormed(s) && Enabled(s, Create1([2], {c})) && InFlight(Step(s, Create1([2], {c})), flight, ready)
    ensures WellFormed(ready) && Enabled(ready, QuorumCommit({c})) && ready.nodes == s.nodes[a := Holding([2])]
  {
    hide Step, Run, InFlight, Row1, Holding, Clean, WellFormed;
    Begin1(s, [2], {c});
    var b := Step(s, Create1([2], {c}));
    assert b.down[a] == [RecordMsg(Row1([2]))];
    Read1(b, a, [2]);
    OneStep(b, Read(a));
    var r := Step(b, Read(a));
    ReceiptStep(r, a);
    OneStep(r, Receipt(a));
    ready := Step(r, Receipt(a));
    RunsCompose(b, [Read(a)], r, [Receipt(a)], ready);
    flight := [Read(a)] + [Receipt(a)];
    OnlyOne(ready.txn.value.acked, a);
  }

  lemma AckedOverLeftover(a: NodeId, c: NodeId, p: NodeId) returns (s0: Cluster, past: seq<Event>, w: QuorumWrite)
    requires a != c && a != p && c != p
    ensures TermStart(s0) && Run(s0, past, w.before) && Failover.MajorityWrite(w, p) && w.before.next == 1 && Written(w) == Row1([2])
    ensures w.now.nodes.Keys == {a, c} && w.now.nodes[a] == Holding([2]) && w.now.nodes[c] == Holding([1]) && w.now.rows == map[1 := Row1([2])]
  {
    hide Step, Run, InFlight, Row1, Holding, TermStart, Happens, WellFormed, Clean, Acked, Written, Enabled;
    s0 := FirstTerm({a, c});
    FirstTermStarts({a, c});
    var s;
    past, s := LeftoverStored(a, c);
    var flight, ready := SecondAttempt(s, a, c);
    w := AckedBy(s0, past, s, [2], {c}, flight, ready, {c});
    LeftoverIsClean(w);
    TwoNodes(s, a, c);
    Failover.IsMajorityWrite(w, p);
  }

  lemma TwoNodes(s: Cluster, a: NodeId, c: NodeId)
    requires a != c && s.nodes.Keys == {a, c}
    ensures |s.nodes| == 2
  {
    assert |s.nodes| == |s.nodes.Keys|;
  }

  lemma LeftoverIsClean(w: QuorumWrite)
    requires Acked(w) && forall n | n in w.before.nodes :: n in w.before.up && w.before.up[n] == [] && n in w.before.down && w.before.down[n] == []
    ensures AllClean(w)
  {
    hide Acked;
  }

  /** Every database holds revision 1 alone. */
  lemma OneRowEach(s: Cluster, p: NodeId, u: Bytes)
    requires s.rows == map[1 := Row1(u)] && forall n | n in s.nodes :: exists v :: s.nodes[n] == Holding(v)
    ensures forall n | n in Failover.Databases(s, p) :: GapFree(Failover.Databases(s, p)[n], 1) && MaxRev(Failover.Databases(s, p)[n]) == 1
  {
    hide Row1;
    var rows := Failover.Databases(s, p);
    forall n | n in rows ensures GapFree(rows[n], 1) && MaxRev(rows[n]) == 1 {
      var r: Record :| rows[n] == map[1 := r];
      Election.OneRow(r);
    }
  }

  lemma EqualHeadsWin(nodes: set<NodeId>, rows: map<NodeId, Table>, n: NodeId, head: nat)
    requires n in nodes && nodes <= rows.Keys && forall k | k in nodes :: MaxRev(rows[k]) == head
    ensures Election.CanWin(nodes, rows, n)
  {
    assert Election.NoHigher(nodes, rows, n) == nodes;
  }

  lemma LeftoverWins(w: QuorumWrite, a: NodeId, c: NodeId, p: NodeId) returns (states: seq<Election.Candidate>, e: Election.Candidate)
    requires a != c && a != p && c != p && w.now.nodes.Keys == {a, c} && w.now.nodes[a] == Holding([2]) && w.now.nodes[c] == Holding([1])
    requires w.now.rows == map[1 := Row1([2])] && Acked(w) && Written(w) == Row1([2])
    ensures Failover.AllGapFree(Failover.Databases(w.now, p))
    ensures Election.MajorityElection(Failover.Members(w.now, p), Failover.Databases(w.now, p), states, e)
    ensures e.node in w.now.nodes && 1 in w.now.nodes[e.node].rows && w.now.nodes[e.node].rows[1] != Written(w)
  {
    hide Acked, Written, InsertRow, ToRecord, Election.MajorityElection, Election.CanWin, Row1;
    var rows, nodes := Failover.Databases(w.now, p), Failover.Members(w.now, p);
    OneRowEach(w.now, p, [2]);
    EqualHeadsWin(nodes, rows, c, 1);
    states, e := Election.WinsIfCan(nodes, rows, c);
  }

  /** The same revision, with the first attempt's record left on replica `c` and
      the second one acknowledged through replica `a`: of the three nodes, all
      gap-free, `c` can win the next election with the rolled-back row. */
  lemma RolledBackRowWins(a: NodeId, c: NodeId, p: NodeId) returns (s0: Cluster, past: seq<Event>, w: QuorumWrite, states: seq<Election.Candidate>, e: Election.Candidate)
    requires a != c && a != p && c != p
    ensures TermStart(s0) && Run(s0, past, w.before) && Failover.MajorityWrite(w, p)
    ensures Failover.AllGapFree(Failover.Databases(w.now, p))
    ensures Election.MajorityElection(Failover.Members(w.now, p), Failover.Databases(w.now, p), states, e)
    ensures e.node in w.now.nodes && 1 in w.now.nodes[e.node].rows && w.now.nodes[e.node].rows[1] != Written(w) && w.before.next == 1
  {
    hide *;
    s0, past, w := AckedOverLeftover(a, c, p);
    Failover.MajorityAcked(w, p);
    states, e := LeftoverWins(w, a, c, p);
  }
}
