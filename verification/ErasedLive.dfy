/** A run from the first term of an empty cluster in which a compaction beside a
    rolled-back row erases a live, acknowledged value on a replica, and that
    replica wins the next election. */
module ErasedLive {
  import opened Bytes
  import opened Records
  import opened Mvcc
  import opened Erasure
  import opened Replicate
  import opened Replication
  import opened Durability
  import opened Completion
  import opened Retention
  import opened Scenarios

  const OTHER_KEY: Bytes := [2]

  /** The live row, the update of it that is rolled back, and the write of
      another key that reuses the revision. */
  function Live(): Record {
    Row1([1])
  }

  function Tentative(): Record {
    Record(2, KEY, false, false, 1, 1, 2, 0, 0, [2], Some(0), None, "p")
  }

  function Reused(): Record {
    Record(2, OTHER_KEY, true, false, 2, 0, 1, 0, 0, [3], Some(0), None, "p")
  }

  function Update2(): Event {
    QuorumBegin(Update(KEY, [2], 0, 1), "p", 0, 1, {})
  }

  function Create2(): Event {
    QuorumBegin(Create(OTHER_KEY, [3], 0), "p", 0, 1, {})
  }

  lemma OneRowLatest(t: Table, k: Bytes)
    requires t == map[1 := Live()]
    ensures MaxRev(t) == 1 && LatestRev(t, k, 1) == if k == KEY then 1 else 0
  {
    MaxRevGapFree(t, 1);
    assert LatestRev(t, k, 0) == 0;
  }

  lemma Inserted2(t: Table)
    requires t == map[1 := Live()]
    ensures InsertRow(t, ToRecord(Update(KEY, [2], 0, 1), 2, "p"), 0) == Ok(Tentative())
    ensures InsertRow(t, ToRecord(Create(OTHER_KEY, [3], 0), 2, "p"), 0) == Ok(Reused())
  {
    OneRowLatest(t, KEY);
    OneRowLatest(t, OTHER_KEY);
    assert Live() == Record(1, KEY, true, false, 1, 0, 1, 0, 0, [1], Some(0), None, "p");
    hide LatestRev, MaxRev;
  }

  // ---- The replica ----

  function WithTentative(started: seq<int>): Replica {
    Replica(map[1 := Live(), 2 := Tentative()], 0, {1, 2}, [], started, false)
  }

  function Erased(): Replica {
    Replica(map[1 := Erase(Live(), 0), 2 := Tentative()], 0, {1, 2}, [], [], false)
  }

  function Ended(): Replica {
    Replica(map[1 := Erase(Live(), 0), 2 := Reused()], 0, {1, 2}, [], [], false)
  }

  lemma TentativeRead()
    ensures Handle(Holding([1]), RecordMsg(Tentative())) == WithTentative([])
  {
    var t: Table := map[1 := Live()];
    assert !IndexConflict(t, Tentative());
    assert t[2 := Tentative()] == map[1 := Live(), 2 := Tentative()];
  }

  lemma CompactionRead()
    ensures Handle(WithTentative([]), CompactMsg(1)) == WithTentative([1])
  {
    assert [] + [1] == [1];
  }

  /** The tentative row is newer than the live one. */
  lemma CompactionRuns()
    ensures Executed(WithTentative([1]), 0, 0) == Erased()
  {
    var t: Table := map[1 := Live(), 2 := Tentative()];
    assert t[2].key == t[1].key;
    assert Compactable(t, 1, 1) && !Compactable(t, 1, 2);
    assert Compact(t, 1, 0) == map[1 := Erase(Live(), 0), 2 := Tentative()];
    assert Without([1], 0) == [];
  }

  lemma ReusedRead()
    ensures Handle(Erased(), RecordMsg(Reused())) == Ended()
  {
    var t: Table := Erased().rows;
    assert t - {2} == map[1 := Erase(Live(), 0)];
    assert !IndexConflict(t - {2}, Reused());
    Overwrite(t, Reused(), 0);
    assert t[2 := Reused()] == Ended().rows;
    assert {1, 2} + {2} == {1, 2};
  }

  // ---- The cluster with one replica ----

  ghost predicate At(s: Cluster, a: NodeId, log: Table, n: nat, idle: bool, f: Replica, q: seq<Msg>) {
    && WellFormed(s) && s.nodes.Keys == {a} && s.rows == log && s.committed == n && s.next == n + 1
    && (s.txn.None? <==> idle) && s.nodes[a] == f && s.down[a] == q
  }

  lemma BeginAt(s: Cluster, a: NodeId, log: Table, n: nat, f: Replica, e: Event, row: Record)
    requires At(s, a, log, n, true, f, []) && e.QuorumBegin? && e.required == 1 && e.dropped == {}
    requires InsertRow(log, ToRecord(e.req, n + 1, e.leader), e.at) == Ok(row)
    ensures Enabled(s, e) && At(Step(s, e), a, log, n, false, f, [RecordMsg(row)])
  {
    hide InsertRow, ToRecord, Clean, WellFormed;
    ReadablyQueued(s, a);
    StepWellFormed(s, e);
    assert [] + [RecordMsg(row)] == [RecordMsg(row)];
  }

  lemma ReadAt(s: Cluster, a: NodeId, log: Table, n: nat, idle: bool, f: Replica, m: Msg)
    requires At(s, a, log, n, idle, f, [m]) && (m.RecordMsg? ==> m.rec.revision > 0)
    ensures Enabled(s, Read(a)) && At(Step(s, Read(a)), a, log, n, idle, Handle(f, m), [])
  {
    hide Handle, WellFormed;
    ReadablyQueued(s, a);
    StepWellFormed(s, Read(a));
    assert [m][1..] == [];
  }

  lemma AbortAt(s: Cluster, a: NodeId, log: Table, n: nat, f: Replica, q: seq<Msg>)
    requires At(s, a, log, n, false, f, q)
    ensures Enabled(s, QuorumAbort) && At(Step(s, QuorumAbort), a, log, n, true, f, q)
  {
    hide WellFormed;
    StepWellFormed(s, QuorumAbort);
  }

  lemma CompactAt(s: Cluster, a: NodeId, log: Table, n: nat, idle: bool, f: Replica, c: int)
    requires At(s, a, log, n, idle, f, [])
    ensures Enabled(s, CompactionSent(c, {})) && At(Step(s, CompactionSent(c, {})), a, log, n, idle, f, [CompactMsg(c)])
  {
    hide WellFormed;
    ReadablyQueued(s, a);
    StepWellFormed(s, CompactionSent(c, {}));
    assert [] + [CompactMsg(c)] == [CompactMsg(c)];
  }

  lemma ExecuteAt(s: Cluster, a: NodeId, log: Table, n: nat, idle: bool, f: Replica, q: seq<Msg>)
    requires At(s, a, log, n, idle, f, q) && |f.started| > 0
    ensures Enabled(s, ReplicaExecutes(a, 0, 0)) && At(Step(s, ReplicaExecutes(a, 0, 0)), a, log, n, idle, Executed(f, 0, 0), q)
  {
    hide WellFormed, Executed;
    StepWellFormed(s, ReplicaExecutes(a, 0, 0));
  }

  // ---- The run ----

  /** The live row is written by quorum, through the one replica. */
  lemma LiveAcked(a: NodeId) returns (w: QuorumWrite)
    ensures TermStart(w.before) && Acked(w) && w.rest == [] && w.before == FirstTerm({a}) && Written(w) == Live()
    ensures w.begin.required == 1 && w.flight == [Read(a), Receipt(a)] && At(w.now, a, map[1 := Live()], 1, true, Holding([1]), [])
  {
    hide Step, Run, InFlight, Row1, Holding, Clean, WellFormed, TermStart, Acked, Written, Enabled;
    var s := FirstTerm({a});
    FirstTermStarts({a});
    AtFirstTerm({a});
    StartRuns(s);
    Begin1(s, [1], {});
    var b := Step(s, Create1([1], {}));
    assert b.down[a] == [RecordMsg(Row1([1]))];
    Read1(b, a, [1]);
    OneStep(b, Read(a));
    var r := Step(b, Read(a));
    ReceiptStep(r, a);
    OneStep(r, Receipt(a));
    var ready := Step(r, Receipt(a));
    RunsCompose(b, [Read(a)], r, [Receipt(a)], ready);
    assert [Read(a)] + [Receipt(a)] == [Read(a), Receipt(a)];
    CommitReady(ready, a);
    w := AckedBy(s, [], s, [1], {}, [Read(a), Receipt(a)], ready, {a});
    CommittedAt(ready, a, w.now);
  }

  lemma StartRuns(s: Cluster)
    requires TermStart(s)
    ensures WellFormed(s) && Run(s, [], s)
  {
  }

  lemma CommitReady(ready: Cluster, a: NodeId)
    requires ready.txn.Some? && ready.txn.value.required == 1 && a in ready.txn.value.acked
    ensures Enabled(ready, QuorumCommit({a}))
  {
    if ready.txn.value.acked == {} {
    }
  }

  lemma CommittedAt(ready: Cluster, a: NodeId, now: Cluster)
    requires WellFormed(ready) && Enabled(ready, QuorumCommit({a})) && now == Step(ready, QuorumCommit({a}))
    requires ready.nodes == map[a := Holding([1])] && ready.down == map[a := []] && ready.next == 1 && now.rows == map[1 := Live()]
    ensures At(now, a, map[1 := Live()], 1, true, Holding([1]), [])
  {
    hide WellFormed;
    StepWellFormed(ready, QuorumCommit({a}));
  }

  function Rest(a: NodeId): seq<Event> {
    [Update2(), Read(a), QuorumAbort, CompactionSent(1, {}), Read(a), ReplicaExecutes(a, 0, 0), Create2(), Read(a)]
  }

  /** A rolled-back update, a compaction beside it, and its revision reused. */
  lemma RestRuns(s: Cluster, a: NodeId) returns (s': Cluster)
    requires At(s, a, map[1 := Live()], 1, true, Holding([1]), [])
    ensures WellFormed(s) && Run(s, Rest(a), s') && At(s', a, map[1 := Live()], 1, false, Ended(), [])
  {
    hide Step, Run, InsertRow, ToRecord, Handle, Executed, Live, Tentative, Reused, Holding, WithTentative, Erased, Ended, WellFormed, Enabled;
    var t: Table := map[1 := Live()];
    Inserted2(t);
    Revisions();
    BeginAt(s, a, t, 1, Holding([1]), Update2(), Tentative());
    var s1 := Step(s, Update2());
    ReadAt(s1, a, t, 1, false, Holding([1]), RecordMsg(Tentative()));
    TentativeRead();
    var s2 := Step(s1, Read(a));
    AbortAt(s2, a, t, 1, WithTentative([]), []);
    var s3 := Step(s2, QuorumAbort);
    RunThree(s, Update2(), s1, Read(a), s2, QuorumAbort, s3);
    var s4 := CompactionRunsAt(s3, a, t);
    var s6 := ReusedAt(s4, a, t);
    RunsJoin(s, [Update2(), Read(a), QuorumAbort], s3, [CompactionSent(1, {}), Read(a), ReplicaExecutes(a, 0, 0)], s4);
    RunsJoin(s, [Update2(), Read(a), QuorumAbort] + [CompactionSent(1, {}), Read(a), ReplicaExecutes(a, 0, 0)], s4, [Create2(), Read(a)], s6);
    assert [Update2(), Read(a), QuorumAbort] + [CompactionSent(1, {}), Read(a), ReplicaExecutes(a, 0, 0)] + [Create2(), Read(a)] == Rest(a);
    s' := s6;
  }

  lemma Revisions()
    ensures Tentative().revision == 2 && Reused().revision == 2
  {
  }

  lemma CompactionRunsAt(s: Cluster, a: NodeId, t: Table) returns (s': Cluster)
    requires At(s, a, t, 1, true, WithTentative([]), [])
    ensures WellFormed(s) && Run(s, [CompactionSent(1, {}), Read(a), ReplicaExecutes(a, 0, 0)], s') && At(s', a, t, 1, true, Erased(), [])
  {
    hide Step, Run, Handle, Executed, Erased, WellFormed, Enabled, Live, Tentative;
    CompactAt(s, a, t, 1, true, WithTentative([]), 1);
    var s1 := Step(s, CompactionSent(1, {}));
    ReadAt(s1, a, t, 1, true, WithTentative([]), CompactMsg(1));
    CompactionRead();
    var s2 := Step(s1, Read(a));
    ExecuteAt(s2, a, t, 1, true, WithTentative([1]), []);
    CompactionRuns();
    s' := Step(s2, ReplicaExecutes(a, 0, 0));
    RunThree(s, CompactionSent(1, {}), s1, Read(a), s2, ReplicaExecutes(a, 0, 0), s');
  }

  lemma ReusedAt(s: Cluster, a: NodeId, t: Table) returns (s': Cluster)
    requires At(s, a, t, 1, true, Erased(), []) && t == map[1 := Live()]
    ensures WellFormed(s) && Run(s, [Create2(), Read(a)], s') && At(s', a, t, 1, false, Ended(), [])
  {
    hide Step, Run, Handle, InsertRow, ToRecord, Erased, Ended, WellFormed, Enabled, Live, Tentative, Reused;
    Inserted2(t);
    Revisions();
    BeginAt(s, a, t, 1, Erased(), Create2(), Reused());
    var s1 := Step(s, Create2());
    ReadAt(s1, a, t, 1, false, Erased(), RecordMsg(Reused()));
    ReusedRead();
    s' := Step(s1, Read(a));
    RunNil(s);
    assert [] + [Create2()] == [Create2()] && [Create2()] + [Read(a)] == [Create2(), Read(a)];
    RunSnoc(s, [], s, Create2());
    RunSnoc(s, [Create2()], s1, Read(a));
  }

  lemma {:induction false} RunsJoin(a: Cluster, es: seq<Event>, b: Cluster, fs: seq<Event>, c: Cluster)
    requires WellFormed(a) && Run(a, es, b) && WellFormed(b) && Run(b, fs, c)
    ensures Run(a, es + fs, c)
    decreases |es|
  {
    hide Step, Enabled, WellFormed;
    if es == [] {
      assert es + fs == fs;
    } else {
      StepWellFormed(a, es[0]);
      RunsJoin(Step(a, es[0]), es[1..], b, fs, c);
      RunCons(a, es[0], es[1..] + fs, c);
      assert es + fs == [es[0]] + (es[1..] + fs);
    }
  }

  // ---- The election ----

  lemma EndedTables(a: NodeId, p: NodeId, s: Cluster)
    requires a != p && At(s, a, map[1 := Live()], 1, false, Ended(), [])
    ensures Failover.AllGapFree(Failover.Databases(s, p)) && Election.CanWin(Failover.Members(s, p), Failover.Databases(s, p), a)
  {
    hide WellFormed, Live, Reused;
    var rows, nodes := Failover.Databases(s, p), Failover.Members(s, p);
    MaxRevGapFree(rows[a], 2);
    MaxRevGapFree(rows[p], 1);
    assert Election.NoHigher(nodes, rows, a) == nodes;
  }

  lemma EndedStores(s: Cluster, a: NodeId)
    requires At(s, a, map[1 := Live()], 1, false, Ended(), [])
    ensures KEY in StoreAt(s.rows, s.committed) && StoreAt(s.rows, s.committed)[KEY].value == [1]
    ensures KEY in StoreAt(s.nodes[a].rows, 2) && StoreAt(s.nodes[a].rows, 2)[KEY].value == []
  {
    hide WellFormed, StoreAt;
    StoreLookup(s.rows, 1, KEY);
    StoreLookup(s.nodes[a].rows, 2, KEY);
    assert LatestRev(s.rows, KEY, 1) == 1;
    assert LatestRev(s.nodes[a].rows, KEY, 1) == 1;
    assert LatestRev(s.nodes[a].rows, KEY, 2) == 1;
  }

  lemma LaterStill(w: QuorumWrite, es: seq<Event>, s': Cluster) returns (v: QuorumWrite)
    requires Acked(w) && w.rest == [] && WellFormed(w.now) && Run(w.now, es, s')
    ensures v == w.(rest := es, now := s') && Acked(v) && Written(v) == Written(w)
  {
    hide PrimaryInv, DurInv, Enabled, WellFormed, Step, InFlight, Row;
    v := w.(rest := es, now := s');
  }

  lemma FirstIsNew(w: QuorumWrite, a: NodeId, p: NodeId)
    requires Acked(w) && w.before == FirstTerm({a}) && w.begin.required == 1 && a != p
    ensures Failover.MajorityWrite(w, p) && Failover.NewEverywhere(w)
  {
    hide Acked, Written;
    FreshIsAllClean(w);
    assert |w.before.nodes| == |w.before.nodes.Keys| && w.before.nodes.Keys == {a};
    Failover.IsMajorityWrite(w, p);
  }

  /** The value is live at the Primary, acknowledged by a majority, of a revision
      new everywhere; the databases have no gap; and the next Primary reads it
      as empty. */
  lemma LiveValueErased(a: NodeId, p: NodeId) returns (w: QuorumWrite, states: seq<Election.Candidate>, e: Election.Candidate)
    requires a != p
    ensures TermStart(w.before) && Acked(w) && Failover.MajorityWrite(w, p) && Failover.NewEverywhere(w)
    ensures Failover.AllGapFree(Failover.Databases(w.now, p))
    ensures Election.MajorityElection(Failover.Members(w.now, p), Failover.Databases(w.now, p), states, e) && e.node == a && a in w.now.nodes
    ensures Written(w).key == KEY && Written(w).value == [1]
    ensures KEY in StoreAt(w.now.rows, w.now.committed) && StoreAt(w.now.rows, w.now.committed)[KEY].value == [1]
    ensures KEY in StoreAt(w.now.nodes[a].rows, 2) && StoreAt(w.now.nodes[a].rows, 2)[KEY].value == []
  {
    hide *;
    var first := LiveAcked(a);
    var last := RestRuns(first.now, a);
    w := LaterStill(first, Rest(a), last);
    FirstIsNew(w, a, p);
    EndedTables(a, p, last);
    EndedStores(last, a);
    MembersStored(last, p);
    states, e := Election.WinsIfCan(Failover.Members(last, p), Failover.Databases(last, p), a);
    LiveIs();
    InCluster(last, a);
  }

  lemma MembersStored(s: Cluster, p: NodeId)
    ensures Failover.Members(s, p) <= Failover.Databases(s, p).Keys
  {
  }

  lemma InCluster(s: Cluster, a: NodeId)
    requires At(s, a, map[1 := Live()], 1, false, Ended(), [])
    ensures a in s.nodes
  {
  }

  lemma LiveIs()
    ensures Live().key == KEY && Live().value == [1]
  {
  }
}
