/** Primary election: which nodes must answer, who wins, and what the winner is
    known to hold. */
module Election {
  import opened Records
  import opened Sets
  import opened Erasure

  datatype Health = Loading | Healthy | Degraded

  datatype Candidate = Candidate(node: NodeId, health: Health, primary: PrimaryState, latest: int, start: int)

  datatype ElectionError = PreviousPrimary | NoNodes | TooFewContacted | NonReplica(node: NodeId) | NoHealthyCandidate

  // ---- The previous Primary ----

  /** One request to the previous Primary, unanswered or answered with its state,
      and whether the election was called off in the wait that may follow it. */
  datatype Poll = Poll(answer: Option<PrimaryState>, calledOff: bool)

  /** What the elector knows of the previous Primary: nothing, that it is this
      node, or what it answers until the timeout. */
  datatype Previous = Unknown | Here(state: PrimaryState) | Elsewhere(polls: seq<Poll>)

  predicate Inconclusive(p: Poll) {
    p.answer != Some(AsReplica) && p.answer != Some(Active) && !p.calledOff
  }

  /** Nobody is to wait for: it is a replica, or nothing was settled in time. */
  ghost predicate Released(previous: Previous) {
    match previous
    case Unknown => true
    case Here(state) => state == AsReplica
    case Elsewhere(polls) =>
      || (forall p | p in polls :: Inconclusive(p))
      || exists k :: 0 <= k < |polls| && polls[k].answer == Some(AsReplica) && forall i | 0 <= i < k :: Inconclusive(polls[i])
  }

  method CheckPreviousPrimary(previous: Previous) returns (released: bool)
    ensures released <==> Released(previous)
  {
    match previous
    case Unknown => return true;
    case Here(state) => return state == AsReplica;
    case Elsewhere(polls) =>
      for k := 0 to |polls|
        invariant forall i | 0 <= i < k :: Inconclusive(polls[i])
      {
        if polls[k].answer == Some(AsReplica) {
          return true;
        }
        if polls[k].answer == Some(Active) || polls[k].calledOff {
          assert !Inconclusive(polls[k]) && polls[k] in polls;
          return false;
        }
      }
      return true;
  }

  // ---- Collecting states ----

  /** Which of the first `n` nodes answered. */
  ghost function Answered(answers: seq<Option<Candidate>>, n: nat): set<nat>
    requires n <= |answers|
  {
    set i | 0 <= i < n && answers[i].Some?
  }

  /** `states` holds each of the first `n` answers there is, once and in order,
      and nothing else: `at` says where each comes from. */
  ghost predicate Gathers(answers: seq<Option<Candidate>>, n: nat, at: seq<nat>, states: seq<Candidate>)
    requires n <= |answers|
  {
    && |at| == |states|
    && (forall j, k | 0 <= j < k < |at| :: at[j] < at[k])
    && (forall k | 0 <= k < |at| :: at[k] < n && answers[at[k]] == Some(states[k]))
    && forall i | 0 <= i < n && answers[i].Some? :: i in at
  }

  lemma NoneGathered(answers: seq<Option<Candidate>>)
    ensures Gathers(answers, 0, [], []) && Answered(answers, 0) == {}
  {
  }

  lemma AnsweredOne(answers: seq<Option<Candidate>>, n: nat)
    requires n < |answers|
    ensures |Answered(answers, n + 1)| == |Answered(answers, n)| + if answers[n].Some? then 1 else 0
  {
    assert Answered(answers, n + 1) == Answered(answers, n) + if answers[n].Some? then {n} else {};
  }

  lemma GatherOne(answers: seq<Option<Candidate>>, n: nat, at: seq<nat>, states: seq<Candidate>)
    requires n < |answers| && Gathers(answers, n, at, states)
    ensures answers[n].None? ==> Gathers(answers, n + 1, at, states)
    ensures answers[n].Some? ==> Gathers(answers, n + 1, at + [n], states + [answers[n].value])
  {
    if answers[n].Some? {
      var more, all := at + [n], states + [answers[n].value];
      assert more[|at|] == n && all[|at|] == answers[n].value;
      forall k | 0 <= k < |at| ensures more[k] == at[k] && all[k] == states[k] && at[k] < n {
      }
      forall i | 0 <= i < n && answers[i].Some? ensures i in more {
        assert i in at;
      }
    }
  }

  ghost predicate AreAnswers(answers: seq<Option<Candidate>>, states: seq<Candidate>) {
    exists at :: Gathers(answers, |answers|, at, states)
  }

  /** All nodes under static quorum, a strict majority under majority quorum. */
  predicate EnoughContacted(quorum: int, total: nat, contacted: nat) {
    && (quorum > 0 ==> contacted >= total)
    && (quorum == -1 ==> contacted >= total / 2 + 1)
  }

  /** Answers come from contacting every node, or from heartbeats with quorum
      disabled. */
  method CollectNodeStates(quorum: int, answers: seq<Option<Candidate>>, heartbeats: seq<Candidate>)
    returns (r: Result<seq<Candidate>, ElectionError>)
    requires |answers| == |heartbeats|
    ensures |answers| == 0 ==> r == Err(NoNodes)
    ensures |answers| > 0 && quorum == 0 ==> r == Ok(heartbeats)
    ensures |answers| > 0 && quorum != 0 ==> (r.Ok? <==> EnoughContacted(quorum, |answers|, |Answered(answers, |answers|)|))
    ensures |answers| > 0 && quorum != 0 ==> if r.Ok? then AreAnswers(answers, r.value) else r.error == TooFewContacted
  {
    if |answers| == 0 {
      return Err(NoNodes);
    }
    if quorum == 0 {
      return Ok(heartbeats);
    }
    hide Gathers, Answered;
    var candidates, contacted := [], 0;
    ghost var at: seq<nat> := [];
    NoneGathered(answers);
    for i := 0 to |answers|
      invariant Gathers(answers, i, at, candidates) && contacted == |Answered(answers, i)|
    {
      GatherOne(answers, i, at, candidates);
      AnsweredOne(answers, i);
      if answers[i].Some? {
        contacted := contacted + 1;
        candidates, at := candidates + [answers[i].value], at + [i];
      }
    }
    if quorum > 0 && contacted < |answers| {
      return Err(TooFewContacted);
    }
    if quorum == -1 && contacted < |answers| / 2 + 1 {
      return Err(TooFewContacted);
    }
    return Ok(candidates);
  }

  // ---- Choosing ----

  /** Node `i` and no other reports to be Active. */
  predicate SoleActive(states: seq<Candidate>, i: int) {
    0 <= i < |states| && forall j | 0 <= j < |states| :: states[j].primary == Active <==> j == i
  }

  /** Sorted no later: by latest revision, then by start time, both descending. */
  predicate NotAfter(a: Candidate, b: Candidate) {
    a.latest > b.latest || (a.latest == b.latest && a.start >= b.start)
  }

  predicate Blocks(c: Candidate) {
    c.health != Degraded && c.primary != AsReplica
  }

  predicate Blocked(states: seq<Candidate>) {
    exists c | c in states :: Blocks(c)
  }

  predicate First(states: seq<Candidate>, w: Candidate) {
    w in states && w.health == Healthy && forall c | c in states && c.health == Healthy :: NotAfter(w, c)
  }

  /** `active` are those of the first `n` states that are Active, at `at`. */
  ghost predicate ActiveAt(states: seq<Candidate>, n: nat, at: seq<nat>, active: seq<Candidate>)
    requires n <= |states|
  {
    && |at| == |active|
    && (forall j, k | 0 <= j < k < |at| :: at[j] < at[k])
    && (forall k | 0 <= k < |at| :: at[k] < n && states[at[k]] == active[k] && active[k].primary == Active)
    && forall i | 0 <= i < n && states[i].primary == Active :: i in at
  }

  lemma ActiveOne(states: seq<Candidate>, n: nat, at: seq<nat>, active: seq<Candidate>)
    requires n < |states| && ActiveAt(states, n, at, active)
    ensures states[n].primary != Active ==> ActiveAt(states, n + 1, at, active)
    ensures states[n].primary == Active ==> ActiveAt(states, n + 1, at + [n], active + [states[n]])
  {
    if states[n].primary == Active {
      var more := at + [n];
      assert more[|at|] == n;
      forall i | 0 <= i < n && states[i].primary == Active ensures i in more {
        assert i in at;
      }
    }
  }

  lemma SoleIffOne(states: seq<Candidate>, at: seq<nat>, active: seq<Candidate>)
    requires ActiveAt(states, |states|, at, active)
    ensures |active| == 1 ==> SoleActive(states, at[0])
    ensures forall i | SoleActive(states, i) :: |active| == 1 && active[0] == states[i]
  {
    forall i | SoleActive(states, i) ensures |active| == 1 && active[0] == states[i] {
      assert i in at && at[0] == i && at[|at| - 1] == i;
    }
  }

  method FindActivePrimary(states: seq<Candidate>) returns (r: Option<Candidate>)
    ensures r.Some? <==> exists i :: SoleActive(states, i)
    ensures forall i | SoleActive(states, i) :: r == Some(states[i])
  {
    var active := [];
    ghost var at: seq<nat> := [];
    for i := 0 to |states|
      invariant ActiveAt(states, i, at, active)
    {
      hide ActiveAt;
      ActiveOne(states, i, at, active);
      if states[i].primary == Active {
        active, at := active + [states[i]], at + [i];
      }
    }
    SoleIffOne(states, at, active);
    hide SoleActive, ActiveAt;
    return if |active| == 1 then Some(active[0]) else None;
  }

  lemma NoneActive(states: seq<Candidate>)
    requires forall c | c in states :: c.primary != Active
    ensures forall i :: !SoleActive(states, i)
  {
    forall i ensures !SoleActive(states, i) {
      if 0 <= i < |states| {
        assert states[i] in states;
      }
    }
  }

  method CheckNonReplicaStates(states: seq<Candidate>) returns (bad: Option<Candidate>)
    ensures bad.Some? <==> Blocked(states)
    ensures bad.Some? ==> bad.value in states && Blocks(bad.value)
  {
    for i := 0 to |states|
      invariant forall j | 0 <= j < i :: !Blocks(states[j])
    {
      if states[i].health == Degraded {
        continue;
      }
      if states[i].primary != AsReplica {
        assert Blocks(states[i]);
        return Some(states[i]);
      }
    }
    return None;
  }

  /** filterHealthy, the sort and its first element: any healthy candidate none
      is sorted before. */
  method Winner(states: seq<Candidate>) returns (w: Option<Candidate>)
    ensures w.Some? ==> First(states, w.value)
    ensures w.None? <==> forall c | c in states :: c.health != Healthy
  {
    w := None;
    for i := 0 to |states|
      invariant w.Some? ==> w.value in states && w.value.health == Healthy
      invariant w.Some? ==> forall j | 0 <= j < i && states[j].health == Healthy :: NotAfter(w.value, states[j])
      invariant w.None? <==> forall j | 0 <= j < i :: states[j].health != Healthy
    {
      if states[i].health == Healthy && (w.None? || !NotAfter(w.value, states[i])) {
        w := Some(states[i]);
      }
    }
  }

  method ElectPrimaryOnce(previous: Previous, quorum: int, answers: seq<Option<Candidate>>, heartbeats: seq<Candidate>)
    returns (r: Result<Candidate, ElectionError>)
    requires |answers| == |heartbeats|
    ensures r == Err(PreviousPrimary) <==> !Released(previous)
    ensures Released(previous) && |answers| == 0 ==> r == Err(NoNodes)
    ensures Released(previous) && |answers| > 0 && quorum == 0 ==> Decides(heartbeats, r)
    ensures Released(previous) && |answers| > 0 && quorum != 0 ==>
              if EnoughContacted(quorum, |answers|, |Answered(answers, |answers|)|)
              then exists states :: AreAnswers(answers, states) && Decides(states, r)
              else r == Err(TooFewContacted)
    // A single Active node among those that answered is elected, whatever its
    // health and its head.
    ensures Released(previous) && quorum != 0 && EnoughContacted(quorum, |answers|, |Answered(answers, |answers|)|) ==>
              forall i | 0 <= i < |answers| && OnlyActiveAnswer(answers, i) :: r == Ok(answers[i].value)
  {
    hide Decides;
    var released := CheckPreviousPrimary(previous);
    if !released {
      return Err(PreviousPrimary);
    }
    var states := CollectNodeStates(quorum, answers, heartbeats);
    if states.Err? {
      return Err(states.error);
    }
    r := Decide(states.value);
    if quorum != 0 {
      forall i | 0 <= i < |answers| && OnlyActiveAnswer(answers, i) ensures r == Ok(answers[i].value) {
        OnlyActiveWins(answers, states.value, i, r);
      }
    }
  }

  /** What is left of an election once the states are known. */
  method Decide(states: seq<Candidate>) returns (r: Result<Candidate, ElectionError>)
    ensures Decides(states, r) && r != Err(PreviousPrimary)
    // Without a single Active node, one that is neither degraded nor a replica
    // stops the election; the winner is healthy, none has a higher head, and
    // none with the same head started later.
    ensures r.Err? && r.error.NonReplica? <==>
            (forall i :: !SoleActive(states, i)) && exists c | c in states :: c.health != Degraded && c.primary != AsReplica
    ensures (forall i :: !SoleActive(states, i)) && r.Ok? ==>
              && r.value in states && r.value.health == Healthy
              && forall c | c in states && c.health == Healthy :: c.latest < r.value.latest || (c.latest == r.value.latest && c.start <= r.value.start)
  {
    hide SoleActive;
    var active := FindActivePrimary(states);
    if active.Some? {
      return Ok(active.value);
    }
    var bad := CheckNonReplicaStates(states);
    if bad.Some? {
      return Err(NonReplica(bad.value.node));
    }
    var w := Winner(states);
    if w.None? {
      return Err(NoHealthyCandidate);
    }
    return Ok(w.value);
  }

  predicate OnlyActiveAnswer(answers: seq<Option<Candidate>>, i: nat)
    requires i < |answers|
  {
    && answers[i].Some? && answers[i].value.primary == Active
    && forall j | 0 <= j < |answers| && j != i && answers[j].Some? :: answers[j].value.primary != Active
  }

  lemma OnlyActiveWins(answers: seq<Option<Candidate>>, states: seq<Candidate>, i: nat, r: Result<Candidate, ElectionError>)
    requires AreAnswers(answers, states) && Decides(states, r) && i < |answers| && OnlyActiveAnswer(answers, i)
    ensures r == Ok(answers[i].value)
  {
    var at :| Gathers(answers, |answers|, at, states);
    var k :| 0 <= k < |at| && at[k] == i;
    SoleAnswer(answers, at, states, k);
    hide SoleActive, Blocked, First;
    var j :| SoleActive(states, j) && r == Ok(states[j]);
    SoleUnique(states, j, k);
  }

  lemma SoleUnique(states: seq<Candidate>, i: int, j: int)
    requires SoleActive(states, i) && SoleActive(states, j)
    ensures i == j
  {
    assert states[i].primary == Active;
  }

  lemma SoleAnswer(answers: seq<Option<Candidate>>, at: seq<nat>, states: seq<Candidate>, k: nat)
    requires Gathers(answers, |answers|, at, states) && k < |at| && at[k] < |answers| && OnlyActiveAnswer(answers, at[k])
    ensures SoleActive(states, k)
  {
    forall j | 0 <= j < |states| ensures states[j].primary == Active <==> j == k {
      assert answers[at[j]] == Some(states[j]);
    }
  }

  /** A single Active node is kept; otherwise nobody may be anything but a
      replica, and the first healthy candidate wins. */
  ghost predicate Decides(states: seq<Candidate>, r: Result<Candidate, ElectionError>) {
    if exists i :: SoleActive(states, i) then exists i :: SoleActive(states, i) && r == Ok(states[i])
    else if Blocked(states) then r.Err? && r.error.NonReplica? && exists c | c in states :: Blocks(c) && c.node == r.error.node
    else if forall c | c in states :: c.health != Healthy then r == Err(NoHealthyCandidate)
    else r.Ok? && First(states, r.value)
  }

  // ---- What the winner holds ----

  /** Two strict majorities of the same nodes share one. */
  lemma MajoritiesMeet(nodes: set<NodeId>, a: set<NodeId>, b: set<NodeId>) returns (n: NodeId)
    requires a <= nodes && b <= nodes && |a| > |nodes| / 2 && |b| > |nodes| / 2
    ensures n in a && n in b
  {
    if a * b == {} {
      SubsetCount(a + b, nodes);
    }
    n :| n in a * b;
  }

  /** Node `n` answered with what its own database says. */
  predicate Truthful(states: seq<Candidate>, rows: map<NodeId, Table>) {
    forall c | c in states :: c.node in rows && c.latest == MaxRev(rows[c.node])
  }

  function NodesOf(states: seq<Candidate>): set<NodeId> {
    set c | c in states :: c.node
  }

  /** The winner reaches a revision exactly when some healthy contacted node does. */
  lemma WinnerReachesIff(states: seq<Candidate>, w: Candidate, revision: int)
    requires First(states, w)
    ensures w.latest >= revision <==> exists c :: c in states && c.health == Healthy && c.latest >= revision
  {
  }

  /** A contacted strict majority is healthy and without an Active node. */
  ghost predicate MajorityElection(nodes: set<NodeId>, rows: map<NodeId, Table>, states: seq<Candidate>, w: Candidate) {
    && NodesOf(states) <= nodes && EnoughContacted(-1, |nodes|, |NodesOf(states)|) && Truthful(states, rows)
    && (forall c | c in states :: c.health == Healthy && c.primary != Active)
    && Decides(states, Ok(w))
  }

  lemma WinnerIsFirst(nodes: set<NodeId>, rows: map<NodeId, Table>, states: seq<Candidate>, w: Candidate)
    requires MajorityElection(nodes, rows, states, w)
    ensures First(states, w) && w.node in nodes && w.node in rows && w.latest == MaxRev(rows[w.node])
  {
    NoneActive(states);
    assert w.node in NodesOf(states);
  }

  /** A revision stored on a majority is at or below every winner's head. */
  lemma ElectedReachesQuorumWrites(
    nodes: set<NodeId>, holders: set<NodeId>, rows: map<NodeId, Table>, revision: nat, states: seq<Candidate>, w: Candidate)
    requires MajorityElection(nodes, rows, states, w) && holders <= nodes && |holders| >= 1 + |nodes| / 2
    requires forall n | n in holders :: n in rows && revision in rows[n]
    ensures w.latest >= revision
  {
    WinnerIsFirst(nodes, rows, states, w);
    var n := MajoritiesMeet(nodes, holders, NodesOf(states));
    var c :| c in states && c.node == n;
    assert c.latest >= revision;
  }

  // ---- Who can win, and with which record ----

  function NoHigher(nodes: set<NodeId>, rows: map<NodeId, Table>, n: NodeId): set<NodeId>
    requires nodes <= rows.Keys && n in nodes
  {
    set k | k in nodes && MaxRev(rows[k]) <= MaxRev(rows[n])
  }

  /** The nodes whose head is no higher are a strict majority. */
  predicate CanWin(nodes: set<NodeId>, rows: map<NodeId, Table>, n: NodeId)
    requires nodes <= rows.Keys
  {
    n in nodes && 2 * |NoHigher(nodes, rows, n)| > |nodes|
  }

  function Voter(rows: map<NodeId, Table>, n: NodeId, k: NodeId): Candidate
    requires k in rows
  {
    Candidate(k, Healthy, AsReplica, MaxRev(rows[k]), if k == n then 1 else 0)
  }

  lemma {:induction false} Voters(ks: set<NodeId>, rows: map<NodeId, Table>, n: NodeId) returns (states: seq<Candidate>)
    requires ks <= rows.Keys
    ensures forall k | k in ks :: Voter(rows, n, k) in states
    ensures forall c | c in states :: c.node in ks && c == Voter(rows, n, c.node)
    decreases |ks|
  {
    if ks == {} {
      states := [];
    } else {
      var k :| k in ks;
      states := Voters(ks - {k}, rows, n);
      states := states + [Voter(rows, n, k)];
    }
  }

  lemma WinsIfCan(nodes: set<NodeId>, rows: map<NodeId, Table>, n: NodeId) returns (states: seq<Candidate>, w: Candidate)
    requires nodes <= rows.Keys && CanWin(nodes, rows, n)
    ensures MajorityElection(nodes, rows, states, w) && w.node == n
  {
    var ks := NoHigher(nodes, rows, n);
    states := Voters(ks, rows, n);
    w := Voter(rows, n, n);
    assert NodesOf(states) == ks by {
      assert forall k | k in ks :: Voter(rows, n, k).node == k;
    }
    NoneActive(states);
    assert n in ks && w in states && First(states, w) && !Blocked(states);
  }

  /** A node can be elected by a healthy majority exactly when a strict majority
      has no higher head. */
  lemma CanWinIff(nodes: set<NodeId>, rows: map<NodeId, Table>, n: NodeId)
    requires nodes <= rows.Keys
    ensures (exists states, w :: MajorityElection(nodes, rows, states, w) && w.node == n) <==> CanWin(nodes, rows, n)
  {
    if states, w :| MajorityElection(nodes, rows, states, w) && w.node == n {
      WinnerCan(nodes, rows, states, w);
    } else if CanWin(nodes, rows, n) {
      var states, w := WinsIfCan(nodes, rows, n);
    }
  }

  lemma WinnerCan(nodes: set<NodeId>, rows: map<NodeId, Table>, states: seq<Candidate>, w: Candidate)
    requires nodes <= rows.Keys && MajorityElection(nodes, rows, states, w)
    ensures CanWin(nodes, rows, w.node)
  {
    WinnerIsFirst(nodes, rows, states, w);
    forall k | k in NodesOf(states) ensures k in NoHigher(nodes, rows, w.node) {
      var c :| c in states && c.node == k;
      assert NotAfter(w, c);
    }
    SubsetCount(NodesOf(states), NoHigher(nodes, rows, w.node));
  }

  /** The nodes that store the record, its value erased or not. */
  function Storing(rows: map<NodeId, Table>, revision: nat, row: Record): set<NodeId> {
    set n | n in rows && revision in rows[n] && RowEvolves(row, rows[n][revision])
  }

  /** Those that store it with its value. */
  function Intact(rows: map<NodeId, Table>, revision: nat, row: Record): set<NodeId> {
    set n | n in rows && revision in rows[n] && rows[n][revision] == row
  }

  /** Every winner of every such election is one of `good`. */
  ghost predicate WinnersAmong(nodes: set<NodeId>, rows: map<NodeId, Table>, good: set<NodeId>) {
    forall states, w :: MajorityElection(nodes, rows, states, w) ==> w.node in good
  }

  /** The election compares heads, not records: whatever is asked of a winner, all
      of them meet it if and only if each node that a majority does not surpass
      does. */
  lemma WinnersAmongIff(nodes: set<NodeId>, rows: map<NodeId, Table>, good: set<NodeId>)
    requires nodes <= rows.Keys
    ensures WinnersAmong(nodes, rows, good) <==> forall n | CanWin(nodes, rows, n) :: n in good
  {
    hide MajorityElection, CanWin;
    if n :| CanWin(nodes, rows, n) && n !in good {
      var states, w := WinsIfCan(nodes, rows, n);
    } else {
      forall states, w | MajorityElection(nodes, rows, states, w) ensures w.node in good {
        WinnerCan(nodes, rows, states, w);
      }
    }
  }

  lemma OneRow(r: Record)
    ensures var t: Table := map[1 := r]; GapFree(t, 1) && MaxRev(t) == 1
  {
    var t: Table := map[1 := r];
    MaxRevGapFree(t, 1);
  }

  /** Nor without health: a contacted holder that is degraded does not count. */
  lemma DegradedHolderLoses(r1: Record, r2: Record)
    returns (nodes: set<NodeId>, holders: set<NodeId>, rows: map<NodeId, Table>, states: seq<Candidate>, w: Candidate)
    ensures holders <= nodes && |holders| >= 1 + |nodes| / 2 && forall n | n in holders :: n in rows && 2 in rows[n]
    ensures NodesOf(states) <= nodes && EnoughContacted(-1, |nodes|, |NodesOf(states)|) && Truthful(states, rows)
    ensures Decides(states, Ok(w)) && w.latest == 1
  {
    nodes, holders := {"a", "b", "c"}, {"a", "b"};
    rows := map["a" := map[1 := r1, 2 := r2], "b" := map[1 := r1, 2 := r2], "c" := map[1 := r1]];
    var b := Candidate("b", Degraded, AsReplica, 2, 1);
    w := Candidate("c", Healthy, AsReplica, 1, 1);
    states := [b, w];
    OneRow(r1);
    MaxRevGapFree(rows["b"], 2);
    NoneActive(states);
    assert |nodes| == 3 && |holders| == 2;
    assert NodesOf(states) == {"b", "c"} by {
      assert b in states && w in states;
    }
    assert |NodesOf(states)| == 2;
    assert w in states && !Blocked(states);
  }
}
