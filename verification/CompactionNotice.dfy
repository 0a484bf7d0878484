/** One compaction cycle of the Primary: choose a revision no watch needs, have
    every listed node raise its watch-admission floor to it, then persist it. */
module CompactionNotice {
  import opened Records
  import WatchFloor
  import GrantedFloor

  // ---- The protocol over the nodes' own state machines ----

  /** `confirmed` gives, per node, the floor change whose success was reported. */
  datatype Cluster = Cluster(nodes: map<NodeId, WatchFloor.State>, confirmed: map<NodeId, nat>, persisted: bool)

  datatype Act =
    | At(node: NodeId, event: WatchFloor.Event)
    | Confirm(node: NodeId, change: nat)
    | Persist

  predicate Enabled(s: Cluster, listed: seq<NodeId>, revision: int, a: Act) {
    match a
    case At(n, e) => n in s.nodes && WatchFloor.Enabled(s.nodes[n], e)
    case Confirm(n, c) =>
      n in s.nodes && c in s.nodes[n].changes && s.nodes[n].changes[c].phase.Done? && s.nodes[n].changes[c].target == revision
    case Persist => forall n | n in listed :: n in s.confirmed
  }

  function Step(s: Cluster, listed: seq<NodeId>, revision: int, a: Act): Cluster
    requires Enabled(s, listed, revision, a)
  {
    match a
    case At(n, e) => s.(nodes := s.nodes[n := WatchFloor.Step(s.nodes[n], e)])
    case Confirm(n, c) => s.(confirmed := s.confirmed[n := c])
    case Persist => s.(persisted := true)
  }

  /** A run; with `orderly`, no node's floor changes overlap or go down. */
  ghost predicate Reaches(s: Cluster, listed: seq<NodeId>, revision: int, acts: seq<Act>, s': Cluster, orderly: bool)
    decreases |acts|
  {
    if acts == [] then s == s'
    else
      && Enabled(s, listed, revision, acts[0])
      && (orderly && acts[0].At? ==> WatchFloor.Orderly(s.nodes[acts[0].node], acts[0].event))
      && Reaches(Step(s, listed, revision, acts[0]), listed, revision, acts[1..], s', orderly)
  }

  ghost predicate Started(s: Cluster) {
    s.confirmed == map[] && !s.persisted && forall n | n in s.nodes :: s.nodes[n] == WatchFloor.START
  }

  predicate Granted(x: WatchFloor.State, c: nat, revision: int) {
    c in x.changes && x.changes[c].phase.Done? && x.changes[c].target == revision
  }

  ghost predicate Inv(s: Cluster, listed: seq<NodeId>, revision: int, orderly: bool) {
    && (forall n | n in s.nodes :: WatchFloor.FloorInv(s.nodes[n]) && (orderly ==> WatchFloor.GrantsKept(s.nodes[n])))
    && (forall n | n in s.confirmed :: n in s.nodes && Granted(s.nodes[n], s.confirmed[n], revision))
    && (s.persisted ==> forall n | n in listed :: n in s.confirmed)
  }

  lemma NodeStep(x: WatchFloor.State, e: WatchFloor.Event, orderly: bool)
    requires WatchFloor.FloorInv(x) && WatchFloor.Enabled(x, e)
    requires orderly ==> WatchFloor.GrantsKept(x) && WatchFloor.Orderly(x, e)
    ensures WatchFloor.FloorInv(WatchFloor.Step(x, e))
    ensures orderly ==> WatchFloor.GrantsKept(WatchFloor.Step(x, e))
  {
    hide *;
    if e.Load? || e.Store? || e.Scan? || e.Finish? || e.Restore? {
      WatchFloor.ChangeKeepsFloor(x, e);
    } else {
      WatchFloor.WatchKeepsFloor(x, e);
    }
    if orderly {
      WatchFloor.StepKeepsGrants(x, e);
    }
  }

  /** A success is never taken back, only its floor can be. */
  lemma GrantStays(x: WatchFloor.State, e: WatchFloor.Event, c: nat, revision: int)
    requires WatchFloor.Enabled(x, e) && Granted(x, c, revision)
    ensures Granted(WatchFloor.Step(x, e), c, revision)
  {
  }

  lemma StepKeepsInv(s: Cluster, listed: seq<NodeId>, revision: int, a: Act, orderly: bool)
    requires Inv(s, listed, revision, orderly) && Enabled(s, listed, revision, a)
    requires orderly && a.At? ==> WatchFloor.Orderly(s.nodes[a.node], a.event)
    ensures Inv(Step(s, listed, revision, a), listed, revision, orderly)
  {
    hide WatchFloor.Step, WatchFloor.Enabled, WatchFloor.FloorInv, WatchFloor.GrantsKept, WatchFloor.Orderly;
    if a.At? {
      NodeStep(s.nodes[a.node], a.event, orderly);
      if a.node in s.confirmed {
        GrantStays(s.nodes[a.node], a.event, s.confirmed[a.node], revision);
      }
    }
  }

  lemma {:induction false} RunKeepsInv(s: Cluster, listed: seq<NodeId>, revision: int, acts: seq<Act>, s': Cluster, orderly: bool)
    requires Inv(s, listed, revision, orderly) && Reaches(s, listed, revision, acts, s', orderly)
    ensures Inv(s', listed, revision, orderly)
    decreases |acts|
  {
    hide Inv;
    if acts != [] {
      StepKeepsInv(s, listed, revision, acts[0], orderly);
      RunKeepsInv(Step(s, listed, revision, acts[0]), listed, revision, acts[1..], s', orderly);
    }
  }

  lemma StartedInv(s: Cluster, listed: seq<NodeId>, revision: int, orderly: bool)
    requires Started(s)
    ensures Inv(s, listed, revision, orderly)
  {
  }

  /** Whatever interleaves on the nodes: once the Primary has persisted the
      revision, no listed node has an active watch below it, on every node
      whose granted floor has not been lowered. */
  lemma PersistedFloorHolds(s: Cluster, listed: seq<NodeId>, revision: int, acts: seq<Act>, s': Cluster, n: NodeId)
    requires Started(s) && Reaches(s, listed, revision, acts, s', false) && s'.persisted && n in listed
    ensures n in s'.confirmed && n in s'.nodes && Granted(s'.nodes[n], s'.confirmed[n], revision)
    ensures s'.nodes[n].changes[s'.confirmed[n]].kept ==> WatchFloor.NoneBelow(s'.nodes[n], revision)
  {
    StartedInv(s, listed, revision, false);
    RunKeepsInv(s, listed, revision, acts, s', false);
  }

  /** Where each node handles one notice at a time and none lowers the floor,
      that is every listed node. */
  lemma OrderlyPersistedFloorHolds(s: Cluster, listed: seq<NodeId>, revision: int, acts: seq<Act>, s': Cluster, n: NodeId)
    requires Started(s) && Reaches(s, listed, revision, acts, s', true) && s'.persisted && n in listed
    ensures n in s'.nodes && WatchFloor.NoneBelow(s'.nodes[n], revision)
  {
    StartedInv(s, listed, revision, true);
    RunKeepsInv(s, listed, revision, acts, s', true);
  }

  // ---- Exactly when it holds ----

  /** What happens on one node. */
  function NodeEvents(acts: seq<Act>, n: NodeId): seq<WatchFloor.Event> {
    if acts == [] then []
    else (if acts[0].At? && acts[0].node == n then [acts[0].event] else []) + NodeEvents(acts[1..], n)
  }

  /** A confirmed change goes on granting its floor through the node's own run. */
  lemma {:induction false} NodeRun(s: Cluster, listed: seq<NodeId>, revision: int, acts: seq<Act>, s': Cluster, n: NodeId, c: nat)
    requires Reaches(s, listed, revision, acts, s', false) && n in s.nodes && Granted(s.nodes[n], c, revision)
    ensures n in s'.nodes && WatchFloor.Reaches(s.nodes[n], NodeEvents(acts, n), s'.nodes[n])
    ensures GrantedFloor.GrantingThroughout(s.nodes[n], NodeEvents(acts, n), c)
    decreases |acts|
  {
    if acts != [] {
      var t := Step(s, listed, revision, acts[0]);
      if acts[0].At? && acts[0].node == n {
        GrantStays(s.nodes[n], acts[0].event, c, revision);
      }
      hide WatchFloor.Step, WatchFloor.Enabled;
      NodeRun(t, listed, revision, acts[1..], s', n, c);
      assert acts[0].At? && acts[0].node == n ==> NodeEvents(acts, n)[1..] == NodeEvents(acts[1..], n);
      assert !(acts[0].At? && acts[0].node == n) ==> NodeEvents(acts, n) == NodeEvents(acts[1..], n);
    }
  }

  ghost predicate AllOpen(s: Cluster) {
    forall n | n in s.nodes :: GrantedFloor.RegisteredOpen(s.nodes[n])
  }

  lemma {:induction false} RunKeepsOpen(s: Cluster, listed: seq<NodeId>, revision: int, acts: seq<Act>, s': Cluster)
    requires Reaches(s, listed, revision, acts, s', false) && AllOpen(s)
    ensures AllOpen(s')
    decreases |acts|
  {
    if acts != [] {
      if acts[0].At? {
        GrantedFloor.StepKeepsOpen(s.nodes[acts[0].node], acts[0].event);
      }
      hide WatchFloor.Step, WatchFloor.Enabled, GrantedFloor.RegisteredOpen;
      RunKeepsOpen(Step(s, listed, revision, acts[0]), listed, revision, acts[1..], s');
    }
  }

  /** From the moment the Primary has persisted the revision, on each listed
      node: no creation can put a watch below it at any later moment, if and
      only if none is below it now and the node's floor guards it at every
      moment at which a watch could be created. */
  lemma PersistedFloorHoldsIff(s0: Cluster, listed: seq<NodeId>, revision: int, past: seq<Act>, s: Cluster, acts: seq<Act>, s': Cluster, n: NodeId)
    requires Started(s0) && Reaches(s0, listed, revision, past, s, false) && s.persisted && n in listed
    requires Reaches(s, listed, revision, acts, s', false)
    ensures n in s.confirmed && n in s.nodes && Granted(s.nodes[n], s.confirmed[n], revision)
    ensures GrantedFloor.GrantingThroughout(s.nodes[n], NodeEvents(acts, n), s.confirmed[n])
    ensures GrantedFloor.NeverBelow(s.nodes[n], NodeEvents(acts, n), s.confirmed[n]) <==>
            WatchFloor.NoneBelow(s.nodes[n], revision) && GrantedFloor.Guarded(s.nodes[n], NodeEvents(acts, n), s.confirmed[n])
  {
    PersistedFloorHolds(s0, listed, revision, past, s, n);
    assert AllOpen(s0);
    RunKeepsOpen(s0, listed, revision, past, s);
    var x, c := s.nodes[n], s.confirmed[n];
    NodeRun(s, listed, revision, acts, s', n, c);
    GrantedFloor.DoneIsNoneBelow(x, c);
    NeverBelowNow(x, NodeEvents(acts, n), c);
    if GrantedFloor.ClearOutside(x, c) {
      GrantedFloor.GrantHoldsIff(x, NodeEvents(acts, n), c);
    }
  }

  lemma NeverBelowNow(x: WatchFloor.State, es: seq<WatchFloor.Event>, c: nat)
    requires GrantedFloor.GrantingThroughout(x, es, c)
    ensures GrantedFloor.NeverBelow(x, es, c) ==> GrantedFloor.ClearOutside(x, c)
  {
    assert GrantedFloor.Extends(x, [], x);
  }

  // ---- The Primary's two loops ----

  datatype Registration = Registration(address: string)
  datatype Answer = Confirmed | Rejected | CallFailed
  datatype Notice = Notice(address: string, revision: int)

  /** The least watch revision over all answers, given every node answered. */
  predicate IsGlobalMin(mins: seq<Option<nat>>, m: nat) {
    && Some(m) in mins
    && forall i | 0 <= i < |mins| :: mins[i].Some? && m <= mins[i].value
  }

  predicate Confirms(answers: (Answer, Answer)) {
    answers.0.Confirmed? || answers.1.Confirmed?
  }

  /** How many leading nodes confirm. */
  function ConfirmedPrefix(answers: seq<(Answer, Answer)>): (k: nat)
    ensures k <= |answers| && (forall i | 0 <= i < k :: Confirms(answers[i])) && (k < |answers| ==> !Confirms(answers[k]))
  {
    if answers == [] || !Confirms(answers[0]) then 0 else 1 + ConfirmedPrefix(answers[1..])
  }

  /** One below the least revision any watch on any listed node still needs. */
  ghost predicate Proposes(nodes: seq<Registration>, mins: seq<Option<nat>>, current: int, revision: nat) {
    && (forall i | 0 <= i < |nodes| :: nodes[i].address != "")
    && IsGlobalMin(mins, revision + 1) && revision > 0 && revision > current
  }

  predicate AllConfirm(answers: seq<(Answer, Answer)>) {
    forall i | 0 <= i < |answers| :: Confirms(answers[i])
  }

  /** The notices of one round follow those already sent: up to the first node that does not confirm,
      then the previous revision to those that did. */
  function Round(notices: seq<Notice>, nodes: seq<Registration>, revision: int, previous: int, answers: seq<(Answer, Answer)>): seq<Notice>
    requires |nodes| == |answers|
  {
    var k := ConfirmedPrefix(answers);
    if k == |answers| then Sent(notices, nodes, revision, answers, k)
    else Restored(Sent(notices, nodes, revision, answers, k + 1), nodes[..k], previous)
  }

  class Scheduler {
    var compaction: int
    var persisted: int
    var notices: seq<Notice>
    /** The compact messages put on the follow streams, and the compactions
        started, oldest first. */
    var broadcast: seq<int>
    var started: seq<int>

    method RunCompactionCycle(nodes: seq<Registration>, mins: seq<Option<nat>>, answers: seq<(Answer, Answer)>, persistOk: bool)
      requires |mins| == |nodes| == |answers|
      modifies this
      ensures (forall r: nat :: !Proposes(nodes, mins, old(compaction), r)) ==> unchanged(this)
      ensures forall r: nat | Proposes(nodes, mins, old(compaction), r) ::
                && compaction == (if AllConfirm(answers) && persistOk then r else old(compaction))
                && persisted == (if AllConfirm(answers) && persistOk then r else old(persisted))
                && broadcast == old(broadcast) + (if AllConfirm(answers) && persistOk then [r] else [])
                && started == old(started) + (if AllConfirm(answers) && persistOk then [r] else [])
                && notices == Round(old(notices), nodes, r, old(compaction), answers)
    {
      if |nodes| == 0 {
        return;
      }
      var globalMin: int := -1;
      for i := 0 to |nodes|
        invariant i == 0 ==> globalMin == -1
        invariant i > 0 ==> globalMin >= 0 && Some(globalMin as nat) in mins
        invariant forall j | 0 <= j < i :: nodes[j].address != "" && mins[j].Some? && globalMin <= mins[j].value
        invariant unchanged(this)
      {
        if nodes[i].address == "" {
          return;
        }
        if mins[i].None? {
          return;
        }
        if globalMin < 0 || mins[i].value < globalMin {
          globalMin := mins[i].value;
        }
      }
      assert IsGlobalMin(mins, globalMin);
      OneGlobalMin(mins, globalMin);
      if globalMin <= 0 {
        return;
      }
      var proposed := globalMin - 1;
      if proposed <= 0 || proposed <= compaction {
        return;
      }
      assert Proposes(nodes, mins, compaction, proposed);
      RunCompactionProtocol(nodes, proposed, answers, persistOk);
    }

    /** Notices go out in order, each sent again once if it fails. The revision
        is persisted, broadcast and executed exactly when every node confirmed
        and the database took it; a node that did not confirm has those that
        had confirmed sent the previous revision. */
    method RunCompactionProtocol(nodes: seq<Registration>, revision: int, answers: seq<(Answer, Answer)>, persistOk: bool)
      requires |nodes| == |answers|
      modifies this
      ensures compaction == (if AllConfirm(answers) && persistOk then revision else old(compaction))
      ensures persisted == (if AllConfirm(answers) && persistOk then revision else old(persisted))
      ensures broadcast == old(broadcast) + if AllConfirm(answers) && persistOk then [revision] else []
      ensures started == old(started) + if AllConfirm(answers) && persistOk then [revision] else []
      ensures notices == Round(old(notices), nodes, revision, old(compaction), answers)
    {
      hide ConfirmedPrefix, Restored, Attempts, Confirms;
      var previous := compaction;
      var k := 0;
      while k < |nodes|
        invariant 0 <= k <= |nodes|
        invariant forall i | 0 <= i < k :: Confirms(answers[i])
        invariant notices == Sent(old(notices), nodes, revision, answers, k)
        invariant compaction == previous && persisted == old(persisted) && broadcast == old(broadcast) && started == old(started)
      {
        var confirmed := SendNotice(nodes[k].address, revision, answers[k]);
        if !confirmed {
          PrefixIs(answers, k);
          SendRestores(nodes, k, previous);
          return;
        }
        k := k + 1;
      }
      PrefixIs(answers, k);
      if !persistOk {
        return;
      }
      persisted := revision;
      compaction := revision;
      broadcast := broadcast + [revision];
      started := started + [revision];
    }

    /** Two attempts at most. */
    method SendNotice(address: string, revision: int, answers: (Answer, Answer)) returns (confirmed: bool)
      modifies this`notices
      ensures confirmed <==> Confirms(answers)
      ensures confirmed <==> answers.0.Confirmed? || answers.1.Confirmed?
      ensures notices == old(notices) + Attempts(Notice(address, revision), answers)
    {
      var n := Notice(address, revision);
      for attempt := 1 to 3
        invariant notices == old(notices) + if attempt == 1 then [] else if attempt == 2 then [n] else [n, n]
        invariant attempt > 1 ==> !answers.0.Confirmed?
        invariant attempt > 2 ==> !answers.1.Confirmed?
      {
        notices := notices + [n];
        if (if attempt == 1 then answers.0 else answers.1).Confirmed? {
          return true;
        }
      }
      return false;
    }

    method SendRestores(nodes: seq<Registration>, k: nat, previous: int)
      requires k <= |nodes|
      modifies this`notices
      ensures notices == Restored(old(notices), nodes[..k], previous)
      ensures |notices| == |old(notices)| + k && notices[..|old(notices)|] == old(notices)
      ensures forall i | 0 <= i < k :: notices[|old(notices)| + i] == Notice(nodes[i].address, previous)
    {
      for i := 0 to k
        invariant notices == Restored(old(notices), nodes[..i], previous)
        invariant |notices| == |old(notices)| + i && notices[..|old(notices)|] == old(notices)
        invariant forall j | 0 <= j < i :: notices[|old(notices)| + j] == Notice(nodes[j].address, previous)
      {
        notices := notices + [Notice(nodes[i].address, previous)];
        assert nodes[..i + 1][..i] == nodes[..i];
      }
    }
  }

  /** With the notices to the first `k` nodes: one each, or two where the first failed. */
  function Sent(notices: seq<Notice>, nodes: seq<Registration>, revision: int, answers: seq<(Answer, Answer)>, k: nat): seq<Notice>
    requires k <= |nodes| == |answers|
  {
    if k == 0 then notices
    else
      Sent(notices, nodes, revision, answers, k - 1) + Attempts(Notice(nodes[k - 1].address, revision), answers[k - 1])
  }

  function Attempts(n: Notice, answers: (Answer, Answer)): seq<Notice> {
    if answers.0.Confirmed? then [n] else [n, n]
  }

  function Restored(notices: seq<Notice>, nodes: seq<Registration>, revision: int): seq<Notice> {
    if nodes == [] then notices
    else Restored(notices, nodes[..|nodes| - 1], revision) + [Notice(nodes[|nodes| - 1].address, revision)]
  }

  // ---- Who is sent what, by position ----

  /** How many notices go to the first `m` nodes: one each, and a second one
      where the first attempt failed. */
  ghost function NoticesTo(answers: seq<(Answer, Answer)>, m: nat): nat
    requires m <= |answers|
  {
    if m == 0 then 0 else NoticesTo(answers, m - 1) + if answers[m - 1].0.Confirmed? then 1 else 2
  }

  /** The first `m` nodes are sent the revision, in order. */
  ghost predicate SentTo(before: seq<Notice>, after: seq<Notice>, nodes: seq<Registration>, revision: int, answers: seq<(Answer, Answer)>, m: nat)
    requires m <= |nodes| == |answers|
  {
    && |before| + NoticesTo(answers, m) <= |after| && before <= after
    && forall i | 0 <= i < m :: NodeSent(|before| + NoticesTo(answers, i), after, nodes[i].address, revision, answers[i].0)
  }

  ghost predicate NodeSent(at: nat, after: seq<Notice>, address: string, revision: int, first: Answer) {
    && at < |after| && after[at] == Notice(address, revision)
    && (!first.Confirmed? ==> at + 1 < |after| && after[at + 1] == Notice(address, revision))
  }

  /** A round stops at the first node that confirms neither attempt, after which
      each node before it is sent the previous revision, in order; without one,
      it reaches every node and sends nothing more. */
  ghost predicate RoundIs(before: seq<Notice>, after: seq<Notice>, nodes: seq<Registration>, revision: int, previous: int, answers: seq<(Answer, Answer)>, m: nat)
    requires m <= |nodes| == |answers|
  {
    var all := |before| + NoticesTo(answers, m);
    && SentTo(before, after, nodes, revision, answers, m)
    && (forall i | 0 <= i < m - 1 :: answers[i].0.Confirmed? || answers[i].1.Confirmed?)
    && if m > 0 && !answers[m - 1].0.Confirmed? && !answers[m - 1].1.Confirmed?
       then |after| == all + m - 1 && forall i | 0 <= i < m - 1 :: after[all + i] == Notice(nodes[i].address, previous)
       else m == |nodes| && |after| == all
  }

  lemma {:induction false} SentExact(notices: seq<Notice>, nodes: seq<Registration>, revision: int, answers: seq<(Answer, Answer)>, k: nat)
    requires k <= |nodes| == |answers|
    ensures var after := Sent(notices, nodes, revision, answers, k);
            SentTo(notices, after, nodes, revision, answers, k) && |after| == |notices| + NoticesTo(answers, k)
  {
    hide SentTo, Attempts, NoticesTo;
    if k == 0 {
      NoneSent(notices, nodes, revision, answers);
    } else {
      SentExact(notices, nodes, revision, answers, k - 1);
      var mid := Sent(notices, nodes, revision, answers, k - 1);
      SentOne(notices, mid, mid + Attempts(Notice(nodes[k - 1].address, revision), answers[k - 1]), nodes, revision, answers, k - 1);
    }
  }

  lemma NoneSent(notices: seq<Notice>, nodes: seq<Registration>, revision: int, answers: seq<(Answer, Answer)>)
    requires |nodes| == |answers|
    ensures SentTo(notices, notices, nodes, revision, answers, 0) && NoticesTo(answers, 0) == 0
  {
  }

  lemma SentOne(before: seq<Notice>, mid: seq<Notice>, after: seq<Notice>, nodes: seq<Registration>, revision: int, answers: seq<(Answer, Answer)>, m: nat)
    requires m < |nodes| == |answers| && SentTo(before, mid, nodes, revision, answers, m) && |mid| == |before| + NoticesTo(answers, m)
    requires after == mid + Attempts(Notice(nodes[m].address, revision), answers[m])
    ensures SentTo(before, after, nodes, revision, answers, m + 1) && |after| == |before| + NoticesTo(answers, m + 1)
  {
    hide NoticesTo, NodeSent;
    NoticesToNext(answers, m);
    LastSent(mid, after, nodes[m].address, revision, answers[m]);
    SentMore(before, mid, after, nodes, revision, answers, m);
    hide Attempts;
  }

  lemma NoticesToNext(answers: seq<(Answer, Answer)>, m: nat)
    requires m < |answers|
    ensures NoticesTo(answers, m + 1) == NoticesTo(answers, m) + if answers[m].0.Confirmed? then 1 else 2
  {
  }

  lemma LastSent(mid: seq<Notice>, after: seq<Notice>, address: string, revision: int, answers: (Answer, Answer))
    requires after == mid + Attempts(Notice(address, revision), answers)
    ensures NodeSent(|mid|, after, address, revision, answers.0) && |after| == |mid| + (if answers.0.Confirmed? then 1 else 2) && mid <= after
  {
  }

  lemma SentMore(before: seq<Notice>, mid: seq<Notice>, after: seq<Notice>, nodes: seq<Registration>, revision: int, answers: seq<(Answer, Answer)>, m: nat)
    requires m <= |nodes| == |answers| && SentTo(before, mid, nodes, revision, answers, m) && mid <= after
    ensures SentTo(before, after, nodes, revision, answers, m)
  {
    hide NoticesTo;
  }

  lemma {:induction false} RestoredExact(notices: seq<Notice>, nodes: seq<Registration>, revision: int)
    ensures var after := Restored(notices, nodes, revision);
            && |after| == |notices| + |nodes| && notices <= after
            && forall i | 0 <= i < |nodes| :: after[|notices| + i] == Notice(nodes[i].address, revision)
  {
    if nodes != [] {
      RestoredExact(notices, nodes[..|nodes| - 1], revision);
    }
  }

  lemma RoundExact(notices: seq<Notice>, nodes: seq<Registration>, revision: int, previous: int, answers: seq<(Answer, Answer)>)
    requires |nodes| == |answers|
    ensures exists m | 0 <= m <= |nodes| :: RoundIs(notices, Round(notices, nodes, revision, previous, answers), nodes, revision, previous, answers, m)
  {
    hide SentTo, Sent, Restored, NoticesTo;
    var k := ConfirmedPrefix(answers);
    var m := if k == |answers| then k else k + 1;
    SentExact(notices, nodes, revision, answers, m);
    if k < |answers| {
      var mid := Sent(notices, nodes, revision, answers, m);
      RestoredExact(mid, nodes[..k], previous);
      SentMore(notices, mid, Restored(mid, nodes[..k], previous), nodes, revision, answers, m);
    }
    assert RoundIs(notices, Round(notices, nodes, revision, previous, answers), nodes, revision, previous, answers, m);
  }

  lemma OneGlobalMin(mins: seq<Option<nat>>, m: nat)
    requires IsGlobalMin(mins, m)
    ensures forall k: nat | IsGlobalMin(mins, k) :: k == m
  {
  }

  lemma {:induction false} PrefixIs(answers: seq<(Answer, Answer)>, k: nat)
    requires k <= |answers| && (forall i | 0 <= i < k :: Confirms(answers[i])) && (k < |answers| ==> !Confirms(answers[k]))
    ensures ConfirmedPrefix(answers) == k
  {
  }
}
