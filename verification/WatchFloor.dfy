/** The watch-admission floor, at the granularity of its atomic loads and stores
    and of the per-watcher lock: any number of floor changes, watch creations,
    cancels, registrations and clean-ups interleave. */
module WatchFloor {
  import opened Records

  /** `admitting` is a creation that holds the write lock: it has passed the
      re-check of the floor and has not yet added its watch. */
  datatype Watcher = Watcher(registered: bool, open: bool, watches: map<nat, nat>, admitting: Option<(nat, nat)>)

  datatype Phase = Loaded | Scanning(todo: set<nat>) | Failing | Failed | Done

  /** `kept` is history: since its store every floor has guarded `target`. */
  datatype Change = Change(previous: int, target: int, phase: Phase, kept: bool)

  datatype State = State(floor: int, watchers: map<nat, Watcher>, changes: map<nat, Change>)

  /** `Lock` is a creation that has passed its first check, against whatever
      floor and persisted revision it read then, taking the write lock. */
  datatype Event =
    | Load(change: nat, target: int)
    | Store(change: nat)
    | Scan(change: nat, watcher: nat)
    | Finish(change: nat)
    | Restore(change: nat)
    | Lock(watcher: nat, id: nat, start: nat)
    | Insert(watcher: nat)
    | Cancel(watcher: nat, id: nat)
    | Register(watcher: nat)
    | Unregister(watcher: nat)
    | Close(watcher: nat)

  const START := State(0, map[], map[])

  predicate Running(p: Phase) {
    p.Loaded? || p.Scanning? || p.Failing?
  }

  /** A running change holds the manager's read lock. */
  predicate Idle(s: State) {
    forall c | c in s.changes :: !Running(s.changes[c].phase)
  }

  predicate Unlocked(s: State, w: nat) {
    w in s.watchers && s.watchers[w].admitting.None?
  }

  predicate Enabled(s: State, e: Event) {
    match e
    case Load(c, _) => c !in s.changes
    case Store(c) => c in s.changes && s.changes[c].phase.Loaded?
    case Scan(c, w) => c in s.changes && s.changes[c].phase.Scanning? && w in s.changes[c].phase.todo && Unlocked(s, w)
    case Finish(c) => c in s.changes && s.changes[c].phase == Scanning({})
    case Restore(c) => c in s.changes && s.changes[c].phase.Failing?
    case Lock(w, _, _) => Unlocked(s, w)
    case Insert(w) => w in s.watchers && s.watchers[w].admitting.Some?
    case Cancel(w, _) => Unlocked(s, w)
    case Register(w) => w !in s.watchers && Idle(s)
    case Unregister(w) => w in s.watchers && Idle(s)
    case Close(w) => Unlocked(s, w) && !s.watchers[w].registered
  }

  /** Admission under the floor rejects every start below `target`: it rejects
      starts up to and including the floor. */
  predicate Guards(floor: int, target: int) {
    target <= 1 || floor >= target - 1
  }

  /** A floor store is seen by every change. */
  function Moved(s: State, floor: int): State {
    s.(floor := floor,
       changes := map c | c in s.changes :: s.changes[c].(kept := s.changes[c].kept && Guards(floor, s.changes[c].target)))
  }

  predicate Allowed(start: nat, floor: int) {
    start == 0 || start >= floor
  }

  function WithPhase(s: State, c: nat, p: Phase): State
    requires c in s.changes
  {
    s.(changes := s.changes[c := s.changes[c].(phase := p)])
  }

  function WithWatcher(s: State, w: nat, x: Watcher): State {
    s.(watchers := s.watchers[w := x])
  }

  function Step(s: State, e: Event): State
    requires Enabled(s, e)
  {
    match e
    case Load(c, target) => s.(changes := s.changes[c := Change(s.floor, target, Loaded, false)])
    case Store(c) =>
      var t := s.changes[c].target;
      var m := Moved(s, t);
      m.(changes := m.changes[c := Change(s.changes[c].previous, t,
                                          Scanning(set w | w in s.watchers && s.watchers[w].registered), true)])
    case Scan(c, w) =>
      if forall id | id in s.watchers[w].watches :: Allowed(s.watchers[w].watches[id], s.changes[c].target)
      then WithPhase(s, c, Scanning(s.changes[c].phase.todo - {w}))
      else WithPhase(s, c, Failing)
    case Finish(c) => WithPhase(s, c, Done)
    case Restore(c) => WithPhase(Moved(s, s.changes[c].previous), c, Failed)
    case Lock(w, id, start) =>
      if !s.watchers[w].open || (start > 0 && s.floor > 0 && start <= s.floor) then s
      else WithWatcher(s, w, s.watchers[w].(admitting := Some((id, start))))
    case Insert(w) =>
      var x := s.watchers[w];
      WithWatcher(s, w, x.(watches := x.watches[x.admitting.value.0 := x.admitting.value.1], admitting := None))
    case Cancel(w, id) => WithWatcher(s, w, s.watchers[w].(watches := s.watchers[w].watches - {id}))
    case Register(w) => WithWatcher(s, w, Watcher(true, true, map[], None))
    case Unregister(w) => WithWatcher(s, w, s.watchers[w].(registered := false))
    case Close(w) => WithWatcher(s, w, s.watchers[w].(open := false, watches := map[]))
  }

  ghost predicate Reaches(s: State, es: seq<Event>, s': State)
    decreases |es|
  {
    if es == [] then s == s' else Enabled(s, es[0]) && Reaches(Step(s, es[0]), es[1..], s')
  }

  // ---- What the floor protects ----

  /** No watch below the floor, active or about to be. */
  predicate Clear(x: Watcher, floor: int) {
    && (forall id | id in x.watches :: Allowed(x.watches[id], floor))
    && (x.admitting.Some? ==> Allowed(x.admitting.value.1, floor))
  }

  predicate Covers(ch: Change, w: nat, x: Watcher) {
    match ch.phase
    case Loaded => false
    case Scanning(todo) => w in todo || Clear(x, ch.target)
    case Failing => true
    case Failed => true
    case Done => Clear(x, ch.target)
  }

  predicate FloorInv(s: State) {
    forall c | c in s.changes && s.changes[c].kept ::
      && Guards(s.floor, s.changes[c].target) && !s.changes[c].phase.Loaded?
      && forall w | w in s.watchers && s.watchers[w].registered :: Covers(s.changes[c], w, s.watchers[w])
  }

  lemma ChangeKeepsFloor(s: State, e: Event)
    requires FloorInv(s) && Enabled(s, e) && (e.Load? || e.Store? || e.Scan? || e.Finish? || e.Restore?)
    ensures FloorInv(Step(s, e))
  {
  }

  lemma WatchKeepsFloor(s: State, e: Event)
    requires FloorInv(s) && Enabled(s, e) && !(e.Load? || e.Store? || e.Scan? || e.Finish? || e.Restore?)
    ensures FloorInv(Step(s, e))
  {
  }

  lemma {:induction false} RunKeepsFloor(s: State, es: seq<Event>, s': State)
    requires FloorInv(s) && Reaches(s, es, s')
    ensures FloorInv(s')
    decreases |es|
  {
    if es != [] {
      if es[0].Load? || es[0].Store? || es[0].Scan? || es[0].Finish? || es[0].Restore? {
        ChangeKeepsFloor(s, es[0]);
      } else {
        WatchKeepsFloor(s, es[0]);
      }
      RunKeepsFloor(Step(s, es[0]), es[1..], s');
    }
  }

  predicate NoneBelow(s: State, floor: int) {
    forall w | w in s.watchers && s.watchers[w].registered :: Clear(s.watchers[w], floor)
  }

  /** In every interleaving: once a change has succeeded, and for as long as every
      floor guards it, no active watch is below its revision. */
  lemma SucceededFloorHolds(es: seq<Event>, s: State, c: nat)
    requires Reaches(START, es, s)
    requires c in s.changes && s.changes[c].phase.Done? && s.changes[c].kept
    ensures NoneBelow(s, s.changes[c].target)
  {
    RunKeepsFloor(START, es, s);
  }

  // ---- When the floor is not lowered ----

  /** Changes do not overlap and none starts below the floor. */
  predicate Orderly(s: State, e: Event) {
    e.Load? ==> Idle(s) && e.target >= s.floor
  }

  ghost predicate OrderlyRun(s: State, es: seq<Event>)
    decreases |es|
  {
    es != [] ==> Enabled(s, es[0]) && Orderly(s, es[0]) && OrderlyRun(Step(s, es[0]), es[1..])
  }

  predicate AtMostOneRuns(s: State) {
    forall c, d | c in s.changes && d in s.changes && Running(s.changes[c].phase) && Running(s.changes[d].phase) :: c == d
  }

  /** What running change `c` would restore keeps every floor already granted. */
  predicate RestoreIsSafe(s: State, c: nat)
    requires c in s.changes
  {
    && s.changes[c].target >= s.changes[c].previous
    && (s.changes[c].phase.Loaded? ==> s.floor == s.changes[c].previous)
    && forall d | d in s.changes && s.changes[d].phase.Done? :: s.changes[c].previous >= s.changes[d].target
  }

  predicate GrantsKept(s: State) {
    && AtMostOneRuns(s)
    && (forall c | c in s.changes :: s.changes[c].phase.Done? || s.changes[c].phase.Scanning? ==> s.changes[c].kept)
    && (forall c | c in s.changes && s.changes[c].kept && !s.changes[c].phase.Failed? :: s.floor >= s.changes[c].target)
    && forall c | c in s.changes && Running(s.changes[c].phase) :: RestoreIsSafe(s, c)
  }

  lemma StepKeepsGrants(s: State, e: Event)
    requires GrantsKept(s) && Enabled(s, e) && Orderly(s, e)
    ensures GrantsKept(Step(s, e))
  {
    if e.Load? || e.Store? {
      StartKeepsGrants(s, e);
    } else if e.Scan? || e.Finish? {
      ScanKeepsGrants(s, e);
    } else if e.Restore? {
      RestoreKeepsGrants(s, e);
    }
  }

  lemma StartKeepsGrants(s: State, e: Event)
    requires GrantsKept(s) && Enabled(s, e) && Orderly(s, e) && (e.Load? || e.Store?)
    ensures GrantsKept(Step(s, e))
  {
  }

  lemma ScanKeepsGrants(s: State, e: Event)
    requires GrantsKept(s) && Enabled(s, e) && (e.Scan? || e.Finish?)
    ensures GrantsKept(Step(s, e))
  {
  }

  lemma RestoreKeepsGrants(s: State, e: Event)
    requires GrantsKept(s) && Enabled(s, e) && e.Restore?
    ensures GrantsKept(Step(s, e))
  {
  }

  lemma {:induction false} RunKeepsGrants(s: State, es: seq<Event>, s': State)
    requires GrantsKept(s) && Reaches(s, es, s') && OrderlyRun(s, es)
    ensures GrantsKept(s')
    decreases |es|
  {
    if es != [] {
      StepKeepsGrants(s, es[0]);
      RunKeepsGrants(Step(s, es[0]), es[1..], s');
    }
  }

  /** Without overlapping or lowering changes every success is for good, however
      watch creations and cancels interleave with it. */
  lemma OrderlyFloorHolds(es: seq<Event>, s: State, c: nat)
    requires Reaches(START, es, s) && OrderlyRun(START, es)
    requires c in s.changes && s.changes[c].phase.Done?
    ensures NoneBelow(s, s.changes[c].target)
  {
    RunKeepsGrants(START, es, s);
    SucceededFloorHolds(es, s, c);
  }

  // ---- When it is ----

  lemma {:induction false} Extend(s: State, es: seq<Event>, s': State, e: Event)
    requires Reaches(s, es, s') && Enabled(s', e)
    ensures Reaches(s, es + [e], Step(s', e))
    decreases |es|
  {
    if es == [] {
      assert [e][1..] == [];
    } else {
      Extend(Step(s, es[0]), es[1..], s', e);
      assert (es + [e])[1..] == es[1..] + [e];
    }
  }

  /** A notice that timed out is sent again while the first is still at work:
      the first fails on a watch that is then cancelled, the second succeeds,
      and the first's roll-back lowers the floor the second was granted. */
  lemma LateRollbackLowersFloor() returns (es: seq<Event>, s: State)
    ensures Reaches(START, es, s) && 1 in s.changes && s.changes[1] == Change(10, 10, Done, false)
    ensures !NoneBelow(s, 10)
  {
    hide Reaches;
    es, s := WatchBelow();
    es, s := FirstNotice(es, s);
    es, s := SecondNotice(es, s);
    Extend(START, es, s, Restore(0));
    es, s := es + [Restore(0)], Step(s, Restore(0));
    Extend(START, es, s, Lock(7, 4, 5));
    es, s := es + [Lock(7, 4, 5)], Step(s, Lock(7, 4, 5));
    Extend(START, es, s, Insert(7));
    es, s := es + [Insert(7)], Step(s, Insert(7));
    assert 4 in s.watchers[7].watches;
  }

  lemma FirstNotice(es: seq<Event>, s: State) returns (es': seq<Event>, s': State)
    requires Reaches(START, es, s) && s == State(0, map[7 := Watcher(true, true, map[3 := 5], None)], map[])
    ensures Reaches(START, es', s') && s'.floor == 10 && s'.changes == map[0 := Change(0, 10, Failing, true)]
    ensures s'.watchers == map[7 := Watcher(true, true, map[], None)]
  {
    hide Reaches;
    Extend(START, es, s, Load(0, 10));
    es', s' := es + [Load(0, 10)], Step(s, Load(0, 10));
    Extend(START, es', s', Store(0));
    es', s' := es' + [Store(0)], Step(s', Store(0));
    Extend(START, es', s', Scan(0, 7));
    assert 3 in s'.watchers[7].watches;
    es', s' := es' + [Scan(0, 7)], Step(s', Scan(0, 7));
    Extend(START, es', s', Cancel(7, 3));
    es', s' := es' + [Cancel(7, 3)], Step(s', Cancel(7, 3));
  }

  lemma WatchBelow() returns (es: seq<Event>, s: State)
    ensures Reaches(START, es, s) && s == State(0, map[7 := Watcher(true, true, map[3 := 5], None)], map[])
  {
    es, s := [], START;
    Extend(START, es, s, Register(7));
    es, s := es + [Register(7)], Step(s, Register(7));
    Extend(START, es, s, Lock(7, 3, 5));
    es, s := es + [Lock(7, 3, 5)], Step(s, Lock(7, 3, 5));
    Extend(START, es, s, Insert(7));
    es, s := es + [Insert(7)], Step(s, Insert(7));
  }

  lemma SecondNotice(es: seq<Event>, s: State) returns (es': seq<Event>, s': State)
    requires Reaches(START, es, s) && s.floor == 10 && s.changes == map[0 := Change(0, 10, Failing, true)]
    requires s.watchers == map[7 := Watcher(true, true, map[], None)]
    ensures Reaches(START, es', s') && s'.floor == 10 && s'.watchers == s.watchers
    ensures s'.changes == map[0 := Change(0, 10, Failing, true), 1 := Change(10, 10, Done, true)]
  {
    hide Reaches;
    Extend(START, es, s, Load(1, 10));
    es', s' := es + [Load(1, 10)], Step(s, Load(1, 10));
    Extend(START, es', s', Store(1));
    es', s' := es' + [Store(1)], Step(s', Store(1));
    assert s'.changes[1].phase.todo == {7};
    Extend(START, es', s', Scan(1, 7));
    es', s' := es' + [Scan(1, 7)], Step(s', Scan(1, 7));
    assert s'.changes[1].phase.todo == {};
    Extend(START, es', s', Finish(1));
    es', s' := es' + [Finish(1)], Step(s', Finish(1));
  }
}
