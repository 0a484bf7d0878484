/** Exactly when a granted floor holds: creations can break it in some
    interleaving if and only if, at some moment at which a watch could be
    created, the floor does not guard it. */
module GrantedFloor {
  import opened Records
  import opened WatchFloor

  /** Everything but the floor changes themselves. */
  predicate WatchEvent(e: Event) {
    e.Lock? || e.Insert? || e.Cancel? || e.Register? || e.Unregister? || e.Close?
  }

  /** The change has stored its floor and has not failed. */
  predicate Granting(s: State, c: nat) {
    c in s.changes && (s.changes[c].phase.Scanning? || s.changes[c].phase.Done?)
  }

  /** The watchers it has still to look at. */
  function Todo(s: State, c: nat): set<nat>
    requires c in s.changes
  {
    if s.changes[c].phase.Scanning? then s.changes[c].phase.todo else {}
  }

  /** No watch below its revision on any watcher it has looked at; once it has
      succeeded, on none at all. */
  predicate ClearOutside(s: State, c: nat) {
    Granting(s, c) && forall w | w in s.watchers && s.watchers[w].registered && w !in Todo(s, c) :: Clear(s.watchers[w], s.changes[c].target)
  }

  /** A watch could be created there: on such a watcher, or on a new one. */
  predicate CanAdmit(s: State, c: nat)
    requires c in s.changes
  {
    Idle(s) || exists w | w in s.watchers :: s.watchers[w].registered && w !in Todo(s, c)
  }

  /** A watcher is unregistered before it closes. */
  predicate RegisteredOpen(s: State) {
    forall w | w in s.watchers && s.watchers[w].registered :: s.watchers[w].open
  }

  ghost predicate Extends(s: State, ws: seq<Event>, s': State) {
    Reaches(s, ws, s') && forall i | 0 <= i < |ws| :: WatchEvent(ws[i])
  }

  /** Whatever watches do from here on without a floor change. */
  ghost predicate SafeHere(s: State, c: nat) {
    forall ws, s' :: Extends(s, ws, s') ==> ClearOutside(s', c)
  }

  predicate GuardedHere(s: State, c: nat)
    requires c in s.changes
  {
    CanAdmit(s, c) ==> Guards(s.floor, s.changes[c].target)
  }

  // ---- Guarded is safe ----

  lemma WatchKeepsClear(s: State, e: Event, c: nat)
    requires ClearOutside(s, c) && RegisteredOpen(s) && Enabled(s, e) && WatchEvent(e) && GuardedHere(s, c)
    ensures var t := Step(s, e); t.changes == s.changes && t.floor == s.floor && ClearOutside(t, c) && RegisteredOpen(t) && GuardedHere(t, c)
  {
    assert Idle(Step(s, e)) == Idle(s);
  }

  lemma {:induction false} GuardedExtension(s: State, ws: seq<Event>, s': State, c: nat)
    requires ClearOutside(s, c) && RegisteredOpen(s) && GuardedHere(s, c) && Extends(s, ws, s')
    ensures ClearOutside(s', c)
    decreases |ws|
  {
    if ws != [] {
      assert WatchEvent(ws[0]);
      WatchKeepsClear(s, ws[0], c);
      GuardedExtension(Step(s, ws[0]), ws[1..], s', c);
    }
  }

  // ---- Unguarded is not ----

  lemma {:induction false} FreshId(ids: set<nat>) returns (w: nat)
    ensures w !in ids
  {
    if ids == {} {
      w := 0;
    } else {
      var m := MaxExists(ids);
      w := m + 1;
    }
  }

  lemma ExtendsSnoc(s: State, ws: seq<Event>, s': State, e: Event)
    requires Extends(s, ws, s') && WatchEvent(e) && Enabled(s', e)
    ensures Extends(s, ws + [e], Step(s', e))
  {
    hide Step, Enabled;
    Extend(s, ws, s', e);
  }

  /** An open watcher that a watch can be created on. */
  lemma AdmitsSomewhere(s: State, c: nat) returns (ws: seq<Event>, s': State, w: nat)
    requires Granting(s, c) && RegisteredOpen(s) && CanAdmit(s, c)
    ensures Extends(s, ws, s') && s'.changes == s.changes && s'.floor == s.floor
    ensures w in s'.watchers && s'.watchers[w].registered && s'.watchers[w].open && s'.watchers[w].admitting.None? && w !in Todo(s, c)
  {
    ws, s' := [], s;
    if v :| v in s.watchers && s.watchers[v].registered && v !in Todo(s, c) {
      w := v;
      if s.watchers[w].admitting.Some? {
        ExtendsSnoc(s, ws, s', Insert(w));
        ws, s' := ws + [Insert(w)], Step(s', Insert(w));
      }
    } else {
      w := FreshId(s.watchers.Keys);
      ExtendsSnoc(s, ws, s', Register(w));
      ws, s' := ws + [Register(w)], Step(s', Register(w));
    }
  }

  lemma UnguardedBreaks(s: State, c: nat) returns (ws: seq<Event>, s': State)
    requires Granting(s, c) && RegisteredOpen(s) && CanAdmit(s, c) && !Guards(s.floor, s.changes[c].target)
    ensures Extends(s, ws, s') && !ClearOutside(s', c)
  {
    hide Reaches, Extends;
    var w;
    ws, s', w := AdmitsSomewhere(s, c);
    var start := if s.floor > 0 then s.floor + 1 else 1;
    ExtendsSnoc(s, ws, s', Lock(w, 0, start));
    ws, s' := ws + [Lock(w, 0, start)], Step(s', Lock(w, 0, start));
    ExtendsSnoc(s, ws, s', Insert(w));
    ws, s' := ws + [Insert(w)], Step(s', Insert(w));
    assert 0 in s'.watchers[w].watches;
  }

  /** At one moment: creations, cancels, registrations and clean-ups cannot break
      the grant if and only if the floor guards it, wherever a watch could be
      created at all. */
  lemma SafeHereIff(s: State, c: nat)
    requires RegisteredOpen(s) && ClearOutside(s, c)
    ensures SafeHere(s, c) <==> GuardedHere(s, c)
  {
    hide Reaches, Extends, ClearOutside, Step;
    GrantingWhenClear(s, c);
    if GuardedHere(s, c) {
      forall ws, s' | Extends(s, ws, s') ensures ClearOutside(s', c) {
        GuardedExtension(s, ws, s', c);
      }
    } else {
      var ws, s' := UnguardedBreaks(s, c);
    }
  }

  lemma GrantingWhenClear(s: State, c: nat)
    requires ClearOutside(s, c)
    ensures Granting(s, c)
  {
  }

  // ---- Whole runs ----

  ghost predicate GrantingThroughout(s: State, es: seq<Event>, c: nat)
    decreases |es|
  {
    Granting(s, c) && (es != [] ==> Enabled(s, es[0]) && GrantingThroughout(Step(s, es[0]), es[1..], c))
  }

  /** At every moment of the run, whatever watches do from there. */
  ghost predicate NeverBelow(s: State, es: seq<Event>, c: nat)
    requires GrantingThroughout(s, es, c)
    decreases |es|
  {
    SafeHere(s, c) && (es != [] ==> NeverBelow(Step(s, es[0]), es[1..], c))
  }

  ghost predicate Guarded(s: State, es: seq<Event>, c: nat)
    requires GrantingThroughout(s, es, c)
    decreases |es|
  {
    GuardedHere(s, c) && (es != [] ==> Guarded(Step(s, es[0]), es[1..], c))
  }

  lemma StepKeepsClear(s: State, e: Event, c: nat)
    requires ClearOutside(s, c) && RegisteredOpen(s) && GuardedHere(s, c) && Enabled(s, e) && Granting(Step(s, e), c)
    ensures ClearOutside(Step(s, e), c) && RegisteredOpen(Step(s, e))
  {
    if WatchEvent(e) {
      WatchKeepsClear(s, e, c);
    }
  }

  /** Over any run, with any other floor changes overlapping it: a granted floor
      can be broken by no interleaved creation at any moment if and only if
      the floor guards it at every moment a watch could be created. */
  lemma {:induction false} GrantHoldsIff(s: State, es: seq<Event>, c: nat)
    requires GrantingThroughout(s, es, c) && RegisteredOpen(s) && ClearOutside(s, c)
    ensures NeverBelow(s, es, c) <==> Guarded(s, es, c)
    decreases |es|
  {
    SafeHereIff(s, c);
    if es != [] && GuardedHere(s, c) {
      StepKeepsClear(s, es[0], c);
      hide Step, Enabled, ClearOutside, SafeHere, GuardedHere, Granting;
      GrantHoldsIff(Step(s, es[0]), es[1..], c);
    }
  }

  /** It begins with the change's own store, which has everything still to look
      at, and at its success it is about every watcher. */
  lemma StoreIsClear(s: State, c: nat)
    requires Enabled(s, Store(c))
    ensures ClearOutside(Step(s, Store(c)), c)
  {
  }

  lemma DoneIsNoneBelow(s: State, c: nat)
    requires c in s.changes && s.changes[c].phase.Done?
    ensures ClearOutside(s, c) <==> NoneBelow(s, s.changes[c].target)
  {
  }

  lemma {:induction false} RunKeepsOpen(s: State, es: seq<Event>, s': State)
    requires RegisteredOpen(s) && Reaches(s, es, s')
    ensures RegisteredOpen(s')
    decreases |es|
  {
    if es != [] {
      StepKeepsOpen(s, es[0]);
      RunKeepsOpen(Step(s, es[0]), es[1..], s');
    }
  }

  lemma StepKeepsOpen(s: State, e: Event)
    requires RegisteredOpen(s) && Enabled(s, e)
    ensures RegisteredOpen(Step(s, e))
  {
  }

  /** The whole life of a floor change in a run from the start. */
  lemma ChangeHoldsIff(past: seq<Event>, s: State, c: nat, es: seq<Event>)
    requires Reaches(START, past, s) && Enabled(s, Store(c)) && GrantingThroughout(Step(s, Store(c)), es, c)
    ensures NeverBelow(Step(s, Store(c)), es, c) <==> Guarded(Step(s, Store(c)), es, c)
  {
    RunKeepsOpen(START, past, s);
    StepKeepsOpen(s, Store(c));
    StoreIsClear(s, c);
    hide Step, Enabled, Reaches, NeverBelow, Guarded;
    GrantHoldsIff(Step(s, Store(c)), es, c);
  }
}
