/** The watch manager and its watchers, updated in place: distribution into
    bounded inboxes, creation, cancellation, clean-up and the floor. */
module WatchManager {
  import opened Bytes
  import opened Records
  import opened Sets
  import opened KeyRange

  const INBOX_CAPACITY: nat := 64

  /** A distributed record with the key's previous one, if still readable. */
  type Change = (Record, Option<Record>)

  /** `since` is history: how many records had been distributed when the watch
      was created. */
  datatype Watch = Watch(
    key: Bytes,
    rangeEnd: Bytes,
    start: nat,
    prevKv: bool,
    noPut: bool,
    noDelete: bool,
    progressNotify: bool,
    since: nat)

  /** A progress message names one watch, or none when it is for them all. */
  datatype Message = Event(watch: nat, change: Change) | Progress(target: Option<nat>, revision: nat)

  /** One client stream. `sent` and `past` are history: the messages drained from
      the inbox, and each watch that has ended with the number of records
      distributed by then. */
  datatype Watcher = Watcher(open: bool, watches: map<nat, Watch>, inbox: seq<Message>, sent: seq<Message>, past: map<nat, (Watch, nat)>)

  /** The filters and the start revision let the record through to the range. */
  predicate Examines(w: Watch, r: Record) {
    !(w.noPut && !r.deleted) && !(w.noDelete && r.deleted) && w.start <= r.revision
  }

  predicate IsWatchMatch(w: Watch, r: Record) {
    Examines(w, r) && w.key != [] && IsInRange(r.key, w.key, w.rangeEnd)
  }

  /** The range test of an empty key slices below zero. */
  predicate Panics(w: Watch, r: Record) {
    Examines(w, r) && w.key == []
  }

  function ToMessage(id: nat, w: Watch, c: Change): Message {
    Event(id, (c.0, if w.prevKv then c.1 else None))
  }

  /** What a watch should be told of `log`, and in which order. */
  function Due(id: nat, w: Watch, log: seq<Change>): seq<Message> {
    if log == [] then []
    else
      var last := log[|log| - 1];
      Due(id, w, log[..|log| - 1]) + if IsWatchMatch(w, last.0) then [ToMessage(id, w, last)] else []
  }

  /** The events addressed to one watch. */
  function Of(ms: seq<Message>, id: nat): seq<Message> {
    if ms == [] then []
    else
      var last := ms[|ms| - 1];
      Of(ms[..|ms| - 1], id) + if last.Event? && last.watch == id then [last] else []
  }

  /** It keeps the events of the watch, in order, and drops the rest. */
  lemma {:induction false} OfConcat(a: seq<Message>, b: seq<Message>, id: nat)
    ensures Of(a + b, id) == Of(a, id) + Of(b, id)
    ensures |b| == 1 ==> Of(b, id) == if b[0].Event? && b[0].watch == id then b else []
  {
    if b == [] {
      assert a + b == a;
    } else {
      OfConcat(a, b[..|b| - 1], id);
      assert (a + b)[..|a + b| - 1] == a + b[..|b| - 1];
    }
  }

  // ---- No gaps ----

  /** The stream has been queued exactly what its watches were due. */
  ghost predicate InStep(x: Watcher, log: seq<Change>) {
    && |x.inbox| <= INBOX_CAPACITY
    && (!x.open ==> x.watches == map[])
    && (forall id | id in x.watches ::
          x.watches[id].since <= |log| && Of(x.sent + x.inbox, id) == Due(id, x.watches[id], log[x.watches[id].since..]))
    && forall id | id in x.past ::
         && x.past[id].0.since <= x.past[id].1 <= |log|
         && Of(x.sent + x.inbox, id) <= Due(id, x.past[id].0, log[x.past[id].0.since..x.past[id].1])
  }

  ghost predicate Numbered(x: Watcher, next: nat) {
    && (forall id | id in x.watches || id in x.past :: id < next)
    && x.watches.Keys !! x.past.Keys
    && forall id: nat | id >= next :: Of(x.sent + x.inbox, id) == []
  }

  function Ended(x: Watcher, now: nat): Watcher {
    x.(open := false, watches := map[], past := x.past + map id | id in x.watches :: (x.watches[id], now))
  }

  function Matching(x: Watcher, r: Record): set<nat> {
    set id | id in x.watches && IsWatchMatch(x.watches[id], r)
  }

  function DueNow(x: Watcher, id: nat, c: Change): seq<Message> {
    if id in x.watches && IsWatchMatch(x.watches[id], c.0) then [ToMessage(id, x.watches[id], c)] else []
  }

  /** Each matching watch is queued the record once, in whatever map order; a
      slow stream may miss it on some. */
  ghost predicate Offered(x: Watcher, c: Change, x': Watcher, slow: bool) {
    && x' == x.(inbox := x'.inbox) && |x'.inbox| <= INBOX_CAPACITY
    && forall id: nat ::
         || Of(x'.inbox, id) == Of(x.inbox, id) + DueNow(x, id, c)
         || (slow && Of(x'.inbox, id) == Of(x.inbox, id))
  }

  /** Half-way: the watches in `todo` have not been looked at. */
  ghost predicate Partly(x: Watcher, c: Change, inbox: seq<Message>, todo: set<nat>) {
    && |inbox| == |x.inbox| + |Matching(x, c.0) - todo| <= INBOX_CAPACITY
    && forall id: nat :: Of(inbox, id) == Of(x.inbox, id) + if id in todo then [] else DueNow(x, id, c)
  }

  // ---- What a watch is told, in the terms of the etcd API ----

  /** The record is not before the start, and not filtered out. */
  predicate LooksAt(w: Watch, r: Record) {
    w.start <= r.revision && (if r.deleted then !w.noDelete else !w.noPut)
  }

  /** It is in the watch's interval too, for the ranges the test is faithful to;
      no record has an empty key. */
  predicate Covers(w: Watch, r: Record) {
    && LooksAt(w, r) && w.key != []
    && if r.key != [] && Faithful(w.key, w.rangeEnd) then InInterval(r.key, w.key, w.rangeEnd) else IsInRange(r.key, w.key, w.rangeEnd)
  }

  lemma CoversIffMatch(w: Watch, r: Record)
    ensures Covers(w, r) <==> IsWatchMatch(w, r)
    ensures Panics(w, r) <==> LooksAt(w, r) && w.key == []
  {
    hide IsInRange, InInterval, Faithful;
    if r.key != [] && w.key != [] && Faithful(w.key, w.rangeEnd) {
      InRangeIsInterval(r.key, w.key, w.rangeEnd);
    }
  }

  ghost function Covering(x: Watcher, r: Record): set<nat> {
    set id | id in x.watches && Covers(x.watches[id], r)
  }

  /** `gained` holds one event for each of the watches `ids` that covers the
      record, with the previous record if the watch asked for it, and nothing
      else. */
  ghost predicate Tells(x: Watcher, record: Record, prev: Option<Record>, ids: set<nat>, gained: seq<Message>) {
    && (forall i | 0 <= i < |gained| ::
          && gained[i].Event? && gained[i].watch in ids && gained[i].watch in Covering(x, record)
          && gained[i].change == (record, if x.watches[gained[i].watch].prevKv then prev else None))
    && (forall i, j | 0 <= i < j < |gained| :: gained[i].watch != gained[j].watch)
    && forall id | id in ids && id in Covering(x, record) :: exists i | 0 <= i < |gained| :: gained[i].watch == id
  }

  /** Every watch of the stream is told, or only some of them before its inbox
      is full. */
  ghost predicate Told(x: Watcher, record: Record, prev: Option<Record>, inbox: seq<Message>, slow: bool) {
    && x.inbox <= inbox
    && if slow then exists ids :: Tells(x, record, prev, ids, inbox[|x.inbox|..])
       else Tells(x, record, prev, x.watches.Keys, inbox[|x.inbox|..])
  }

  lemma NoneTold(x: Watcher, c: Change)
    ensures Tells(x, c.0, c.1, {}, [])
  {
  }

  lemma TellOne(x: Watcher, c: Change, ids: set<nat>, gained: seq<Message>, id: nat)
    requires Tells(x, c.0, c.1, ids, gained) && id in x.watches && id !in ids
    ensures !IsWatchMatch(x.watches[id], c.0) ==> Tells(x, c.0, c.1, ids + {id}, gained)
    ensures IsWatchMatch(x.watches[id], c.0) ==> Tells(x, c.0, c.1, ids + {id}, gained + [ToMessage(id, x.watches[id], c)])
  {
    hide IsWatchMatch, Covers;
    CoversIffMatch(x.watches[id], c.0);
    var more := gained + [ToMessage(id, x.watches[id], c)];
    assert more[|gained|].watch == id;
    forall k | k in ids && k in Covering(x, c.0) ensures exists i | 0 <= i < |more| :: more[i].watch == k {
      var i :| 0 <= i < |gained| && gained[i].watch == k;
      assert more[i].watch == k;
    }
  }

  /** The inner loop of Distribute: overflow exactly when the matching watches
      need more room than the inbox has. */
  method Offer(x: Watcher, c: Change) returns (x': Watcher, slow: bool)
    requires |x.inbox| <= INBOX_CAPACITY
    ensures Offered(x, c, x', slow) && Told(x, c.0, c.1, x'.inbox, slow)
    ensures slow <==> |x.inbox| + |Matching(x, c.0)| > INBOX_CAPACITY
  {
    hide Partly, Offered, Matching, IsInRange, Tells, IsWatchMatch;
    x' := x;
    var todo := x.watches.Keys;
    NoneYet(x, c);
    ghost var ids, gained := {}, [];
    NoneTold(x, c);
    assert x.inbox == x.inbox + gained;
    while todo != {}
      invariant todo <= x.watches.Keys && x' == x.(inbox := x'.inbox) && Partly(x, c, x'.inbox, todo)
      invariant ids == x.watches.Keys - todo && x'.inbox == x.inbox + gained && Tells(x, c.0, c.1, ids, gained)
      decreases |todo|
    {
      var id :| id in todo;
      TellOne(x, c, ids, gained, id);
      if IsWatchMatch(x.watches[id], c.0) {
        if |x'.inbox| >= INBOX_CAPACITY {
          Overflows(x, c, x', todo, id);
          assert x'.inbox[|x.inbox|..] == gained;
          return x', true;
        }
        QueueOne(x, c, x'.inbox, todo, id);
        gained := gained + [ToMessage(id, x.watches[id], c)];
        x' := x'.(inbox := x'.inbox + [ToMessage(id, x.watches[id], c)]);
      } else {
        SkipOne(x, c, x'.inbox, todo, id);
      }
      todo, ids := todo - {id}, ids + {id};
    }
    AllOffered(x, c, x');
    assert x'.inbox[|x.inbox|..] == gained && ids == x.watches.Keys;
    slow := false;
  }

  lemma NoneYet(x: Watcher, c: Change)
    requires |x.inbox| <= INBOX_CAPACITY
    ensures Partly(x, c, x.inbox, x.watches.Keys)
  {
  }

  lemma QueueOne(x: Watcher, c: Change, inbox: seq<Message>, todo: set<nat>, id: nat)
    requires Partly(x, c, inbox, todo) && id in todo && id in x.watches && IsWatchMatch(x.watches[id], c.0) && |inbox| < INBOX_CAPACITY
    ensures Partly(x, c, inbox + [ToMessage(id, x.watches[id], c)], todo - {id})
  {
    hide IsWatchMatch;
    var m := ToMessage(id, x.watches[id], c);
    assert (inbox + [m])[..|inbox + [m]| - 1] == inbox;
    Grows(Matching(x, c.0), todo, id);
  }

  lemma SkipOne(x: Watcher, c: Change, inbox: seq<Message>, todo: set<nat>, id: nat)
    requires Partly(x, c, inbox, todo) && id in todo && id in x.watches && !IsWatchMatch(x.watches[id], c.0)
    ensures Partly(x, c, inbox, todo - {id})
  {
    hide Of, IsWatchMatch;
    assert Matching(x, c.0) - (todo - {id}) == Matching(x, c.0) - todo;
  }

  lemma Overflows(x: Watcher, c: Change, x': Watcher, todo: set<nat>, id: nat)
    requires Partly(x, c, x'.inbox, todo) && x' == x.(inbox := x'.inbox) && |x'.inbox| >= INBOX_CAPACITY
    requires id in todo && id in x.watches && IsWatchMatch(x.watches[id], c.0)
    ensures Offered(x, c, x', true) && |x.inbox| + |Matching(x, c.0)| > INBOX_CAPACITY
  {
    hide Of, IsWatchMatch;
    Grows(Matching(x, c.0), todo, id);
  }

  lemma AllOffered(x: Watcher, c: Change, x': Watcher)
    requires Partly(x, c, x'.inbox, {}) && x' == x.(inbox := x'.inbox)
    ensures Offered(x, c, x', false) && |x.inbox| + |Matching(x, c.0)| <= INBOX_CAPACITY
  {
  }

  lemma Grows(a: set<nat>, todo: set<nat>, id: nat)
    requires id in a && id in todo
    ensures |a - (todo - {id})| == |a - todo| + 1 <= |a|
  {
    assert a - (todo - {id}) == (a - todo) + {id};
    SubsetCount(a - (todo - {id}), a);
  }

  // ---- One record, one stream ----

  /** What is due is one event for each covered record, in the order they were
      distributed. */
  lemma DueNext(id: nat, w: Watch, log: seq<Change>, c: Change)
    requires w.since <= |log|
    ensures Due(id, w, []) == []
    ensures Due(id, w, (log + [c])[w.since..]) == Due(id, w, log[w.since..]) + if IsWatchMatch(w, c.0) then [ToMessage(id, w, c)] else []
    ensures Due(id, w, (log + [c])[w.since..]) == Due(id, w, log[w.since..]) +
            if Covers(w, c.0) then [Event(id, (c.0, if w.prevKv then c.1 else None))] else []
  {
    hide IsWatchMatch, Covers;
    CoversIffMatch(w, c.0);
    var rest := (log + [c])[w.since..];
    assert rest == log[w.since..] + [c];
    assert rest[..|rest| - 1] == log[w.since..];
  }

  lemma WatchStaysInStep(x: Watcher, log: seq<Change>, c: Change, x': Watcher, slow: bool, id: nat)
    requires InStep(x, log) && Offered(x, c, x', slow) && id in x.watches
    ensures var due := Due(id, x.watches[id], (log + [c])[x.watches[id].since..]);
            if slow then Of(x'.sent + x'.inbox, id) <= due else Of(x'.sent + x'.inbox, id) == due
  {
    DueNext(id, x.watches[id], log, c);
    OfConcat(x.sent, x.inbox, id);
    OfConcat(x.sent, x'.inbox, id);
  }

  lemma PastStaysInStep(x: Watcher, log: seq<Change>, c: Change, x': Watcher, slow: bool, id: nat)
    requires InStep(x, log) && Offered(x, c, x', slow) && id in x.past && id !in x.watches
    ensures Of(x'.sent + x'.inbox, id) <= Due(id, x.past[id].0, (log + [c])[x.past[id].0.since..x.past[id].1])
  {
    assert (log + [c])[x.past[id].0.since..x.past[id].1] == log[x.past[id].0.since..x.past[id].1];
    OfConcat(x.sent, x.inbox, id);
    OfConcat(x.sent, x'.inbox, id);
  }

  /** A record leaves an open stream exactly in step, and a stream it overflows
      closed with a prefix of what was due: never a gap. */
  lemma OfferKeepsStep(x: Watcher, log: seq<Change>, c: Change, x': Watcher, slow: bool)
    requires InStep(x, log) && x.watches.Keys !! x.past.Keys && x.open && Offered(x, c, x', slow)
    requires x' == x.(inbox := x'.inbox) && |x'.inbox| <= INBOX_CAPACITY
    ensures InStep(if slow then Ended(x', |log| + 1) else x', log + [c])
  {
    hide Offered, Due, Of, IsWatchMatch;
    forall id | id in x.watches
      ensures var due := Due(id, x.watches[id], (log + [c])[x.watches[id].since..]);
              && (if slow then Of(x'.sent + x'.inbox, id) <= due else Of(x'.sent + x'.inbox, id) == due)
              && due == Due(id, x.watches[id], (log + [c])[x.watches[id].since..|log| + 1])
    {
      WatchStaysInStep(x, log, c, x', slow, id);
      assert (log + [c])[x.watches[id].since..|log| + 1] == (log + [c])[x.watches[id].since..];
    }
    forall id | id in x.past
      ensures Of(x'.sent + x'.inbox, id) <= Due(id, x.past[id].0, (log + [c])[x.past[id].0.since..x.past[id].1])
    {
      PastStaysInStep(x, log, c, x', slow, id);
    }
  }

  // ---- Every other operation ----

  ghost predicate StreamOk(x: Watcher, log: seq<Change>, next: nat) {
    InStep(x, log) && Numbered(x, next)
  }

  lemma OfferKeepsStream(x: Watcher, log: seq<Change>, next: nat, c: Change, x': Watcher, slow: bool)
    requires StreamOk(x, log, next) && x.open && Offered(x, c, x', slow)
    ensures StreamOk(if slow then Ended(x', |log| + 1) else x', log + [c], next)
  {
    hide InStep, Due, IsWatchMatch;
    OfferKeepsStep(x, log, c, x', slow);
    forall id: nat | id >= next ensures Of(x'.sent + x'.inbox, id) == [] {
      OfConcat(x.sent, x.inbox, id);
      OfConcat(x.sent, x'.inbox, id);
    }
  }

  /** A stream that has ended misses what comes later. */
  lemma ClosedKeepsStream(x: Watcher, log: seq<Change>, next: nat, c: Change)
    requires StreamOk(x, log, next) && !x.open
    ensures StreamOk(x, log + [c], next)
  {
    hide Of, Due;
    forall id | id in x.past
      ensures (log + [c])[x.past[id].0.since..x.past[id].1] == log[x.past[id].0.since..x.past[id].1]
    {
    }
  }

  function WithWatch(x: Watcher, id: nat, w: Watch): Watcher {
    x.(watches := x.watches[id := w])
  }

  lemma CreateKeepsStream(x: Watcher, log: seq<Change>, next: nat, w: Watch)
    requires StreamOk(x, log, next) && x.open && w.since == |log|
    ensures StreamOk(WithWatch(x, next, w), log, next + 1)
  {
  }

  function WithoutWatch(x: Watcher, id: nat, now: nat): Watcher {
    if id in x.watches then x.(watches := x.watches - {id}, past := x.past[id := (x.watches[id], now)]) else x
  }

  lemma CancelKeepsStream(x: Watcher, log: seq<Change>, next: nat, id: nat)
    requires StreamOk(x, log, next)
    ensures StreamOk(WithoutWatch(x, id, |log|), log, next)
  {
    hide Of, Due;
    if id in x.watches {
      assert log[x.watches[id].since..|log|] == log[x.watches[id].since..];
    }
  }

  lemma EndKeepsStream(x: Watcher, log: seq<Change>, next: nat)
    requires StreamOk(x, log, next)
    ensures StreamOk(Ended(x, |log|), log, next)
  {
    hide Of, Due;
    forall id | id in x.watches ensures log[x.watches[id].since..|log|] == log[x.watches[id].since..] {
    }
  }

  function Drained(x: Watcher): Watcher
    requires x.inbox != []
  {
    x.(sent := x.sent + [x.inbox[0]], inbox := x.inbox[1..])
  }

  lemma DrainKeepsStream(x: Watcher, log: seq<Change>, next: nat)
    requires StreamOk(x, log, next) && x.inbox != []
    ensures StreamOk(Drained(x), log, next)
  {
    hide Of, Due;
    assert x.sent + [x.inbox[0]] + x.inbox[1..] == x.sent + x.inbox;
  }

  lemma ProgressKeepsStream(x: Watcher, log: seq<Change>, next: nat, m: Message)
    requires StreamOk(x, log, next) && |x.inbox| < INBOX_CAPACITY && m.Progress?
    ensures StreamOk(x.(inbox := x.inbox + [m]), log, next)
  {
    hide Due;
    var all := x.sent + (x.inbox + [m]);
    assert all[..|all| - 1] == x.sent + x.inbox;
    assert forall id: nat :: Of(all, id) == Of(x.sent + x.inbox, id);
  }

  /** What the start-revision lookup answered. */
  datatype Lookup = Found(compacted: bool) | NotFound

  datatype CreateRequest = CreateRequest(
    watchId: int,
    key: Bytes,
    rangeEnd: Bytes,
    start: int,
    prevKv: bool,
    noPut: bool,
    noDelete: bool,
    progressNotify: bool)
  {
    function AsWatch(since: nat): Watch
      requires start >= 0
    {
      Watch(key, rangeEnd, start, prevKv, noPut, noDelete, progressNotify, since)
    }
  }

  datatype CreateResult =
    | Created(id: nat)
    | AckFailed(id: nat)
    | Compacted(revision: int)
    | Missing
    | UnsupportedId
    | StreamClosed

  /** CreateWatch, before the watcher's lock and under it. */
  predicate Admissible(r: CreateRequest, latest: nat, compaction: int, earlierFloor: int, lookup: Lookup, open: bool, floor: int) {
    && (r.start > 0 ==> r.start > compaction && r.start > earlierFloor && r.start > floor)
    && r.watchId == 0 && open
    && (r.start == 0 || lookup == Found(false) || (lookup.NotFound? && r.start > latest))
  }

  function Notified(x: Watcher): set<nat> {
    set id | id in x.watches && x.watches[id].progressNotify
  }

  ghost function Wanting(x: Watcher): (ids: set<nat>)
    ensures forall id :: id in ids <==> id in x.watches && x.watches[id].progressNotify
  {
    x.watches.Keys - set id | id in x.watches && !x.watches[id].progressNotify
  }

  /** One message for all watches if each wants progress; otherwise one for each
      that does, in any order, as many as fit. */
  ghost predicate ReportsProgress(x: Watcher, revision: nat, msgs: seq<Message>) {
    var room, wanting := INBOX_CAPACITY - |x.inbox|, Wanting(x);
    if wanting == x.watches.Keys then msgs == if room > 0 then [Progress(None, revision)] else []
    else
      && |msgs| == (if |wanting| <= room then |wanting| else room)
      && (forall m | m in msgs :: m.Progress? && m.target.Some? && m.target.value in wanting && m.revision == revision)
      && forall i, j | 0 <= i < j < |msgs| :: msgs[i] != msgs[j]
  }

  class Manager {
    /** Every stream; it is registered while it is open. */
    var streams: map<nat, Watcher>
    var nextWatchId: nat
    var floor: int
    /** History: every record distributed so far. */
    var distributed: seq<Change>

    /** Every stream still open has been queued, for each of its watches,
        exactly the matching records distributed since the watch was created,
        in order; a closed one and an ended watch, a prefix of them. */
    ghost predicate Valid()
      reads this
    {
      forall w | w in streams :: StreamOk(streams[w], distributed, nextWatchId)
    }

    constructor ()
      ensures Valid() && streams == map[] && distributed == []
    {
      streams, nextWatchId, floor, distributed := map[], 1, 0, [];
    }

    method Register(w: nat)
      requires Valid() && w !in streams
      modifies this`streams
      ensures Valid() && streams == old(streams)[w := Watcher(true, map[], [], [], map[])]
    {
      streams := streams[w := Watcher(true, map[], [], [], map[])];
    }

    method CancelWatch(w: nat, id: nat)
      requires Valid() && w in streams
      modifies this`streams
      ensures Valid()
      ensures var x := old(streams[w]);
              streams == old(streams)[w := if id !in x.watches then x
                                           else x.(watches := x.watches - {id}, past := x.past[id := (x.watches[id], |distributed|)])]
    {
      hide StreamOk;
      CancelKeepsStream(streams[w], distributed, nextWatchId, id);
      streams := streams[w := WithoutWatch(streams[w], id, |distributed|)];
    }

    method Cleanup(w: nat)
      requires Valid() && w in streams
      modifies this`streams
      ensures Valid()
      ensures w in streams && streams == old(streams)[w := streams[w]] && !streams[w].open
      ensures !old(streams[w]).open ==> streams[w] == old(streams[w])
      ensures old(streams[w]).open ==>
                var x, x' := old(streams[w]), streams[w];
                && x'.watches == map[] && x'.inbox == x.inbox && x'.sent == x.sent && x'.past.Keys == x.past.Keys + x.watches.Keys
                && forall id | id in x'.past :: x'.past[id] == if id in x.watches then (x.watches[id], |distributed|) else x.past[id]
    {
      hide StreamOk;
      if streams[w].open {
        EndKeepsStream(streams[w], distributed, nextWatchId);
        streams := streams[w := Ended(streams[w], |distributed|)];
      }
    }

    /** The stream's sender takes the oldest message. */
    method Drain(w: nat) returns (m: Message)
      requires Valid() && w in streams && streams[w].inbox != []
      modifies this`streams
      ensures Valid() && w in streams && [m] + streams[w].inbox == old(streams[w]).inbox
      ensures streams == old(streams)[w := old(streams[w]).(sent := old(streams[w]).sent + [m], inbox := streams[w].inbox)]
    {
      hide StreamOk;
      DrainKeepsStream(streams[w], distributed, nextWatchId);
      m := streams[w].inbox[0];
      streams := streams[w := Drained(streams[w])];
    }

    /** Progress that does not fit is skipped, not fatal. */
    method ReportProgress(w: nat, revision: nat)
      requires Valid() && w in streams
      modifies this`streams
      ensures Valid()
      ensures !old(streams[w]).open ==> streams == old(streams)
      ensures old(streams[w]).open ==> exists msgs | ReportsProgress(old(streams[w]), revision, msgs) ::
                streams == old(streams)[w := old(streams[w]).(inbox := old(streams[w]).inbox + msgs)]
    {
      hide StreamOk;
      var x := streams[w];
      InboxBound(x, distributed, nextWatchId);
      if !x.open {
        return;
      }
      assert Wanting(x) == Notified(x);
      var msgs := [];
      if Notified(x) == x.watches.Keys {
        if |x.inbox| < INBOX_CAPACITY {
          msgs := [Progress(None, revision)];
          ProgressKeepsStream(x, distributed, nextWatchId, msgs[0]);
        } else {
          assert x.inbox + msgs == x.inbox;
        }
      } else {
        msgs := EachProgress(x, revision);
      }
      streams := streams[w := x.(inbox := x.inbox + msgs)];
    }

    method EachProgress(x: Watcher, revision: nat) returns (msgs: seq<Message>)
      requires StreamOk(x, distributed, nextWatchId) && |x.inbox| <= INBOX_CAPACITY && Notified(x) != x.watches.Keys
      ensures ReportsProgress(x, revision, msgs) && StreamOk(x.(inbox := x.inbox + msgs), distributed, nextWatchId)
    {
      hide StreamOk;
      assert Wanting(x) == Notified(x);
      msgs := [];
      assert x.inbox + msgs == x.inbox;
      var todo := Notified(x);
      ghost var count := |todo|;
      while todo != {}
        invariant todo <= Notified(x) && |x.inbox| + |msgs| <= INBOX_CAPACITY
        invariant |msgs| + |todo| == count || (|msgs| + |todo| <= count && |x.inbox| + |msgs| == INBOX_CAPACITY)
        invariant forall m | m in msgs :: m.Progress? && m.target.Some? && m.target.value in Notified(x) - todo && m.revision == revision
        invariant forall i, j | 0 <= i < j < |msgs| :: msgs[i] != msgs[j]
        invariant StreamOk(x.(inbox := x.inbox + msgs), distributed, nextWatchId)
        decreases |todo|
      {
        var id :| id in todo;
        var m := Progress(Some(id), revision);
        if |x.inbox| + |msgs| < INBOX_CAPACITY {
          ProgressKeepsStream(x.(inbox := x.inbox + msgs), distributed, nextWatchId, m);
          assert x.inbox + msgs + [m] == x.inbox + (msgs + [m]);
          msgs := msgs + [m];
        }
        todo := todo - {id};
      }
    }

    /** An admitted watch whose acknowledgement cannot be sent is cancelled. */
    method CreateWatch(w: nat, req: CreateRequest, latest: nat, compaction: int, earlierFloor: int, lookup: Lookup, acked: bool)
      returns (r: CreateResult)
      requires Valid() && w in streams
      // No row has a negative revision.
      requires req.start < 0 ==> lookup.NotFound?
      modifies this`streams, this`nextWatchId
      ensures Valid()
      ensures r.Created? || r.AckFailed? <==> Admissible(req, latest, compaction, earlierFloor, lookup, old(streams[w]).open, floor)
      ensures r.Created? || r.AckFailed? ==> req.start >= 0 && r.id == old(nextWatchId) && (r.Created? <==> acked)
      ensures nextWatchId == old(nextWatchId) + if r.UnsupportedId? then 0 else 1
      ensures r.Created? || r.AckFailed? ==>
                var watch := Watch(req.key, req.rangeEnd, req.start, req.prevKv, req.noPut, req.noDelete, req.progressNotify, |distributed|);
                var x := old(streams[w]);
                && r.id !in x.watches
                && streams == old(streams)[w := if r.Created? then x.(watches := x.watches[r.id := watch])
                                                else x.(past := x.past[r.id := (watch, |distributed|)])]
      ensures !r.Created? && !r.AckFailed? ==> streams == old(streams)
      // A refusal for compaction names a revision the client may start above.
      ensures r.Compacted? ==> 0 < req.start <= r.revision
    {
      hide StreamOk;
      var effective := if earlierFloor > compaction then earlierFloor else compaction;
      if req.start > 0 && effective > 0 && req.start <= effective {
        NextId();
        return Compacted(effective);
      }
      if req.watchId != 0 {
        return UnsupportedId;
      }
      if req.start != 0 && lookup == Found(true) {
        NextId();
        return Compacted(req.start);
      }
      if req.start != 0 && lookup.NotFound? && req.start <= latest {
        NextId();
        return Missing;
      }
      if !streams[w].open {
        NextId();
        return StreamClosed;
      }
      if req.start > 0 && floor > 0 && req.start <= floor {
        NextId();
        return Compacted(floor);
      }
      r := AddWatch(w, req.AsWatch(|distributed|), acked);
    }

    /** The watch is stored and acknowledged, or cancelled if that fails. */
    method AddWatch(w: nat, watch: Watch, acked: bool) returns (r: CreateResult)
      requires Valid() && w in streams && streams[w].open && watch.since == |distributed|
      modifies this`streams, this`nextWatchId
      ensures Valid() && r == (if acked then Created(old(nextWatchId)) else AckFailed(old(nextWatchId))) && nextWatchId == old(nextWatchId) + 1
      ensures r.id !in old(streams[w]).watches
      ensures streams == old(streams)[w := if acked then old(streams[w]).(watches := old(streams[w]).watches[r.id := watch])
                                           else old(streams[w]).(past := old(streams[w]).past[r.id := (watch, |distributed|)])]
    {
      hide StreamOk;
      var id := nextWatchId;
      FreshId(streams[w], distributed, nextWatchId);
      CreateKeepsStream(streams[w], distributed, nextWatchId, watch);
      var x := WithWatch(streams[w], id, watch);
      NextId();
      streams := streams[w := x];
      if !acked {
        CancelWatch(w, id);
        assert x.watches - {id} == old(streams[w]).watches;
        return AckFailed(id);
      }
      return Created(id);
    }

    method NextId()
      requires Valid()
      modifies this`nextWatchId
      ensures Valid() && nextWatchId == old(nextWatchId) + 1
    {
      nextWatchId := nextWatchId + 1;
    }

    /** One committed record to every registered stream; the streams it
        overflows are closed afterwards. A watch of an empty key that comes to
        look at the record ends the process instead. */
    method Distribute(record: Record, prev: Option<Record>) returns (ok: bool)
      requires Valid()
      modifies this
      ensures ok <==> forall w, id | w in old(streams) && id in old(streams)[w].watches ::
                        !(old(streams)[w].watches[id].key == [] && LooksAt(old(streams)[w].watches[id], record))
      ensures !ok ==> unchanged(this)
      ensures ok ==>
                && Valid() && distributed == old(distributed) + [(record, prev)]
                && streams.Keys == old(streams).Keys && nextWatchId == old(nextWatchId) && floor == old(floor)
                && forall w | w in streams :: Distributed(old(streams)[w], record, prev, |distributed|, streams[w])
    {
      forall w, id | w in streams && id in streams[w].watches ensures Panics(streams[w].watches[id], record) <==>
          LooksAt(streams[w].watches[id], record) && streams[w].watches[id].key == []
      {
        CoversIffMatch(streams[w].watches[id], record);
      }
      ok := forall w | w in streams :: forall id | id in streams[w].watches :: !Panics(streams[w].watches[id], record);
      if ok {
        DistributeToAll(record, prev);
      }
    }

    method DistributeToAll(record: Record, prev: Option<Record>)
      requires Valid()
      modifies this
      ensures Valid() && distributed == old(distributed) + [(record, prev)]
      ensures streams.Keys == old(streams).Keys && nextWatchId == old(nextWatchId) && floor == old(floor)
      ensures forall w | w in streams :: Distributed(old(streams)[w], record, prev, |distributed|, streams[w])
    {
      hide StreamOk, Offered, Matching, Distributed, Told;
      var c := (record, prev);
      var before := streams;
      var todo := streams.Keys;
      var slow: set<nat> := {};
      while todo != {}
        invariant todo <= before.Keys && slow <= before.Keys - todo && streams.Keys == before.Keys
        invariant forall w | w in todo :: streams[w] == before[w]
        invariant forall w | w in before && w !in todo :: Visited(before[w], c, streams[w], w in slow)
        invariant distributed == old(distributed) && nextWatchId == old(nextWatchId) && floor == old(floor)
        decreases |todo|
      {
        var w :| w in todo;
        if streams[w].open {
          InboxBound(streams[w], distributed, nextWatchId);
          var x, overflow := Offer(streams[w], c);
          streams := streams[w := x];
          slow := if overflow then slow + {w} else slow;
        }
        todo := todo - {w};
      }
      distributed := distributed + [c];
      CloseSlow(before, slow, c);
    }

    method CloseSlow(ghost before: map<nat, Watcher>, slow: set<nat>, ghost c: Change)
      requires |distributed| > 0 && distributed[|distributed| - 1] == c
      requires streams.Keys == before.Keys && slow <= before.Keys
      requires forall w | w in before :: StreamOk(before[w], distributed[..|distributed| - 1], nextWatchId)
      requires forall w | w in before :: Visited(before[w], c, streams[w], w in slow)
      modifies this`streams
      ensures Valid() && streams.Keys == before.Keys
      ensures forall w | w in streams :: Distributed(before[w], c.0, c.1, |distributed|, streams[w])
    {
      hide StreamOk, Visited, Distributed;
      ghost var visited := streams;
      var todo := slow;
      while todo != {}
        invariant todo <= slow && streams.Keys == before.Keys
        invariant forall w | w in streams :: streams[w] == if w in slow && w !in todo then Ended(visited[w], |distributed|) else visited[w]
        decreases |todo|
      {
        var w :| w in todo;
        streams := streams[w := Ended(streams[w], |distributed|)];
        todo := todo - {w};
      }
      assert distributed == distributed[..|distributed| - 1] + [c];
      forall w | w in streams
        ensures StreamOk(streams[w], distributed, nextWatchId) && Distributed(before[w], c.0, c.1, |distributed|, streams[w])
      {
        VisitDistributes(before[w], c, visited[w], w in slow, |distributed|);
        VisitKeepsStream(before[w], distributed[..|distributed| - 1], nextWatchId, c, visited[w], w in slow);
      }
    }

    /** The lowest start revision of any active watch, -1 without one. */
    method MinWatchRevision() returns (min: int)
      ensures min == -1 <==> forall w | w in streams :: streams[w].watches == map[]
      ensures min != -1 ==> exists w, id :: w in streams && id in streams[w].watches && streams[w].watches[id].start == min
      ensures min != -1 ==> forall w, id | w in streams && id in streams[w].watches :: min <= streams[w].watches[id].start
    {
      min := -1;
      var todo := streams.Keys;
      while todo != {}
        invariant todo <= streams.Keys
        invariant min == -1 ==> forall w | w in streams && w !in todo :: streams[w].watches == map[]
        invariant min != -1 ==> exists w, id :: w in streams && id in streams[w].watches && streams[w].watches[id].start == min
        invariant min != -1 ==> forall w, id | w in streams && w !in todo && id in streams[w].watches :: min <= streams[w].watches[id].start
        decreases |todo|
      {
        var w :| w in todo;
        var least := LeastStart(streams[w].watches);
        if least.Some? && (min < 0 || least.value < min) {
          min := least.value;
        }
        todo := todo - {w};
      }
    }

    /** The whole change, where nothing interleaves with it. */
    method SetWatchAdmissionFloor(revision: int) returns (ok: bool)
      modifies this`floor
      ensures ok <==> forall w, id | w in streams && id in streams[w].watches :: !(0 < streams[w].watches[id].start < revision)
      ensures floor == if ok then revision else old(floor)
    {
      var previous := floor;
      floor := revision;
      var todo := streams.Keys;
      while todo != {}
        invariant todo <= streams.Keys && floor == revision
        invariant forall w, id | w in streams && w !in todo && id in streams[w].watches :: !(0 < streams[w].watches[id].start < revision)
        decreases |todo|
      {
        var w :| w in todo;
        var ids := streams[w].watches.Keys;
        while ids != {}
          invariant ids <= streams[w].watches.Keys && floor == revision
          invariant forall id | id in streams[w].watches && id !in ids :: !(0 < streams[w].watches[id].start < revision)
          decreases |ids|
        {
          var id :| id in ids;
          if streams[w].watches[id].start > 0 && streams[w].watches[id].start < revision {
            floor := previous;
            return false;
          }
          ids := ids - {id};
        }
        todo := todo - {w};
      }
      return true;
    }
  }

  method LeastStart(watches: map<nat, Watch>) returns (least: Option<nat>)
    ensures least.None? <==> watches == map[]
    ensures least.Some? ==> exists id :: id in watches && watches[id].start == least.value
    ensures least.Some? ==> forall id | id in watches :: least.value <= watches[id].start
  {
    least := None;
    var ids := watches.Keys;
    while ids != {}
      invariant ids <= watches.Keys
      invariant least.None? ==> ids == watches.Keys
      invariant least.Some? ==> exists id :: id in watches && watches[id].start == least.value
      invariant least.Some? ==> forall id | id in watches && id !in ids :: least.value <= watches[id].start
      decreases |ids|
    {
      var id :| id in ids;
      if least.None? || watches[id].start < least.value {
        least := Some(watches[id].start);
      }
      ids := ids - {id};
    }
  }

  lemma FreshId(x: Watcher, log: seq<Change>, next: nat)
    requires StreamOk(x, log, next)
    ensures next !in x.watches
  {
  }

  lemma InboxBound(x: Watcher, log: seq<Change>, next: nat)
    requires StreamOk(x, log, next)
    ensures |x.inbox| <= INBOX_CAPACITY
  {
  }

  /** What Distribute's first loop leaves of a stream. */
  ghost predicate Visited(x: Watcher, c: Change, x': Watcher, slow: bool) {
    if x.open then Offered(x, c, x', slow) && Told(x, c.0, c.1, x'.inbox, slow) && (slow <==> |x.inbox| + |Matching(x, c.0)| > INBOX_CAPACITY)
    else x' == x && !slow
  }

  /** What Distribute leaves of a stream. One that stays open has each watch that
      covers the record told of it, once; one without the room is closed. */
  ghost predicate Distributed(x: Watcher, record: Record, prev: Option<Record>, now: nat, x': Watcher) {
    var slow := x.open && |x.inbox| + |Covering(x, record)| > INBOX_CAPACITY;
    && (x'.open <==> x.open && !slow)
    && (!x.open ==> x' == x)
    && (x'.open ==> x'.watches == x.watches && x'.past == x.past)
    && (slow ==> x'.watches == map[] && x'.past == x.past + map id | id in x.watches :: (x.watches[id], now))
    && (x.open ==> x'.sent == x.sent && Told(x, record, prev, x'.inbox, slow))
  }

  lemma VisitDistributes(x: Watcher, c: Change, x': Watcher, slow: bool, now: nat)
    requires Visited(x, c, x', slow)
    ensures Distributed(x, c.0, c.1, now, if slow then Ended(x', now) else x')
  {
    hide IsWatchMatch, Covers, Told, Of;
    forall id | id in x.watches ensures Covers(x.watches[id], c.0) <==> IsWatchMatch(x.watches[id], c.0) {
      CoversIffMatch(x.watches[id], c.0);
    }
    assert Covering(x, c.0) == Matching(x, c.0);
  }

  lemma VisitKeepsStream(x: Watcher, log: seq<Change>, next: nat, c: Change, x': Watcher, slow: bool)
    requires StreamOk(x, log, next) && Visited(x, c, x', slow)
    ensures var y := if slow then Ended(x', |log| + 1) else x'; StreamOk(y, log + [c], next) && (y.open <==> x.open && !slow)
  {
    if x.open {
      hide StreamOk;
      OfferKeepsStream(x, log, next, c, x', slow);
    } else {
      hide StreamOk;
      ClosedKeepsStream(x, log, next, c);
    }
  }

  /** A client may ask for such a watch, and the next record it looks at ends the
      process. */
  method EmptyKeyPanics(record: Record) returns (m: Manager, created: CreateResult, ok: bool)
    requires record.revision >= 0
    ensures fresh(m) && created.Created? && !ok
  {
    hide StreamOk;
    m := new Manager();
    m.Register(1);
    created := m.CreateWatch(1, CreateRequest(0, [], [], 0, false, false, false, false), 0, 0, 0, NotFound, true);
    assert m.streams[1].watches[created.id].key == [];
    ok := m.Distribute(record, None);
  }
}
