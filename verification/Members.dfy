/** Member IDs: any number of registrars read members.json, allocate, write it
    back conditionally and retry. */
module Members {
  import opened Records

  type Members = map<NodeId, nat>

  const UINT64: nat := 0x1_0000_0000_0000_0000
  const MAX_RETRIES: nat := 5

  function Ids(ms: Members): set<nat> {
    set n | n in ms :: ms[n]
  }

  function MaxId(ms: Members): (m: nat)
    ensures forall n | n in ms :: ms[n] <= m
    ensures ms.Keys == {} ==> m == 0
    ensures ms.Keys != {} ==> m in Ids(ms)
  {
    if ms.Keys == {} then 0
    else
      assert exists m :: IsMax(m, Ids(ms)) by {
        var n :| n in ms;
        assert ms[n] in Ids(ms);
        var m := MaxExists(Ids(ms));
      }
      var m: nat :| IsMax(m, Ids(ms));
      assert forall n | n in ms :: ms[n] in Ids(ms);
      m
  }

  /** One above the highest assigned, in 64-bit arithmetic. */
  method AllocateMemberId(ms: Members) returns (id: nat)
    ensures id == Next(ms)
  {
    var max := 0;
    var todo := ms.Keys;
    while todo != {}
      invariant todo <= ms.Keys
      invariant forall n | n in ms && n !in todo :: ms[n] <= max
      invariant max == 0 || max in Ids(ms)
      decreases |todo|
    {
      var n :| n in todo;
      if ms[n] > max {
        max := ms[n];
      }
      todo := todo - {n};
    }
    assert max == MaxId(ms) by {
      assert ms.Keys != {} ==> MaxId(ms) <= max;
    }
    id := (max + 1) % UINT64;
  }

  function Next(ms: Members): nat {
    (MaxId(ms) + 1) % UINT64
  }

  /** IDs fit 64 bits. */
  predicate Fits(ms: Members) {
    forall n | n in ms :: ms[n] < UINT64
  }

  /** The new ID is unused unless the highest has wrapped round to a used 0. */
  lemma NextFreshIff(ms: Members)
    requires Fits(ms)
    ensures Next(ms) !in Ids(ms) <==> !(UINT64 - 1 in Ids(ms) && 0 in Ids(ms))
  {
  }

  // ---- Registrars ----

  datatype Phase =
    | Idle
    | Holding(copy: Members)
    | Registered(id: nat)
    | GivenUp

  datatype Registrar = Registrar(node: NodeId, attempt: nat, phase: Phase)

  datatype State = State(file: Members, registrars: map<nat, Registrar>)

  datatype Event =
    | Start(p: nat, node: NodeId)
    | Read(p: nat)
    | Write(p: nat, answer: Attempt)

  predicate Enabled(s: State, e: Event) {
    match e
    case Start(p, _) => p !in s.registrars
    case Read(p) => p in s.registrars && s.registrars[p].phase.Idle?
    case Write(p, _) => p in s.registrars && s.registrars[p].phase.Holding?
  }

  function WithPhase(s: State, p: nat, ph: Phase): State
    requires p in s.registrars
  {
    s.(registrars := s.registrars[p := s.registrars[p].(phase := ph)])
  }

  /** The write goes through exactly when the file is still the one read. */
  function Step(s: State, e: Event): State
    requires Enabled(s, e)
  {
    match e
    case Start(p, node) => s.(registrars := s.registrars[p := Registrar(node, 0, Idle)])
    case Read(p) =>
      var node := s.registrars[p].node;
      WithPhase(s, p, if node in s.file then Registered(s.file[node]) else Holding(s.file))
    case Write(p, answer) =>
      var r := s.registrars[p];
      var copy := r.phase.copy;
      if answer.Lost? then WithPhase(s, p, GivenUp)
      else if s.file == copy then
        WithPhase(s.(file := copy[r.node := Next(copy)]), p, if answer.Answered? then Registered(Next(copy)) else GivenUp)
      else if answer.Unanswered? || r.attempt + 1 >= MAX_RETRIES then WithPhase(s, p, GivenUp)
      else s.(registrars := s.registrars[p := Registrar(r.node, r.attempt + 1, Idle)])
  }

  ghost predicate Reaches(s: State, es: seq<Event>, s': State)
    decreases |es|
  {
    if es == [] then s == s' else Enabled(s, es[0]) && Reaches(Step(s, es[0]), es[1..], s')
  }

  predicate Injective(ms: Members) {
    forall a, b | a in ms && b in ms && ms[a] == ms[b] :: a == b
  }

  /** Assigned IDs are exactly 1..n. */
  ghost predicate Dense(ms: Members) {
    Injective(ms) && forall id: nat :: id in Ids(ms) <==> 1 <= id <= |ms|
  }

  /** Every registrar that returned an ID finds it in the file, and one about to
      write read a file without its node. */
  ghost predicate Inv(s: State) {
    && Dense(s.file) && |s.file| < UINT64
    && forall p | p in s.registrars ::
         && (s.registrars[p].phase.Registered? ==>
               s.registrars[p].node in s.file && s.file[s.registrars[p].node] == s.registrars[p].phase.id)
         && (s.registrars[p].phase.Holding? ==> s.registrars[p].node !in s.registrars[p].phase.copy)
  }

  lemma DenseMax(ms: Members)
    requires Dense(ms)
    ensures MaxId(ms) == |ms|
  {
    assert forall x | x in Ids(ms) :: x <= MaxId(ms);
    assert |ms| == |ms.Keys|;
    assert |ms| > 0 ==> |ms| in Ids(ms);
  }

  lemma IdsInsert(ms: Members, node: NodeId, id: nat)
    requires node !in ms
    ensures Ids(ms[node := id]) == Ids(ms) + {id} && |ms[node := id]| == |ms| + 1
    ensures Injective(ms) && id !in Ids(ms) ==> Injective(ms[node := id])
  {
    var u := ms[node := id];
    forall x | x in Ids(ms) ensures x in Ids(u) {
      var n :| n in ms && ms[n] == x;
      assert u[n] == x;
    }
    assert u[node] == id;
    assert forall n | n in ms :: ms[n] in Ids(ms);
  }

  lemma DenseNext(ms: Members, node: NodeId)
    requires Dense(ms) && node !in ms && |ms| + 1 < UINT64
    ensures Next(ms) == |ms| + 1 && Dense(ms[node := Next(ms)]) && |ms[node := Next(ms)]| == |ms| + 1
  {
    hide Injective, Ids;
    DenseMax(ms);
    IdsInsert(ms, node, |ms| + 1);
  }

  /** The file only grows. */
  predicate Extends(a: Members, b: Members) {
    forall n | n in a :: n in b && b[n] == a[n]
  }

  lemma StepKeepsInv(s: State, e: Event)
    requires Inv(s) && Enabled(s, e) && |Step(s, e).file| < UINT64
    ensures Inv(Step(s, e)) && Extends(s.file, Step(s, e).file)
  {
    hide Dense, Next;
    if e.Write? && !e.answer.Lost? && s.file == s.registrars[e.p].phase.copy {
      var node := s.registrars[e.p].node;
      assert |s.file[node := Next(s.file)]| == |s.file| + 1;
      DenseNext(s.file, node);
    }
  }

  lemma {:induction false} RunKeepsInv(s: State, es: seq<Event>, s': State)
    requires Inv(s) && Reaches(s, es, s') && |s'.file| < UINT64
    ensures Inv(s') && Extends(s.file, s'.file)
    decreases |es|
  {
    if es != [] {
      FileGrows(Step(s, es[0]), es[1..], s');
      StepKeepsInv(s, es[0]);
      RunKeepsInv(Step(s, es[0]), es[1..], s');
    }
  }

  lemma {:induction false} FileGrows(s: State, es: seq<Event>, s': State)
    requires Reaches(s, es, s')
    ensures |s.file| <= |s'.file|
    decreases |es|
  {
    if es != [] {
      FileGrows(Step(s, es[0]), es[1..], s');
      StepGrows(s, es[0]);
    }
  }

  lemma StepGrows(s: State, e: Event)
    requires Enabled(s, e)
    ensures |s.file| <= |Step(s, e).file|
  {
  }

  /** In every interleaving of registrars from an empty members.json: no two
      nodes share an ID, no assigned ID changes, every ID a registration
      returned is in the file, and the IDs in use are exactly 1..n. */
  lemma RegistrationSafe(es: seq<Event>, s: State, more: seq<Event>, s': State)
    requires Reaches(State(map[], map[]), es, s) && Reaches(s, more, s') && |s'.file| < UINT64
    ensures Injective(s'.file) && Extends(s.file, s'.file)
    ensures forall id: nat :: id in Ids(s'.file) <==> 1 <= id <= |s'.file|
    ensures forall p | p in s'.registrars && s'.registrars[p].phase.Registered? ::
              s'.registrars[p].node in s'.file && s'.file[s'.registrars[p].node] == s'.registrars[p].phase.id
  {
    FileGrows(s, more, s');
    RunKeepsInv(State(map[], map[]), es, s);
    RunKeepsInv(s, more, s');
  }

  // ---- One registrar's loop ----

  class MembersFile {
    var members: Members

    /** `files[i]` is what attempt `i` reads and `files[i + 1]` what others have
        made of it by the attempt's write; `calls[i]` is whether it can be read
        and what becomes of the write. An ID returned is in the file; one whose
        write was stored unanswered is too, and the next registration gets it. */
    method AllocateOrReuseMemberId(node: NodeId, files: seq<Members>, calls: seq<(bool, Attempt)>) returns (id: Option<nat>)
      requires |files| == MAX_RETRIES + 1 && files[0] == members && |calls| == MAX_RETRIES
      requires forall i | 0 <= i < |files| :: Dense(files[i]) && |files[i]| + 1 < UINT64
      requires forall i | 0 <= i < MAX_RETRIES :: Extends(files[i], files[i + 1])
      modifies this
      ensures Dense(members) && Extends(old(members), members)
      ensures id.Some? ==> node in members && members[node] == id.value
      ensures id.Some? && node in old(members) ==> members == old(members)
      ensures (forall i | 0 <= i < MAX_RETRIES :: calls[i] == (true, Answered)) ==>
                (id.None? <==> forall i | 0 <= i < MAX_RETRIES :: node !in files[i] && files[i] != files[i + 1])
    {
      hide Dense, Next;
      for attempt := 0 to MAX_RETRIES
        invariant members == files[attempt] && Extends(old(members), members)
        invariant attempt > 0 ==> node !in old(members)
        invariant forall i | 0 <= i < attempt :: node !in files[i] && files[i] != files[i + 1]
      {
        if !calls[attempt].0 {
          return None;
        }
        var copy := members;
        if node in copy {
          return Some(copy[node]);
        }
        var newId := AllocateMemberId(copy);
        members := files[attempt + 1];
        if members == copy && !calls[attempt].1.Lost? {
          DenseNext(copy, node);
          members := copy[node := newId];
          return if calls[attempt].1.Answered? then Some(newId) else None;
        }
        if !calls[attempt].1.Answered? {
          return None;
        }
      }
      return None;
    }
  }
}
