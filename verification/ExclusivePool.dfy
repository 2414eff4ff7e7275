// The refcounted map of mutexes that serializes work by key.
//
// `Maps` is the state guarded by the pool's global lock and `Enter`/`Leave` are the two critical
// sections over it; the class performs them on real mutex objects. `State` and `Step` let any number
// of threads interleave, with the global lock and the per-key lock taken in separate steps.
module ExclusivePool {
  import opened Wrappers

  type Tid = nat
  // The identity of one mutex object.
  type MutexId = nat

  datatype Maps = Maps(pool: map<string, MutexId>, count: map<string, int>, made: nat) {
    // CheckIn's critical section.
    function Enter(identity: string): Maps {
      var n := if identity in count then count[identity] else 0;
      if identity in pool then
        this.(count := count[identity := n + 1])
      else
        Maps(pool[identity := made], count[identity := n + 1], made + 1)
    }

    // CheckOut's critical section, apart from the unlocking of pool[identity].
    function Leave(identity: string): Maps
      requires identity in count
    {
      if count[identity] == 1 then
        Maps(pool - {identity}, count - {identity}, made)
      else
        this.(count := count[identity := count[identity] - 1])
    }
  }

  const NO_MAPS := Maps(map[], map[], 0)

  class Mutex {
    ghost const id: MutexId
    var locked: bool

    constructor (ghost id: MutexId)
      ensures this.id == id && !locked
    {
      this.id := id;
      locked := false;
    }

    // A caller blocks until the mutex is free, so the body runs only then.
    method Lock()
      requires !locked
      modifies this
      ensures locked
    {
      locked := true;
    }

    // Unlocking an unlocked mutex panics.
    method Unlock()
      requires locked
      modifies this
      ensures !locked
    {
      locked := false;
    }
  }

  class Pool {
    var pool: map<string, Mutex>
    var count: map<string, int>
    ghost var made: nat

    ghost predicate Valid()
      reads this
    {
      && pool.Keys == count.Keys
      && (forall k :: k in pool ==> pool[k].id < made)
    }

    ghost function View(): Maps
      reads this
    {
      Maps(map k | k in pool :: pool[k].id, count, made)
    }

    constructor ()
      ensures Valid() && View() == NO_MAPS
    {
      pool := map[];
      count := map[];
      made := 0;
    }

    // The part of CheckIn that runs under the global lock.
    method Enter(identity: string) returns (mu: Mutex)
      requires Valid()
      modifies this
      ensures Valid() && View() == old(View()).Enter(identity)
      ensures identity in pool && mu == pool[identity]
      ensures identity in old(pool) ==> pool == old(pool)
      ensures identity !in old(pool) ==> fresh(mu) && !mu.locked && pool == old(pool)[identity := mu]
    {
      ghost var was := View();
      if identity in pool {
        mu := pool[identity];
      } else {
        mu := new Mutex(made);
        pool := pool[identity := mu];
        made := made + 1;
      }
      var n := if identity in count then count[identity] else 0;
      count := count[identity := n + 1];
      assert View().pool == was.Enter(identity).pool;
    }

    // CheckIn, up to where it returns or blocks: the per-key lock is taken after the global one is
    // released. A caller that has to wait takes `mu` with Lock once its holder has checked out.
    method CheckIn(identity: string) returns (mu: Mutex, waits: bool)
      requires Valid()
      modifies this, if identity in pool then {pool[identity]} else {}
      ensures Valid() && View() == old(View()).Enter(identity)
      ensures waits <==> identity in old(pool) && old(pool[identity].locked)
      ensures mu == pool[identity] && mu.locked
      ensures forall k :: k in old(pool) ==> k in pool && pool[k] == old(pool[k])
    {
      mu := Enter(identity);
      waits := mu.locked;
      if !waits {
        mu.Lock();
      }
    }

    method CheckOut(identity: string)
      requires Valid()
      requires identity in pool && pool[identity].locked
      modifies this, pool[identity]
      ensures Valid() && View() == old(View()).Leave(identity)
      ensures !old(pool[identity]).locked
      ensures forall k :: k in pool ==> k in old(pool) && pool[k] == old(pool[k])
    {
      ghost var was := View();
      pool[identity].Unlock();
      if count[identity] == 1 {
        pool := pool - {identity};
        count := count - {identity};
      } else {
        count := count[identity := count[identity] - 1];
      }
      assert View().pool == was.Leave(identity).pool;
    }

    method Size() returns (n: nat)
      ensures n == |View().pool|
    {
      n := |pool|;
      assert View().pool.Keys == pool.Keys;
      assert |View().pool| == |View().pool.Keys|;
    }
  }

  // Where one thread stands between a call of CheckIn and the return of the matching CheckOut.
  datatype Pc =
    | Idle
    | Arriving(identity: string)                // in CheckIn, wants the global lock
    | Entering(identity: string)                // in CheckIn, has the global lock
    | Waiting(identity: string, mu: MutexId)    // wants the per-key lock, global lock released
    | Holding(identity: string, mu: MutexId)    // CheckIn returned
    | Leaving(identity: string, mu: MutexId)    // in CheckOut, wants the global lock
    | Exiting(identity: string, mu: MutexId)    // in CheckOut, has the global lock
  {
    // Past CheckIn's critical section and not yet past CheckOut's.
    predicate Participates() { Waiting? || Owns() }

    // Has the per-key lock.
    predicate Owns() { Holding? || Leaving? || Exiting? }

    predicate HasGlobal() { Entering? || Exiting? }

    // Steps left to this call; used to show that calls finish.
    function Left(): nat {
      match this
      case Idle => 0
      case Exiting(_, _) => 1
      case Leaving(_, _) => 2
      case Holding(_, _) => 3
      case Waiting(_, _) => 4
      case Entering(_) => 5
      case Arriving(_) => 6
    }
  }

  // `lock` is the thread in p.lock, `owner` the locked per-key mutexes and who locked them.
  datatype State = State(lock: Option<Tid>, maps: Maps, owner: map<MutexId, Tid>, threads: map<Tid, Pc>) {
    function At(t: Tid): Pc {
      if t in threads then threads[t] else Idle
    }
  }

  const INITIAL := State(None, NO_MAPS, map[], map[])

  datatype Step =
    | CallCheckIn(t: Tid, identity: string)
    | LockForEnter(t: Tid)
    | Enter(t: Tid)
    | Acquire(t: Tid)
    | CallCheckOut(t: Tid)
    | LockForLeave(t: Tid)
    | Leave(t: Tid)

  predicate Enabled(s: State, step: Step) {
    match step
    case CallCheckIn(t, _) => s.At(t).Idle?
    case LockForEnter(t) => s.At(t).Arriving? && s.lock.None?
    case Enter(t) => s.At(t).Entering?
    case Acquire(t) => s.At(t).Waiting? && s.At(t).mu !in s.owner
    case CallCheckOut(t) => s.At(t).Holding?
    case LockForLeave(t) => s.At(t).Leaving? && s.lock.None?
    // The mutex unlocked is the one the map holds now; a missing entry or an unlocked mutex panics.
    case Leave(t) =>
      && s.At(t).Exiting?
      && s.At(t).identity in s.maps.pool
      && s.At(t).identity in s.maps.count
      && s.maps.pool[s.At(t).identity] in s.owner
  }

  function Apply(s: State, step: Step): State
    requires Enabled(s, step)
  {
    match step
    case CallCheckIn(t, identity) =>
      s.(threads := s.threads[t := Arriving(identity)])
    case LockForEnter(t) =>
      s.(lock := Some(t), threads := s.threads[t := Entering(s.At(t).identity)])
    case Enter(t) =>
      var identity := s.At(t).identity;
      var maps := s.maps.Enter(identity);
      State(None, maps, s.owner, s.threads[t := Waiting(identity, maps.pool[identity])])
    case Acquire(t) =>
      var pc := s.At(t);
      s.(owner := s.owner[pc.mu := t], threads := s.threads[t := Holding(pc.identity, pc.mu)])
    case CallCheckOut(t) =>
      s.(threads := s.threads[t := Leaving(s.At(t).identity, s.At(t).mu)])
    case LockForLeave(t) =>
      s.(lock := Some(t), threads := s.threads[t := Exiting(s.At(t).identity, s.At(t).mu)])
    case Leave(t) =>
      var identity := s.At(t).identity;
      State(None, s.maps.Leave(identity), s.owner - {s.maps.pool[identity]}, s.threads - {t})
  }

  // `pc` counts towards `identity`.
  predicate PartOf(pc: Pc, identity: string) {
    pc.Participates() && pc.identity == identity
  }

  // The threads waiting on or holding `identity`.
  function Participants(s: State, identity: string): set<Tid> {
    set t | t in s.threads && PartOf(s.At(t), identity)
  }

  // Every run of the pool is a sequence of steps each enabled when taken.
  predicate Run(s: State, steps: seq<Step>)
    decreases |steps|
  {
    steps == [] || (Enabled(s, steps[0]) && Run(Apply(s, steps[0]), steps[1..]))
  }

  function After(s: State, steps: seq<Step>): State
    requires Run(s, steps)
    decreases |steps|
  {
    if steps == [] then s else After(Apply(s, steps[0]), steps[1..])
  }

  ghost predicate Inv(s: State) {
    && InvMaps(s.maps)
    && (forall k :: CountAt(s, k))
    && (forall t: Tid :: SharedAt(s, t))
    && (forall t: Tid :: OwnsAt(s, t))
    && (forall m: MutexId :: OwnedAt(s, m))
    && InvLock(s)
  }

  // Both maps have the same keys, and no two keys share a mutex.
  ghost predicate InvMaps(m: Maps) {
    && m.pool.Keys == m.count.Keys
    && (forall k :: k in m.pool ==> m.pool[k] < m.made)
    && (forall k, l :: k in m.pool && l in m.pool && m.pool[k] == m.pool[l] ==> k == l)
  }

  // The count of a key in use is exact, and a key not in use has no participants.
  ghost predicate CountAt(s: State, k: string) {
    if k in s.maps.count then s.maps.count[k] == |Participants(s, k)| > 0 else Participants(s, k) == {}
  }

  // A participant refers to the mutex in the map.
  ghost predicate SharedAt(s: State, t: Tid) {
    s.At(t).Participates() ==>
      s.At(t).identity in s.maps.pool && s.maps.pool[s.At(t).identity] == s.At(t).mu
  }

  // A thread that has returned from CheckIn owns its mutex.
  ghost predicate OwnsAt(s: State, t: Tid) {
    s.At(t).Owns() ==> s.At(t).mu in s.owner && s.owner[s.At(t).mu] == t
  }

  // A locked mutex is owned by a thread that refers to it.
  ghost predicate OwnedAt(s: State, m: MutexId) {
    m in s.owner ==> s.At(s.owner[m]).Owns() && s.At(s.owner[m]).mu == m
  }

  ghost predicate InvLock(s: State) {
    && (forall t: Tid :: s.At(t).HasGlobal() ==> s.lock == Some(t))
    && (s.lock.Some? ==> s.At(s.lock.value).HasGlobal())
  }

  lemma OthersStay(s: State, step: Step, u: Tid)
    requires Enabled(s, step) && u != step.t
    ensures Apply(s, step).At(u) == s.At(u)
  {
  }

  // When only thread t stands elsewhere, the participants change by at most that thread.
  lemma ParticipantsChange(s: State, s': State, t: Tid, k: string)
    requires forall u: Tid :: u != t ==> s'.At(u) == s.At(u)
    ensures |Participants(s', k)| == |Participants(s, k)|
        - (if PartOf(s.At(t), k) then 1 else 0) + (if PartOf(s'.At(t), k) then 1 else 0)
  {
    var before, after := Participants(s, k), Participants(s', k);
    forall u: Tid | u != t
      ensures u in after <==> u in before
    {
      assert s'.At(u) == s.At(u);
    }
    SizesDiffer(before, after, t);
  }

  lemma SizesDiffer<T>(a: set<T>, b: set<T>, x: T)
    requires forall y :: y != x ==> (y in a <==> y in b)
    ensures |b| == |a| - (if x in a then 1 else 0) + (if x in b then 1 else 0)
  {
    assert b - {x} == a - {x};
    assert |a| == |a - {x}| + if x in a then 1 else 0;
    assert |b| == |b - {x}| + if x in b then 1 else 0;
  }

  lemma ParticipantsAfter(s: State, step: Step, k: string)
    requires Enabled(s, step)
    ensures var s' := Apply(s, step);
      |Participants(s', k)| == |Participants(s, k)|
        - (if PartOf(s.At(step.t), k) then 1 else 0) + (if PartOf(s'.At(step.t), k) then 1 else 0)
  {
    forall u: Tid | u != step.t
      ensures Apply(s, step).At(u) == s.At(u)
    {
      OthersStay(s, step, u);
    }
    ParticipantsChange(s, Apply(s, step), step.t, k);
  }

  lemma CountAfter(s: State, step: Step, k: string)
    requires s.maps.pool.Keys == s.maps.count.Keys && Enabled(s, step)
    requires CountAt(s, k) && SharedAt(s, step.t)
    ensures CountAt(Apply(s, step), k)
  {
    ParticipantsAfter(s, step, k);
    var n, n' := |Participants(s, k)|, |Participants(Apply(s, step), k)|;
    assert k !in s.maps.count ==> n == 0;
    assert n' == 0 ==> Participants(Apply(s, step), k) == {};
    match step
    case Enter(t) => assert n' == n + if k == s.At(t).identity then 1 else 0;
    case Leave(t) => assert n' == n - if k == s.At(t).identity then 1 else 0;
    case _ => assert n' == n;
  }

  lemma SubsetSize<T>(a: set<T>, b: set<T>)
    requires a <= b
    ensures |a| <= |b|
  {
    assert b == a + (b - a);
  }

  lemma SharedAfter(s: State, step: Step, u: Tid)
    requires Enabled(s, step)
    requires SharedAt(s, u) && (step.Leave? ==> CountAt(s, s.At(step.t).identity))
    ensures SharedAt(Apply(s, step), u)
  {
    if u != step.t {
      OthersStay(s, step, u);
      if step.Leave? && PartOf(s.At(u), s.At(step.t).identity) {
        // Another participant keeps the entry alive: the count was at least two.
        var k := s.At(u).identity;
        assert {u, step.t} <= Participants(s, k);
        assert |{u, step.t}| == 2;
        SubsetSize({u, step.t}, Participants(s, k));
      }
    }
  }

  lemma OwnsAfter(s: State, step: Step, u: Tid)
    requires Enabled(s, step)
    requires OwnsAt(s, u) && OwnsAt(s, step.t) && SharedAt(s, step.t)
    ensures OwnsAt(Apply(s, step), u)
  {
    if u != step.t {
      OthersStay(s, step, u);
    }
  }

  lemma OwnedAfter(s: State, step: Step, m: MutexId)
    requires Enabled(s, step)
    requires OwnedAt(s, m) && OwnsAt(s, step.t) && SharedAt(s, step.t)
    ensures OwnedAt(Apply(s, step), m)
  {
    if m in s.owner && s.owner[m] != step.t {
      OthersStay(s, step, s.owner[m]);
    }
  }

  lemma LockAfter(s: State, step: Step)
    requires Enabled(s, step) && InvLock(s)
    ensures InvLock(Apply(s, step))
  {
    forall u: Tid | u != step.t
      ensures Apply(s, step).At(u) == s.At(u)
    {
      OthersStay(s, step, u);
    }
  }

  lemma StepKeepsInv(s: State, step: Step)
    requires Inv(s) && Enabled(s, step)
    ensures Inv(Apply(s, step))
  {
    forall k ensures CountAt(Apply(s, step), k) {
      CountAfter(s, step, k);
    }
    assert step.Leave? ==> CountAt(s, s.At(step.t).identity);
    assert SharedAt(s, step.t) && OwnsAt(s, step.t);
    forall u: Tid ensures SharedAt(Apply(s, step), u) {
      SharedAfter(s, step, u);
    }
    forall u: Tid ensures OwnsAt(Apply(s, step), u) {
      OwnsAfter(s, step, u);
    }
    forall m: MutexId ensures OwnedAt(Apply(s, step), m) {
      OwnedAfter(s, step, m);
    }
    LockAfter(s, step);
    assert InvMaps(Apply(s, step).maps);
  }

  lemma {:induction false} RunKeepsInv(s: State, steps: seq<Step>)
    requires Inv(s) && Run(s, steps)
    ensures Inv(After(s, steps))
    decreases |steps|
  {
    if steps != [] {
      StepKeepsInv(s, steps[0]);
      RunKeepsInv(Apply(s, steps[0]), steps[1..]);
    }
  }

  // The invariant with each of its clauses unfolded.
  lemma InvSays(s: State)
    requires Inv(s)
    ensures forall k :: k in s.maps.count ==> s.maps.count[k] == |Participants(s, k)| > 0
    ensures forall k :: k !in s.maps.count ==> Participants(s, k) == {}
    ensures forall t: Tid :: s.At(t).Participates() ==>
      s.At(t).identity in s.maps.pool && s.maps.pool[s.At(t).identity] == s.At(t).mu
    ensures forall t: Tid :: s.At(t).Owns() ==> s.At(t).mu in s.owner && s.owner[s.At(t).mu] == t
    ensures forall m: MutexId :: m in s.owner ==> s.At(s.owner[m]).Owns() && s.At(s.owner[m]).mu == m
  {
    forall k
      ensures if k in s.maps.count then s.maps.count[k] == |Participants(s, k)| > 0 else Participants(s, k) == {}
    {
      assert CountAt(s, k);
    }
    forall t: Tid
      ensures s.At(t).Participates() ==>
        s.At(t).identity in s.maps.pool && s.maps.pool[s.At(t).identity] == s.At(t).mu
      ensures s.At(t).Owns() ==> s.At(t).mu in s.owner && s.owner[s.At(t).mu] == t
    {
      assert SharedAt(s, t) && OwnsAt(s, t);
    }
    forall m: MutexId | m in s.owner
      ensures s.At(s.owner[m]).Owns() && s.At(s.owner[m]).mu == m
    {
      assert OwnedAt(s, m);
    }
  }

  lemma OneHolder(s: State, t: Tid, u: Tid)
    requires Inv(s) && s.At(t).Owns() && s.At(u).Owns() && s.At(t).identity == s.At(u).identity
    ensures t == u
  {
    assert SharedAt(s, t) && SharedAt(s, u) && OwnsAt(s, t) && OwnsAt(s, u);
  }

  // What a caller can rely on: one holder per identity, one mutex per identity shared by all its
  // waiters and its holder and by no other identity, and an exact count.
  ghost predicate Safe(s: State) {
    && (forall t: Tid, u: Tid :: s.At(t).Owns() && s.At(u).Owns() && s.At(t).identity == s.At(u).identity ==> t == u)
    && (forall t: Tid, u: Tid :: s.At(t).Participates() && s.At(u).Participates() ==>
          (s.At(t).identity == s.At(u).identity <==> s.At(t).mu == s.At(u).mu))
    && (forall t: Tid :: s.At(t).Participates() ==>
          s.At(t).identity in s.maps.pool && s.maps.pool[s.At(t).identity] == s.At(t).mu)
    && (forall k :: k in s.maps.count ==> s.maps.count[k] == |Participants(s, k)|)
    && (forall k :: k in s.maps.pool <==> Participants(s, k) != {})
    && s.maps.pool.Keys == s.maps.count.Keys
  }

  lemma PoolIsSafe(steps: seq<Step>)
    requires Run(INITIAL, steps)
    ensures Safe(After(INITIAL, steps))
  {
    RunKeepsInv(INITIAL, steps);
    InvSays(After(INITIAL, steps));
  }

  // With no thread in a call, nothing is left behind.
  lemma IdlePoolIsEmpty(steps: seq<Step>)
    requires Run(INITIAL, steps)
    requires forall t: Tid :: After(INITIAL, steps).At(t).Idle?
    ensures var s := After(INITIAL, steps);
      s.maps.pool == map[] && s.maps.count == map[] && s.owner == map[] && s.lock.None?
  {
    RunKeepsInv(INITIAL, steps);
    var s := After(INITIAL, steps);
    InvSays(s);
    forall k
      ensures Participants(s, k) == {}
    {
    }
    assert s.maps.count.Keys == {};
  }

  // The step that moves thread t on from where it stands.
  function Next(pc: Pc, t: Tid): (step: Step)
    requires !pc.Idle?
    ensures !step.CallCheckIn?
  {
    match pc
    case Arriving(_) => LockForEnter(t)
    case Entering(_) => Step.Enter(t)
    case Waiting(_, _) => Acquire(t)
    case Holding(_, _) => CallCheckOut(t)
    case Leaving(_, _) => LockForLeave(t)
    case Exiting(_, _) => Step.Leave(t)
  }

  // The thread in the global lock can always move on: it never waits on a per-key mutex, and
  // CheckOut never finds its mutex missing or unlocked.
  lemma GlobalHolderMoves(steps: seq<Step>)
    requires Run(INITIAL, steps) && After(INITIAL, steps).lock.Some?
    ensures var s := After(INITIAL, steps);
      var t := s.lock.value;
      !s.At(t).Idle? && !s.At(t).Waiting? && Enabled(s, Next(s.At(t), t))
  {
    RunKeepsInv(INITIAL, steps);
    var s := After(INITIAL, steps);
    assert SharedAt(s, s.lock.value) && OwnsAt(s, s.lock.value);
  }

  // No reachable state is stuck: whenever a call is pending, some pending call can take its next step.
  lemma NoDeadlock(steps: seq<Step>, pending: Tid) returns (t: Tid)
    requires Run(INITIAL, steps) && !After(INITIAL, steps).At(pending).Idle?
    ensures var s := After(INITIAL, steps);
      !s.At(t).Idle? && Enabled(s, Next(s.At(t), t))
  {
    RunKeepsInv(INITIAL, steps);
    var s := After(INITIAL, steps);
    if s.lock.Some? {
      t := s.lock.value;
      GlobalHolderMoves(steps);
    } else if s.At(pending).Waiting? && s.At(pending).mu in s.owner {
      // The mutex is owned by a thread that does not itself wait.
      t := s.owner[s.At(pending).mu];
      assert OwnedAt(s, s.At(pending).mu);
    } else {
      t := pending;
    }
  }

  // The steps left to all calls in progress, for threads numbered below n.
  function Work(s: State, n: nat): nat {
    if n == 0 then 0 else s.At(n - 1).Left() + Work(s, n - 1)
  }

  lemma {:induction false} WorkAfter(s: State, s': State, t: Tid, n: nat)
    requires forall u: Tid :: u != t ==> s'.At(u) == s.At(u)
    requires s.At(t).Left() == s'.At(t).Left() + 1
    ensures Work(s, n) == Work(s', n) + if t < n then 1 else 0
  {
    if n > 0 {
      WorkAfter(s, s', t, n - 1);
    }
  }

  lemma {:induction false} NoWorkMeansIdle(s: State, n: nat, t: Tid)
    requires Work(s, n) == 0 && t < n
    ensures s.At(t).Idle?
  {
    if t < n - 1 {
      NoWorkMeansIdle(s, n - 1, t);
    }
  }

  // Each step of a pending call uses up one unit of work, whatever the schedule. With NoDeadlock,
  // every run in which no new call starts therefore reaches, after exactly Work(s, n) steps, the
  // state with all threads idle.
  lemma {:induction false} CallsFinish(s: State, steps: seq<Step>, n: nat)
    requires Run(s, steps)
    requires forall i :: 0 <= i < |steps| ==> !steps[i].CallCheckIn?
    requires forall t: Tid :: t >= n ==> s.At(t).Idle?
    ensures Work(s, n) == Work(After(s, steps), n) + |steps|
    ensures |steps| == Work(s, n) ==> forall t: Tid :: After(s, steps).At(t).Idle?
    decreases |steps|
  {
    if steps == [] {
      forall t: Tid | Work(s, n) == 0 && t < n
        ensures s.At(t).Idle?
      {
        NoWorkMeansIdle(s, n, t);
      }
    } else {
      var s', t := Apply(s, steps[0]), steps[0].t;
      forall u: Tid | u != t
        ensures s'.At(u) == s.At(u)
      {
        OthersStay(s, steps[0], u);
      }
      WorkAfter(s, s', t, n);
      CallsFinish(s', steps[1..], n);
    }
  }

  lemma {:induction false} RunGoesOn(s: State, before: seq<Step>, steps: seq<Step>)
    requires Run(s, before) && Run(After(s, before), steps)
    ensures Run(s, before + steps) && After(s, before + steps) == After(After(s, before), steps)
    decreases |before|
  {
    if before == [] {
      assert before + steps == steps;
    } else {
      assert (before + steps)[1..] == before[1..] + steps;
      RunGoesOn(Apply(s, before[0]), before[1..], steps);
    }
  }

  lemma {:induction false} IdleMeansNoWork(s: State, n: nat)
    requires forall t: Tid :: s.At(t).Idle?
    ensures Work(s, n) == 0
  {
    if n > 0 {
      IdleMeansNoWork(s, n - 1);
    }
  }

  // From any reachable state, every schedule without new calls that goes on for as long as anything
  // but a new call can happen ends with all threads idle, after exactly Work(s, n) steps.
  lemma EveryScheduleEndsIdle(before: seq<Step>, steps: seq<Step>, n: nat)
    requires Run(INITIAL, before) && Run(After(INITIAL, before), steps)
    requires forall i :: 0 <= i < |steps| ==> !steps[i].CallCheckIn?
    requires forall t: Tid :: t >= n ==> After(INITIAL, before).At(t).Idle?
    requires forall step :: Enabled(After(After(INITIAL, before), steps), step) ==> step.CallCheckIn?
    ensures forall t: Tid :: After(After(INITIAL, before), steps).At(t).Idle?
    ensures |steps| == Work(After(INITIAL, before), n)
  {
    var s := After(INITIAL, before);
    var end := After(s, steps);
    RunGoesOn(INITIAL, before, steps);
    forall t: Tid
      ensures end.At(t).Idle?
    {
      if !end.At(t).Idle? {
        var u := NoDeadlock(before + steps, t);
      }
    }
    CallsFinish(s, steps, n);
    IdleMeansNoWork(end, n);
  }
}
