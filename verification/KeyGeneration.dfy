// First-use generation of a tenant's signing key pair inside the per-tenant lock.
//
// One call reads both stored halves, generates a pair when either is missing or empty, and writes
// the halves one after the other. Any operation can fail, a write can take effect and still report
// failure, and the process can crash between any two steps; the stored halves survive a crash, the
// lock pool and the calls in progress do not.
module KeyGeneration {
  import opened Wrappers
  import Locks = ExclusivePool

  datatype KeyPair = KeyPair(priv: string, pub: string)

  // The two properties on the tenant's synthetic package row.
  datatype Stored = Stored(priv: Option<string>, pub: Option<string>)

  const NOTHING := Stored(None, None)

  predicate Usable(half: Option<string>) {
    half.Some? && half.value != ""
  }

  // Progress of one call of GetOrCreateKeyPair.
  datatype Call =
    | Started
    | HasPackage
    | HasPriv(priv: Option<string>)
    | HasBoth(priv: Option<string>, pub: Option<string>)
    | Generated(pair: KeyPair)
    | WrotePriv(pair: KeyPair)
    | Returned(result: Option<KeyPair>)

  datatype Event =
    | Done
    | Failed
    | FailedAfterWrite              // the write was committed but an error is reported
    | Made(pair: KeyPair)           // the generator's output

  predicate Plain(e: Event) { e.Done? || e.Failed? }

  // The events that can happen next. Armored key text is never empty.
  predicate Fits(c: Call, e: Event) {
    match c
    case Returned(_) => false
    case HasBoth(priv, pub) =>
      if Usable(priv) && Usable(pub) then e.Done?
      else e.Failed? || (e.Made? && e.pair.priv != "" && e.pair.pub != "")
    case Generated(_) => !e.Made?
    case WrotePriv(_) => !e.Made?
    case _ => Plain(e)
  }

  function NextCall(c: Call, s: Stored, e: Event): (r: (Call, Stored))
    requires Fits(c, e)
  {
    match c
    case Started => (if e.Failed? then Returned(None) else HasPackage, s)
    case HasPackage => (if e.Failed? then Returned(None) else HasPriv(s.priv), s)
    case HasPriv(priv) => (if e.Failed? then Returned(None) else HasBoth(priv, s.pub), s)
    case HasBoth(priv, pub) =>
      if Usable(priv) && Usable(pub) then (Returned(Some(KeyPair(priv.value, pub.value))), s)
      else (if e.Failed? then Returned(None) else Generated(e.pair), s)
    case Generated(pair) =>
      (if e.Done? then WrotePriv(pair) else Returned(None),
       if e.Failed? then s else s.(priv := Some(pair.priv)))
    case WrotePriv(pair) =>
      (Returned(if e.Done? then Some(pair) else None),
       if e.Failed? then s else s.(pub := Some(pair.pub)))
  }

  // A call running alone through the given events.
  function Alone(c: Call, s: Stored, events: seq<Event>): (Call, Stored)
    decreases |events|
  {
    if events == [] || !Fits(c, events[0]) then (c, s)
    else
      var (c', s') := NextCall(c, s, events[0]);
      Alone(c', s', events[1..])
  }

  // A tenant's stored properties, updated in place.
  class TenantKeys {
    var priv: Option<string>
    var pub: Option<string>

    function View(): Stored
      reads this
    {
      Stored(priv, pub)
    }

    // `row`, `readPriv` and `readPub` say whether those operations succeed.
    method GetOrCreateKeyPair(row: Event, readPriv: Event, readPub: Event, gen: Event,
                              writePriv: Event, writePub: Event)
      returns (result: Option<KeyPair>)
      requires Plain(row) && Plain(readPriv) && Plain(readPub)
      requires gen.Failed? || (gen.Made? && gen.pair.priv != "" && gen.pair.pub != "")
      requires !writePriv.Made? && !writePub.Made?
      modifies this
      ensures var found := Usable(old(priv)) && Usable(old(pub));
        (Returned(result), View()) ==
          Alone(Started, old(View()), [row, readPriv, readPub] + [if found then Done else gen, writePriv, writePub])
    {
      ghost var found := Usable(priv) && Usable(pub);
      AloneReads(View(), row, readPriv, readPub, [if found then Done else gen, writePriv, writePub]);
      AloneWrites(View(), gen, writePriv, writePub);
      if row.Failed? { return None; }
      if readPriv.Failed? { return None; }
      var privText := priv;
      if readPub.Failed? { return None; }
      var pubText := pub;
      if Usable(privText) && Usable(pubText) {
        return Some(KeyPair(privText.value, pubText.value));
      }
      if gen.Failed? { return None; }
      if !writePriv.Failed? { priv := Some(gen.pair.priv); }
      if !writePriv.Done? { return None; }
      if !writePub.Failed? { pub := Some(gen.pair.pub); }
      if !writePub.Done? { return None; }
      return Some(gen.pair);
    }
  }

  lemma AloneReads(s: Stored, row: Event, readPriv: Event, readPub: Event, rest: seq<Event>)
    requires Plain(row) && Plain(readPriv) && Plain(readPub)
    ensures Alone(Started, s, [row, readPriv, readPub] + rest)
         == if Failed in {row, readPriv, readPub} then (Returned(None), s) else Alone(HasBoth(s.priv, s.pub), s, rest)
    ensures rest != [] && Usable(s.priv) && Usable(s.pub) && rest[0].Done? ==>
      Alone(HasBoth(s.priv, s.pub), s, rest) == (Returned(Some(KeyPair(s.priv.value, s.pub.value))), s)
  {
    assert [row, readPriv, readPub] + rest == [row] + ([readPriv] + ([readPub] + rest));
    AloneStep(Started, s, row, [readPriv] + ([readPub] + rest));
    AloneStep(HasPackage, s, readPriv, [readPub] + rest);
    AloneStep(HasPriv(s.priv), s, readPub, rest);
  }

  lemma AloneWrites(s: Stored, gen: Event, writePriv: Event, writePub: Event)
    requires gen.Failed? || (gen.Made? && gen.pair.priv != "" && gen.pair.pub != "")
    requires !writePriv.Made? && !writePub.Made?
    ensures !(Usable(s.priv) && Usable(s.pub)) ==>
      Alone(HasBoth(s.priv, s.pub), s, [gen, writePriv, writePub]) ==
        if gen.Failed? then (Returned(None), s)
        else
          var s' := if writePriv.Failed? then s else s.(priv := Some(gen.pair.priv));
          if !writePriv.Done? then (Returned(None), s')
          else (Returned(if writePub.Done? then Some(gen.pair) else None),
                if writePub.Failed? then s' else s'.(pub := Some(gen.pair.pub)))
  {
    if !(Usable(s.priv) && Usable(s.pub)) {
      assert [gen, writePriv, writePub] == [gen] + ([writePriv] + ([writePub] + []));
      AloneStep(HasBoth(s.priv, s.pub), s, gen, [writePriv] + ([writePub] + []));
      if gen.Made? {
        AloneStep(Generated(gen.pair), s, writePriv, [writePub] + []);
        if writePriv.Done? {
          AloneStep(WrotePriv(gen.pair), s.(priv := Some(gen.pair.priv)), writePub, []);
        }
      }
    }
  }

  // A call alone in which nothing fails hands out what is stored if neither half is missing or empty, and
  // otherwise the pair it makes, which it stores whole.
  lemma LoneCall(s: Stored, pair: KeyPair)
    requires pair.priv != "" && pair.pub != ""
    ensures s.priv.Some? && s.priv.value != "" && s.pub.Some? && s.pub.value != "" ==>
      Alone(Started, s, [Done, Done, Done] + [Done, Done, Done])
      == (Returned(Some(KeyPair(s.priv.value, s.pub.value))), s)
    ensures !(s.priv.Some? && s.priv.value != "" && s.pub.Some? && s.pub.value != "") ==>
      Alone(Started, s, [Done, Done, Done] + [Made(pair), Done, Done])
      == (Returned(Some(pair)), Stored(Some(pair.priv), Some(pair.pub)))
  {
    AloneReads(s, Done, Done, Done, [Done, Done, Done]);
    AloneReads(s, Done, Done, Done, [Made(pair), Done, Done]);
    AloneWrites(s, Made(pair), Done, Done);
  }

  // Everything: the lock pool, the calls inside it (one tenant per identity), what is stored, and
  // the history of pairs made and pairs handed to callers.
  datatype System = System(
    pool: Locks.State,
    calls: map<Locks.Tid, Call>,
    store: map<string, Stored>,
    made: set<(string, KeyPair)>,
    returned: set<(string, KeyPair)>)
  {
    function Store(identity: string): Stored {
      if identity in store then store[identity] else NOTHING
    }
  }

  const INITIAL := System(Locks.INITIAL, map[], map[], {}, {})

  datatype Step =
    | PoolStep(p: Locks.Step)
    | CallStep(t: Locks.Tid, e: Event)
    | Crash

  predicate Enabled(s: System, step: Step) {
    match step
    case PoolStep(p) =>
      && Locks.Enabled(s.pool, p)
      // CheckOut is deferred: it starts when the call inside has returned.
      && (p.CallCheckOut? ==> p.t in s.calls && s.calls[p.t].Returned?)
    case CallStep(t, e) => t in s.calls && s.pool.At(t).Holding? && Fits(s.calls[t], e)
    case Crash => true
  }

  function Apply(s: System, step: Step): System
    requires Enabled(s, step)
  {
    match step
    case PoolStep(p) =>
      s.(pool := Locks.Apply(s.pool, p),
         calls := match p
                  case Acquire(t) => s.calls[t := Started]
                  case CallCheckOut(t) => s.calls - {t}
                  case _ => s.calls)
    case CallStep(t, e) =>
      var identity := s.pool.At(t).identity;
      var (c, stored) := NextCall(s.calls[t], s.Store(identity), e);
      s.(calls := s.calls[t := c],
         store := s.store[identity := stored],
         made := if e.Made? then s.made + {(identity, e.pair)} else s.made,
         returned := if c.Returned? && c.result.Some? then s.returned + {(identity, c.result.value)} else s.returned)
    case Crash =>
      s.(pool := Locks.INITIAL, calls := map[])
  }

  predicate Run(s: System, steps: seq<Step>)
    decreases |steps|
  {
    steps == [] || (Enabled(s, steps[0]) && Run(Apply(s, steps[0]), steps[1..]))
  }

  function After(s: System, steps: seq<Step>): System
    requires Run(s, steps)
    decreases |steps|
  {
    if steps == [] then s else After(Apply(s, steps[0]), steps[1..])
  }

  // A stored public half comes with the private half it was made with.
  ghost predicate StoreOk(s: System, identity: string) {
    var stored := s.Store(identity);
    stored.pub.Some? ==>
      && Usable(stored.priv) && Usable(stored.pub)
      && (identity, KeyPair(stored.priv.value, stored.pub.value)) in s.made
  }

  // A caller was handed exactly what is stored.
  ghost predicate ReturnedOk(s: System, identity: string, pair: KeyPair) {
    (identity, pair) in s.returned ==> s.Store(identity) == Stored(Some(pair.priv), Some(pair.pub))
  }

  // What a call in progress has read or written still agrees with the store.
  ghost predicate CallOk(s: System, t: Locks.Tid) {
    t in s.calls ==>
      && s.pool.At(t).Holding?
      && var identity := s.pool.At(t).identity;
         var stored := s.Store(identity);
         match s.calls[t]
         case HasPriv(priv) => priv == stored.priv
         case HasBoth(priv, pub) => priv == stored.priv && pub == stored.pub
         case Generated(pair) =>
           stored.pub.None? && pair.priv != "" && pair.pub != "" && (identity, pair) in s.made
         case WrotePriv(pair) =>
           && stored == Stored(Some(pair.priv), None)
           && pair.priv != "" && pair.pub != "" && (identity, pair) in s.made
         case _ => true
  }

  ghost predicate Inv(s: System) {
    && Locks.Inv(s.pool)
    && (forall t: Locks.Tid :: CallOk(s, t))
    && (forall identity :: StoreOk(s, identity))
    && (forall identity, pair :: ReturnedOk(s, identity, pair))
  }

  lemma PoolStepKeepsInv(s: System, p: Locks.Step)
    requires Inv(s) && Enabled(s, PoolStep(p))
    ensures Inv(Apply(s, PoolStep(p)))
  {
    var s' := Apply(s, PoolStep(p));
    Locks.StepKeepsInv(s.pool, p);
    forall t: Locks.Tid
      ensures CallOk(s', t)
    {
      assert CallOk(s, t);
      if t != p.t {
        Locks.OthersStay(s.pool, p, t);
      }
    }
    forall identity ensures StoreOk(s', identity) { assert StoreOk(s, identity); }
    forall identity, pair ensures ReturnedOk(s', identity, pair) { assert ReturnedOk(s, identity, pair); }
  }

  lemma CallStepKeepsInv(s: System, t: Locks.Tid, e: Event)
    requires Inv(s) && Enabled(s, CallStep(t, e))
    ensures Inv(Apply(s, CallStep(t, e)))
  {
    var s' := Apply(s, CallStep(t, e));
    assert CallOk(s, t) && StoreOk(s, s.pool.At(t).identity);
    forall identity
      ensures StoreOk(s', identity)
    {
      assert StoreOk(s, identity);
    }
    forall identity, pair
      ensures ReturnedOk(s', identity, pair)
    {
      assert StoreOk(s, identity) && ReturnedOk(s, identity, pair);
    }
    // Another call in progress works for another identity, because one thread holds each.
    forall u: Locks.Tid
      ensures CallOk(s', u)
    {
      assert CallOk(s, u);
      if s.pool.At(u).Owns() && s.pool.At(u).identity == s.pool.At(t).identity {
        Locks.OneHolder(s.pool, t, u);
      }
    }
  }

  lemma StepKeepsInv(s: System, step: Step)
    requires Inv(s) && Enabled(s, step)
    ensures Inv(Apply(s, step))
  {
    var s' := Apply(s, step);
    match step
    case PoolStep(p) =>
      PoolStepKeepsInv(s, p);
    case CallStep(t, e) =>
      CallStepKeepsInv(s, t, e);
    case Crash =>
      forall identity ensures StoreOk(s', identity) { assert StoreOk(s, identity); }
      forall identity, pair ensures ReturnedOk(s', identity, pair) { assert ReturnedOk(s, identity, pair); }
  }

  lemma {:induction false} RunKeepsInv(s: System, steps: seq<Step>)
    requires Inv(s) && Run(s, steps)
    ensures Inv(After(s, steps))
    decreases |steps|
  {
    if steps != [] {
      StepKeepsInv(s, steps[0]);
      RunKeepsInv(Apply(s, steps[0]), steps[1..]);
    }
  }

  // In every interleaving, with any failures and crashes, all callers of one tenant that succeed get
  // one and the same pair; it is the stored one, and its halves were generated together.
  lemma EveryCallerGetsTheStoredPair(steps: seq<Step>, identity: string, a: KeyPair, b: KeyPair)
    requires Run(INITIAL, steps)
    requires (identity, a) in After(INITIAL, steps).returned
    requires (identity, b) in After(INITIAL, steps).returned
    ensures a == b
    ensures After(INITIAL, steps).Store(identity) == Stored(Some(a.priv), Some(a.pub))
    ensures (identity, a) in After(INITIAL, steps).made
  {
    RunKeepsInv(INITIAL, steps);
    var s := After(INITIAL, steps);
    assert ReturnedOk(s, identity, a) && ReturnedOk(s, identity, b) && StoreOk(s, identity);
  }

  // Two calls without the pool, as the Alpine handler makes them. In a turn one of them performs
  // some of its steps while the other stands still.
  datatype Race = Race(a: Call, b: Call, stored: Stored)

  datatype Turn = A(events: seq<Event>) | B(events: seq<Event>)

  function TakeTurn(r: Race, turn: Turn): Race {
    match turn
    case A(events) => var (a, stored) := Alone(r.a, r.stored, events); r.(a := a, stored := stored)
    case B(events) => var (b, stored) := Alone(r.b, r.stored, events); r.(b := b, stored := stored)
  }

  function Unlocked(r: Race, turns: seq<Turn>): Race
    decreases |turns|
  {
    if turns == [] then r else Unlocked(TakeTurn(r, turns[0]), turns[1..])
  }

  lemma NextTurn(r: Race, turn: Turn, rest: seq<Turn>)
    ensures Unlocked(r, [turn] + rest) == Unlocked(TakeTurn(r, turn), rest)
  {
    assert ([turn] + rest)[1..] == rest;
  }

  lemma AloneStep(c: Call, s: Stored, e: Event, rest: seq<Event>)
    requires Fits(c, e)
    ensures Alone(c, s, [e] + rest) == Alone(NextCall(c, s, e).0, NextCall(c, s, e).1, rest)
  {
    assert ([e] + rest)[1..] == rest;
  }

  lemma ReadsBoth(s: Stored)
    ensures Alone(Started, s, [Done, Done, Done]) == (HasBoth(s.priv, s.pub), s)
  {
    assert [Done, Done, Done] == [Done] + ([Done] + ([Done] + []));
    AloneStep(Started, s, Done, [Done] + ([Done] + []));
    AloneStep(HasPackage, s, Done, [Done] + []);
    AloneStep(HasPriv(s.priv), s, Done, []);
  }

  // Having found no pair, generates `pair` and writes its private half, or both halves.
  lemma Writes(priv: Option<string>, pub: Option<string>, stored: Stored, pair: KeyPair)
    requires !(Usable(priv) && Usable(pub)) && pair.priv != "" && pair.pub != ""
    ensures
      Alone(HasBoth(priv, pub), stored, [Made(pair), Done, Done])
        == (Returned(Some(pair)), Stored(Some(pair.priv), Some(pair.pub)))
    ensures
      Alone(HasBoth(priv, pub), stored, [Made(pair), Done])
        == (WrotePriv(pair), stored.(priv := Some(pair.priv)))
  {
    assert [Made(pair), Done] == [Made(pair)] + ([Done] + []);
    assert [Made(pair), Done, Done] == [Made(pair)] + ([Done] + ([Done] + []));
    AloneStep(HasBoth(priv, pub), stored, Made(pair), [Done] + []);
    AloneStep(HasBoth(priv, pub), stored, Made(pair), [Done] + ([Done] + []));
    AloneStep(Generated(pair), stored, Done, []);
    AloneStep(Generated(pair), stored, Done, [Done] + []);
    AloneStep(WrotePriv(pair), stored.(priv := Some(pair.priv)), Done, []);
  }

  // Without the lock and without a stored pair, and with no failure at all, both callers succeed with
  // different pairs and the stored halves belong to different pairs.
  lemma WithoutTheLockKeysMix(s: Stored, x: KeyPair, y: KeyPair) returns (turns: seq<Turn>)
    requires !(Usable(s.priv) && Usable(s.pub))
    requires x.priv != "" && x.pub != "" && y.priv != "" && y.pub != ""
    ensures Unlocked(Race(Started, Started, s), turns)
         == Race(Returned(Some(x)), Returned(Some(y)), Stored(Some(y.priv), Some(x.pub)))
  {
    var read := [Done, Done, Done];
    turns := [A(read)] + ([B(read)] + ([A([Made(x), Done])] + ([B([Made(y), Done, Done])] + ([A([Done])] + []))));
    var both := HasBoth(s.priv, s.pub);
    ReadsBoth(s);
    NextTurn(Race(Started, Started, s), A(read), turns[1..]);
    NextTurn(Race(both, Started, s), B(read), turns[2..]);
    Writes(s.priv, s.pub, s, x);
    var half := s.(priv := Some(x.priv));
    NextTurn(Race(both, both, s), A([Made(x), Done]), turns[3..]);
    Writes(s.priv, s.pub, half, y);
    NextTurn(Race(WrotePriv(x), both, half), B([Made(y), Done, Done]), turns[4..]);
    var full := Stored(Some(y.priv), Some(y.pub));
    NextTurn(Race(WrotePriv(x), Returned(Some(y)), full), A([Done]), turns[5..]);
    AloneStep(WrotePriv(x), full, Done, []);
  }

  // ---- exactly when unlocked callers agree ----

  // If both callers succeeded they have the same pair.
  predicate Agree(r: Race) {
    Succeeded(r.a) && Succeeded(r.b) ==> r.a.result == r.b.result
  }

  predicate Succeeded(c: Call) {
    c.Returned? && c.result.Some?
  }

  // The call has read nothing but the usable pair in s.
  predicate Reading(c: Call, s: Stored)
    requires Usable(s.priv) && Usable(s.pub)
  {
    match c
    case Started => true
    case HasPackage => true
    case HasPriv(priv) => priv == s.priv
    case HasBoth(priv, pub) => priv == s.priv && pub == s.pub
    case Generated(_) => false
    case WrotePriv(_) => false
    case Returned(result) => result.Some? ==> result.value == KeyPair(s.priv.value, s.pub.value)
  }

  lemma {:induction false} AloneKeepsReading(c: Call, s: Stored, events: seq<Event>)
    requires Usable(s.priv) && Usable(s.pub) && Reading(c, s)
    ensures Reading(Alone(c, s, events).0, s) && Alone(c, s, events).1 == s
    decreases |events|
  {
    if events != [] && Fits(c, events[0]) {
      AloneKeepsReading(NextCall(c, s, events[0]).0, s, events[1..]);
    }
  }

  lemma {:induction false} UnlockedKeepsReading(r: Race, turns: seq<Turn>)
    requires Usable(r.stored.priv) && Usable(r.stored.pub) && Reading(r.a, r.stored) && Reading(r.b, r.stored)
    ensures Agree(Unlocked(r, turns))
    decreases |turns|
  {
    if turns != [] {
      match turns[0] {
        case A(events) => AloneKeepsReading(r.a, r.stored, events);
        case B(events) => AloneKeepsReading(r.b, r.stored, events);
      }
      UnlockedKeepsReading(TakeTurn(r, turns[0]), turns[1..]);
    }
  }

  // Two unlocked callers agree under every schedule, with any failures, if and only if a usable pair
  // was stored before they started: never on first use.
  lemma UnlockedCallersAgreeIff(s: Stored)
    ensures (forall turns :: Agree(Unlocked(Race(Started, Started, s), turns))) <==> Usable(s.priv) && Usable(s.pub)
  {
    if Usable(s.priv) && Usable(s.pub) {
      forall turns
        ensures Agree(Unlocked(Race(Started, Started, s), turns))
      {
        UnlockedKeepsReading(Race(Started, Started, s), turns);
      }
    } else {
      var turns := WithoutTheLockKeysMix(s, KeyPair("a", "b"), KeyPair("c", "d"));
      assert !Agree(Unlocked(Race(Started, Started, s), turns));
    }
  }

  // ---- any number of unlocked callers ----

  datatype Crowd = Crowd(calls: map<nat, Call>, stored: Stored)

  // Caller t performs some of its steps.
  datatype CrowdTurn = CrowdTurn(t: nat, events: seq<Event>)

  function TakeCrowdTurn(c: Crowd, turn: CrowdTurn): Crowd {
    if turn.t !in c.calls then c
    else
      var (call, stored) := Alone(c.calls[turn.t], c.stored, turn.events);
      Crowd(c.calls[turn.t := call], stored)
  }

  function CrowdAfter(c: Crowd, turns: seq<CrowdTurn>): Crowd
    decreases |turns|
  {
    if turns == [] then c else CrowdAfter(TakeCrowdTurn(c, turns[0]), turns[1..])
  }

  // Any number of callers about to start.
  function Starting(callers: set<nat>, stored: Stored): Crowd {
    Crowd(map t | t in callers :: Started, stored)
  }

  ghost predicate AllAgree(c: Crowd) {
    forall t, u :: t in c.calls && u in c.calls && Succeeded(c.calls[t]) && Succeeded(c.calls[u]) ==>
      c.calls[t].result == c.calls[u].result
  }

  ghost predicate AllReading(c: Crowd)
    requires Usable(c.stored.priv) && Usable(c.stored.pub)
  {
    forall t :: t in c.calls ==> Reading(c.calls[t], c.stored)
  }

  lemma {:induction false} CrowdKeepsReading(c: Crowd, turns: seq<CrowdTurn>)
    requires Usable(c.stored.priv) && Usable(c.stored.pub) && AllReading(c)
    ensures AllAgree(CrowdAfter(c, turns))
    decreases |turns|
  {
    if turns != [] {
      if turns[0].t in c.calls {
        AloneKeepsReading(c.calls[turns[0].t], c.stored, turns[0].events);
      }
      CrowdKeepsReading(TakeCrowdTurn(c, turns[0]), turns[1..]);
    }
  }

  function AsCrowdTurns(turns: seq<Turn>, a: nat, b: nat): seq<CrowdTurn> {
    if turns == [] then []
    else
      [CrowdTurn(if turns[0].A? then a else b, turns[0].events)] + AsCrowdTurns(turns[1..], a, b)
  }

  // Two of the callers can do among themselves whatever two callers can do.
  lemma {:induction false} CrowdCanRace(c: Crowd, a: nat, b: nat, turns: seq<Turn>)
    requires a in c.calls && b in c.calls && a != b
    ensures var r := Unlocked(Race(c.calls[a], c.calls[b], c.stored), turns);
      var c' := CrowdAfter(c, AsCrowdTurns(turns, a, b));
      a in c'.calls && b in c'.calls && c'.calls[a] == r.a && c'.calls[b] == r.b && c'.stored == r.stored
    decreases |turns|
  {
    if turns != [] {
      var first := CrowdTurn(if turns[0].A? then a else b, turns[0].events);
      assert AsCrowdTurns(turns, a, b)[1..] == AsCrowdTurns(turns[1..], a, b);
      CrowdCanRace(TakeCrowdTurn(c, first), a, b, turns[1..]);
    }
  }

  // Two or more unlocked callers agree under every schedule, with any failures, if and only if a
  // usable pair was stored before they started.
  lemma AnyUnlockedCallersAgreeIff(callers: set<nat>, a: nat, b: nat, s: Stored)
    requires a in callers && b in callers && a != b
    ensures (forall turns :: AllAgree(CrowdAfter(Starting(callers, s), turns))) <==> Usable(s.priv) && Usable(s.pub)
  {
    var c := Starting(callers, s);
    if Usable(s.priv) && Usable(s.pub) {
      forall turns
        ensures AllAgree(CrowdAfter(c, turns))
      {
        CrowdKeepsReading(c, turns);
      }
    } else {
      var turns := WithoutTheLockKeysMix(s, KeyPair("a", "b"), KeyPair("c", "d"));
      CrowdCanRace(c, a, b, turns);
      assert !AllAgree(CrowdAfter(c, AsCrowdTurns(turns, a, b)));
    }
  }
}
