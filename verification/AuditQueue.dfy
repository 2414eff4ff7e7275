// The audit logger: many producers, a bounded channel, one drainer and Close.
//
// `State` and `Step` interleave any number of Log calls with the drainer and with any number of
// Close calls. Log after Close panics in the source and is no step here.
module AuditQueue {
  import opened Wrappers

  datatype Event = Event(createdUnix: int, text: string) {
    function Stamped(now: int): Event {
      if createdUnix == 0 then this.(createdUnix := now) else this
    }
  }

  // `handed` are the events given to the sink, each with whether the write succeeded; `refusing` are
  // the events of Log calls that found the queue full and have not counted the drop yet; `calls` are
  // the completed Log calls, each with whether the event was accepted.
  datatype State = State(
    capacity: nat,
    queue: seq<Event>,
    inflight: Option<Event>,
    handed: seq<(Event, bool)>,
    closed: bool,
    drained: bool,
    refusing: multiset<Event>,
    drops: nat,
    calls: seq<(Event, bool)>)

  datatype Step =
    | Log(e: Event, now: int)
    | CountDrop(e: Event)
    | Receive
    | Write(ok: bool)
    | Stop             // the drainer sees the closed, empty channel and ends
    | Close            // closes the channel, once
    | CloseReturns     // one Close call, past its wait for the drainer

  function Start(capacity: nat): State {
    State(capacity, [], None, [], false, false, multiset{}, 0, [])
  }

  predicate Enabled(s: State, step: Step) {
    match step
    case Log(_, _) => !s.closed
    case CountDrop(e) => e in s.refusing
    case Receive => !s.drained && s.inflight.None? && s.queue != []
    case Write(_) => s.inflight.Some?
    case Stop => !s.drained && s.inflight.None? && s.queue == [] && s.closed
    case Close => true
    case CloseReturns => s.closed && s.drained
  }

  function Apply(s: State, step: Step): State
    requires Enabled(s, step)
  {
    match step
    case Log(e, now) =>
      var stamped := e.Stamped(now);
      if |s.queue| < s.capacity then s.(queue := s.queue + [stamped], calls := s.calls + [(stamped, true)])
      else s.(refusing := s.refusing + multiset{stamped})
    case CountDrop(e) =>
      s.(refusing := s.refusing - multiset{e}, drops := s.drops + 1, calls := s.calls + [(e, false)])
    case Receive => s.(inflight := Some(s.queue[0]), queue := s.queue[1..])
    case Write(ok) => s.(inflight := None, handed := s.handed + [(s.inflight.value, ok)])
    case Stop => s.(drained := true)
    case Close => s.(closed := true)
    case CloseReturns => s
  }

  predicate Run(s: State, steps: seq<Step>)
    decreases |steps|
  {
    steps == [] || (Enabled(s, steps[0]) && Run(Apply(s, steps[0]), steps[1..]))
  }

  function After(s: State, steps: seq<Step>): State
    requires Run(s, steps)
    decreases |steps|
  {
    if steps == [] then s else After(Apply(s, steps[0]), steps[1..])
  }

  // The accepted events in the order of their Log calls.
  function Accepted(calls: seq<(Event, bool)>): seq<Event> {
    if calls == [] then []
    else
      var last := calls[|calls| - 1];
      Accepted(calls[..|calls| - 1]) + if last.1 then [last.0] else []
  }

  function Events(handed: seq<(Event, bool)>): seq<Event> {
    seq(|handed|, i requires 0 <= i < |handed| => handed[i].0)
  }

  function Pending(s: State): seq<Event> {
    (if s.inflight.Some? then [s.inflight.value] else []) + s.queue
  }

  ghost predicate Inv(s: State) {
    && Accepted(s.calls) == Events(s.handed) + Pending(s)
    && |s.calls| == |Accepted(s.calls)| + s.drops
    && |s.queue| <= s.capacity
    && (s.drained ==> s.closed && Pending(s) == [])
  }

  lemma LogKeepsInv(s: State, e: Event, now: int)
    requires Inv(s) && Enabled(s, Log(e, now))
    ensures Inv(Apply(s, Log(e, now)))
  {
    var s' := Apply(s, Log(e, now));
    if |s.queue| < s.capacity {
      assert s'.calls[..|s.calls|] == s.calls;
      assert Pending(s') == Pending(s) + [e.Stamped(now)];
    }
  }

  lemma CountDropKeepsInv(s: State, e: Event)
    requires Inv(s) && Enabled(s, CountDrop(e))
    ensures Inv(Apply(s, CountDrop(e)))
  {
    assert Apply(s, CountDrop(e)).calls[..|s.calls|] == s.calls;
  }

  lemma WriteKeepsInv(s: State, ok: bool)
    requires Inv(s) && Enabled(s, Write(ok))
    ensures Inv(Apply(s, Write(ok)))
  {
    var s' := Apply(s, Write(ok));
    assert Events(s'.handed) == Events(s.handed) + [s.inflight.value];
    assert Pending(s) == [s.inflight.value] + Pending(s');
    assert Events(s.handed) + ([s.inflight.value] + Pending(s')) == Events(s'.handed) + Pending(s');
  }

  lemma StepKeepsInv(s: State, step: Step)
    requires Inv(s) && Enabled(s, step)
    ensures Inv(Apply(s, step)) && Apply(s, step).capacity == s.capacity
  {
    match step
    case Log(e, now) => LogKeepsInv(s, e, now);
    case CountDrop(e) => CountDropKeepsInv(s, e);
    case Receive => assert Pending(Apply(s, step)) == Pending(s);
    case Write(ok) => WriteKeepsInv(s, ok);
    case _ =>
  }

  lemma {:induction false} RunKeepsInv(s: State, steps: seq<Step>)
    requires Inv(s) && Run(s, steps)
    ensures Inv(After(s, steps)) && After(s, steps).capacity == s.capacity
    decreases |steps|
  {
    if steps != [] {
      StepKeepsInv(s, steps[0]);
      RunKeepsInv(Apply(s, steps[0]), steps[1..]);
    }
  }

  // In every interleaving the accepted events are those handed to the sink, then the one in flight,
  // then those queued, in order; every Log call is either accepted or counted as dropped.
  lemma NothingAcceptedIsLost(capacity: nat, steps: seq<Step>)
    requires Run(Start(capacity), steps)
    ensures var s := After(Start(capacity), steps);
      && Accepted(s.calls) == Events(s.handed) + Pending(s)
      && |Accepted(s.calls)| + s.drops == |s.calls|
      && |s.queue| <= capacity
  {
    RunKeepsInv(Start(capacity), steps);
  }

  // A Log call is refused, and will count a drop, if and only if the queue is full at that moment. The
  // event queued or refused has the current time only if it came without one.
  lemma DropsOnlyWhenFull(capacity: nat, steps: seq<Step>, e: Event, now: int)
    requires Run(Start(capacity), steps) && !After(Start(capacity), steps).closed
    ensures var s := After(Start(capacity), steps);
      var s' := Apply(s, Log(e, now));
      var timed := Event(if e.createdUnix != 0 then e.createdUnix else now, e.text);
      && (s'.refusing == s.refusing + multiset{timed} <==> |s.queue| == capacity)
      && (Accepted(s'.calls) == Accepted(s.calls) + [timed] <==> |s.queue| < capacity)
      && (|s.queue| < capacity ==> s'.queue == s.queue + [timed])
      && (|s.queue| == capacity ==> s'.queue == s.queue && s'.calls == s.calls)
      && (|s.queue| < capacity ==> s'.refusing == s.refusing)
      && s'.drops == s.drops
  {
    RunKeepsInv(Start(capacity), steps);
    var s := After(Start(capacity), steps);
    var s' := Apply(s, Log(e, now));
    if |s.queue| < capacity {
      assert s'.calls[..|s.calls|] == s.calls;
      assert |s.refusing + multiset{e.Stamped(now)}| == |s.refusing| + 1;
    }
  }

  // The Log steps of a run that met a full queue.
  function FullLogs(s: State, steps: seq<Step>): nat
    requires Run(s, steps)
    decreases |steps|
  {
    if steps == [] then 0
    else
      (if steps[0].Log? && |s.queue| >= s.capacity then 1 else 0) + FullLogs(Apply(s, steps[0]), steps[1..])
  }

  // Every drop counted, or about to be, is a Log call that met a full queue, and the other way round.
  lemma {:induction false} DropsAreFullLogs(s: State, steps: seq<Step>)
    requires Run(s, steps)
    ensures var s' := After(s, steps);
      s'.drops + |s'.refusing| == s.drops + |s.refusing| + FullLogs(s, steps)
    decreases |steps|
  {
    if steps != [] {
      DropsAreFullLogs(Apply(s, steps[0]), steps[1..]);
    }
  }

  // When any Close call returns, every accepted event has been handed to the sink exactly once and
  // in order, whichever writes failed.
  lemma CloseFlushes(capacity: nat, steps: seq<Step>)
    requires Run(Start(capacity), steps) && Enabled(After(Start(capacity), steps), CloseReturns)
    ensures var s := After(Start(capacity), steps);
      Events(s.handed) == Accepted(s.calls)
  {
    RunKeepsInv(Start(capacity), steps);
    var s := After(Start(capacity), steps);
    assert Events(s.handed) + [] == Events(s.handed);
  }

  // The drainer's steps left before Close can return.
  function Backlog(s: State): nat {
    2 * |s.queue| + (if s.inflight.Some? then 1 else 0) + if s.drained then 0 else 1
  }

  // After Close the drainer is never stuck: it can step until the backlog is gone, no other step
  // adds to the backlog, and at backlog zero Close returns.
  lemma CloseTerminates(capacity: nat, steps: seq<Step>) returns (drain: Step)
    requires Run(Start(capacity), steps) && After(Start(capacity), steps).closed
    ensures var s := After(Start(capacity), steps);
      && (Backlog(s) == 0 <==> Enabled(s, CloseReturns))
      && (Backlog(s) > 0 ==> Enabled(s, drain) && Backlog(Apply(s, drain)) == Backlog(s) - 1)
      && (forall other :: Enabled(s, other) ==> Backlog(Apply(s, other)) <= Backlog(s) && Apply(s, other).closed)
  {
    RunKeepsInv(Start(capacity), steps);
    var s := After(Start(capacity), steps);
    drain := if s.inflight.Some? then Write(true) else if s.queue != [] then Receive else Stop;
  }

  function DrainerSteps(steps: seq<Step>): nat {
    if steps == [] then 0
    else
      (if steps[0].Receive? || steps[0].Write? || steps[0].Stop? then 1 else 0) + DrainerSteps(steps[1..])
  }

  // In every run after Close the drainer takes exactly as many steps as the backlog falls by, and once
  // it has taken as many as the backlog was, Close returns and every accepted event was handed over.
  // With CloseTerminates, which always finds it a step, it gets there under every schedule.
  lemma {:induction false} CloseReturnsAfterBacklog(s: State, steps: seq<Step>)
    requires Inv(s) && s.closed && Run(s, steps)
    ensures var s' := After(s, steps);
      && s'.closed && Backlog(s) == Backlog(s') + DrainerSteps(steps)
      && (DrainerSteps(steps) == Backlog(s) ==>
            Enabled(s', CloseReturns) && Events(s'.handed) == Accepted(s'.calls))
    decreases |steps|
  {
    if steps == [] {
      assert Events(s.handed) + [] == Events(s.handed);
    } else {
      StepKeepsInv(s, steps[0]);
      CloseReturnsAfterBacklog(Apply(s, steps[0]), steps[1..]);
    }
  }

  // ---- the logger as it runs ----

  class Sink {
    var handed: seq<(Event, bool)>

    method Write(e: Event) returns (ok: bool)
      modifies this
      ensures handed == old(handed) + [(e, ok)]
    {
      ok := *;
      handed := handed + [(e, ok)];
    }
  }

  class BufferedLogger {
    const capacity: nat
    var queue: seq<Event>
    var closed: bool
    var drops: nat
    const sink: Sink
    ghost var calls: seq<(Event, bool)>
    var drained: bool   // the drainer has ended

    ghost function View(): State
      reads this, sink
    {
      State(capacity, queue, None, sink.handed, closed, drained, multiset{}, drops, calls)
    }

    constructor (requested: int)
      ensures View() == Start(if requested > 0 then requested else 4096) && fresh(sink)
    {
      var s := new Sink;
      s.handed := [];
      capacity := if requested <= 0 then 4096 else requested;
      queue, closed, drops, calls, drained := [], false, 0, [], false;
      sink := s;
    }

    method Log(e: Event, now: int)
      requires !closed
      modifies this
      ensures var s := Apply(old(View()), Step.Log(e, now));
        View() == if |old(queue)| < capacity then s else Apply(s, CountDrop(e.Stamped(now)))
    {
      var stamped := e;
      if e.createdUnix == 0 {
        stamped := e.(createdUnix := now);
      }
      if |queue| < capacity {
        queue := queue + [stamped];
        calls := calls + [(stamped, true)];
      } else {
        drops := drops + 1;
        calls := calls + [(stamped, false)];
      }
    }

    method Drops() returns (n: nat)
      requires Inv(View())
      ensures n == |calls| - |Accepted(calls)|
    {
      n := drops;
    }

    // One round of the drainer's loop, while producers may still log.
    method DrainOne() returns (ok: bool)
      requires queue != [] && !drained
      modifies this, sink
      ensures View() == Apply(Apply(old(View()), Receive), Step.Write(ok))
    {
      var e := queue[0];
      queue := queue[1..];
      ok := sink.Write(e);
    }

    // The loop's end, once the channel is closed: what is queued goes to the sink, failed writes included.
    method Drain()
      requires closed && !drained && Inv(View())
      modifies this, sink
      ensures Inv(View()) && drained && closed && calls == old(calls) && drops == old(drops)
    {
      while queue != []
        invariant Inv(View()) && closed && !drained && calls == old(calls) && drops == old(drops)
        decreases |queue|
      {
        ghost var before := View();
        var ok := DrainOne();
        StepKeepsInv(before, Receive);
        StepKeepsInv(Apply(before, Receive), Step.Write(ok));
      }
      drained := true;
    }

    method Close()
      requires Inv(View()) && (drained ==> closed)
      modifies this, sink
      ensures closed && drained && calls == old(calls)
      ensures Events(sink.handed) == Accepted(calls)
    {
      closed := true;
      if !drained {
        Drain();
      }
      assert Events(sink.handed) + [] == Events(sink.handed);
    }
  }
}
