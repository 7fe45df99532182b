/** The concurrency bookkeeping the facade drives: every start/stop of a
    stream announces the stream's (type, direction) class to the resource
    manager through ConcurrentStreamStatus. The net number of activations
    per class is derived here from the calls the facade makes. */
module Concurrency {
  import opened PalTypes
  import opened DeviceCheck
  import opened PalSpec

  /** Activations minus deactivations announced for class (t, d). */
  function ActiveCount(calls: seq<Call>, t: StreamType, d: Direction): int
  {
    Occurrences(calls, ConcurrentStreamStatus(t, d, true))
    - Occurrences(calls, ConcurrentStreamStatus(t, d, false))
  }

  /** A call of pal_stream_start or pal_stream_stop on a live stream, with
      the status start() or stop() returns. */
  datatype Transition = StartCall(stream: Stream, result: int) | StopCall(stream: Stream, result: int)

  function TransitionCalls(op: Transition, instance: bool): seq<Call>
  {
    match op
    case StartCall(s, r) => StartSpec(s, r, instance).calls
    case StopCall(s, r) => StopSpec(s, r, instance).calls
  }

  /** The calls a sequence of start/stop requests makes, in order. */
  function Run(ops: seq<Transition>, instance: bool): seq<Call>
    decreases |ops|
  {
    if ops == [] then [] else TransitionCalls(ops[0], instance) + Run(ops[1..], instance)
  }

  predicate InClass(s: Stream, t: StreamType, d: Direction)
  {
    s.attributes == StreamAttributes(t, d)
  }

  /** 1 for a start of class (t, d) whose start() returned 0. */
  function Activation(op: Transition, t: StreamType, d: Direction): nat
  {
    if op.StartCall? && op.result == 0 && InClass(op.stream, t, d) then 1 else 0
  }

  /** 1 for a stop of class (t, d), whatever stop() returned. */
  function Deactivation(op: Transition, t: StreamType, d: Direction): nat
  {
    if op.StopCall? && InClass(op.stream, t, d) then 1 else 0
  }

  /** Starts of class (t, d) whose start() returned 0. */
  function Activations(ops: seq<Transition>, t: StreamType, d: Direction): nat
    decreases |ops|
  {
    if ops == [] then 0 else Activation(ops[0], t, d) + Activations(ops[1..], t, d)
  }

  /** Stops of class (t, d), whatever stop() returned. */
  function Deactivations(ops: seq<Transition>, t: StreamType, d: Direction): nat
    decreases |ops|
  {
    if ops == [] then 0 else Deactivation(ops[0], t, d) + Deactivations(ops[1..], t, d)
  }

  lemma ActiveCountAppend(a: seq<Call>, b: seq<Call>, t: StreamType, d: Direction)
    ensures ActiveCount(a + b, t, d) == ActiveCount(a, t, d) + ActiveCount(b, t, d)
  {
    assert multiset(a + b) == multiset(a) + multiset(b);
  }

  /** One start or stop moves its class's count by its own outcome only. */
  lemma TransitionActiveCount(op: Transition, instance: bool, t: StreamType, d: Direction)
    ensures ActiveCount(TransitionCalls(op, instance), t, d)
            == if instance then Activation(op, t, d) - Deactivation(op, t, d) else 0
  {
    match op
    case StartCall(s, r) => StartNotifiesOnlyOnSuccess(s, r, instance, t, d);
    case StopCall(s, r) => StopAlwaysNotifies(s, r, instance, t, d);
  }

  /** Over any sequence of starts and stops, the net count announced for a
      class is its successful starts minus all its stops; other classes are
      never touched, and nothing is announced without an instance. */
  lemma {:induction false} RunActiveCount(ops: seq<Transition>, instance: bool, t: StreamType, d: Direction)
    ensures ActiveCount(Run(ops, instance), t, d)
            == if instance then Activations(ops, t, d) - Deactivations(ops, t, d) else 0
    decreases |ops|
  {
    if ops != [] {
      RunActiveCount(ops[1..], instance, t, d);
      TransitionActiveCount(ops[0], instance, t, d);
      ActiveCountAppend(TransitionCalls(ops[0], instance), Run(ops[1..], instance), t, d);
    }
  }

  /** A successful start followed by a stop leaves every class's count
      where it was, whether the stop itself succeeds or not. */
  lemma StartThenStopBalances(s: Stream, stopResult: int, t: StreamType, d: Direction)
    ensures ActiveCount(StartSpec(s, 0, true).calls + StopSpec(s, stopResult, true).calls, t, d) == 0
  {
    ActiveCountAppend(StartSpec(s, 0, true).calls, StopSpec(s, stopResult, true).calls, t, d);
    StartNotifiesOnlyOnSuccess(s, 0, true, t, d);
    StopAlwaysNotifies(s, stopResult, true, t, d);
  }

  /** A stop after a failed start still announces a deactivation, so the
      stream's class count drops by one: the facade leaves it to the
      resource manager to ignore a stop that had no matching start. */
  lemma StopAfterFailedStartDeactivates(s: Stream, startResult: int, stopResult: int)
    requires startResult != 0
    ensures ActiveCount(StartSpec(s, startResult, true).calls + StopSpec(s, stopResult, true).calls,
                        s.attributes.streamType, s.attributes.direction) == -1
  {
    var (t, d) := (s.attributes.streamType, s.attributes.direction);
    ActiveCountAppend(StartSpec(s, startResult, true).calls, StopSpec(s, stopResult, true).calls, t, d);
    StartNotifiesOnlyOnSuccess(s, startResult, true, t, d);
    StopAlwaysNotifies(s, stopResult, true, t, d);
  }

  /** The streams whose start succeeded and that have not been stopped
      since, after `op`. A stop ends the activation whatever stop()
      returns, as pal_stream_stop announces it on both exits. */
  function Next(op: Transition, started: set<Stream>): set<Stream>
  {
    match op
    case StartCall(s, r) => if r == 0 then started + {s} else started
    case StopCall(s, _) => started - {s}
  }

  /** A caller that keeps the start/stop discipline starts only a stream
      that is not started and stops only a started one. */
  predicate Allowed(op: Transition, started: set<Stream>)
  {
    match op
    case StartCall(s, _) => s !in started
    case StopCall(s, _) => s in started
  }

  predicate Disciplined(ops: seq<Transition>, started: set<Stream>)
    decreases |ops|
  {
    ops == [] || (Allowed(ops[0], started) && Disciplined(ops[1..], Next(ops[0], started)))
  }

  function AfterRun(ops: seq<Transition>, started: set<Stream>): set<Stream>
    decreases |ops|
  {
    if ops == [] then started else AfterRun(ops[1..], Next(ops[0], started))
  }

  /** The started streams of class (t, d). */
  function ClassMembers(started: set<Stream>, t: StreamType, d: Direction): set<Stream>
  {
    set s | s in started && InClass(s, t, d)
  }

  lemma ClassGrows(started: set<Stream>, s: Stream, t: StreamType, d: Direction)
    requires s !in started && InClass(s, t, d)
    ensures |ClassMembers(started + {s}, t, d)| == |ClassMembers(started, t, d)| + 1
  {
    var before := ClassMembers(started, t, d);
    assert ClassMembers(started + {s}, t, d) == before + {s};
    assert s !in before;
  }

  lemma ClassShrinks(started: set<Stream>, s: Stream, t: StreamType, d: Direction)
    requires s in started && InClass(s, t, d)
    ensures |ClassMembers(started - {s}, t, d)| == |ClassMembers(started, t, d)| - 1
  {
    var before := ClassMembers(started, t, d);
    assert ClassMembers(started - {s}, t, d) == before - {s};
    assert s in before;
  }

  /** One allowed start or stop changes the number of started streams of a
      class by exactly what it announces for that class. */
  lemma ClassStep(op: Transition, started: set<Stream>, t: StreamType, d: Direction)
    requires Allowed(op, started)
    ensures |ClassMembers(Next(op, started), t, d)|
            == |ClassMembers(started, t, d)| + Activation(op, t, d) - Deactivation(op, t, d)
  {
    var s := op.stream;
    var after := Next(op, started);
    if op.StartCall? && op.result == 0 && InClass(s, t, d) {
      ClassGrows(started, s, t, d);
    } else if op.StopCall? && InClass(s, t, d) {
      ClassShrinks(started, s, t, d);
    } else {
      assert ClassMembers(after, t, d) == ClassMembers(started, t, d);
    }
  }

  /** Over a run that keeps the start/stop discipline, the net count the
      facade announces for a class is the change in the number of started
      streams of that class. */
  lemma {:induction false} DisciplinedRunCount(ops: seq<Transition>, started: set<Stream>,
                                               t: StreamType, d: Direction)
    requires Disciplined(ops, started)
    ensures ActiveCount(Run(ops, true), t, d)
            == |ClassMembers(AfterRun(ops, started), t, d)| - |ClassMembers(started, t, d)|
    decreases |ops|
  {
    if ops != [] {
      DisciplinedRunCount(ops[1..], Next(ops[0], started), t, d);
      ClassStep(ops[0], started, t, d);
      TransitionActiveCount(ops[0], true, t, d);
      ActiveCountAppend(TransitionCalls(ops[0], true), Run(ops[1..], true), t, d);
    }
  }

  /** From no started stream, a disciplined run announces for each class
      exactly the number of its streams left started, so the count the
      resource manager sees never goes negative. */
  lemma CountIsStartedStreams(ops: seq<Transition>, t: StreamType, d: Direction)
    requires Disciplined(ops, {})
    ensures ActiveCount(Run(ops, true), t, d) == |ClassMembers(AfterRun(ops, {}), t, d)|
    ensures ActiveCount(Run(ops, true), t, d) >= 0
  {
    DisciplinedRunCount(ops, {}, t, d);
    assert ClassMembers({}, t, d) == {};
  }

  /** No ConcurrentStreamStatus among `calls`. */
  predicate Quiet(calls: seq<Call>)
  {
    forall c :: c in calls ==> !c.ConcurrentStreamStatus?
  }

  /** Calls without an announcement leave every class's count as it was. */
  lemma QuietKeepsCount(before: seq<Call>, calls: seq<Call>, t: StreamType, d: Direction)
    requires Quiet(calls)
    ensures ActiveCount(before + calls, t, d) == ActiveCount(before, t, d)
  {
    ActiveCountAppend(before, calls, t, d);
    assert ConcurrentStreamStatus(t, d, true) !in calls;
    assert ConcurrentStreamStatus(t, d, false) !in calls;
  }

  /** Only start and stop announce anything: open, close (even of a started
      stream), the forwarding calls, add/remove-effect and the parameter
      calls never call ConcurrentStreamStatus, so the count read off the
      whole trace moves only with starts and stops. */
  lemma OtherEntryPointsAreQuiet(attributes: Option<StreamAttributes>, created: Stream?, openResult: int,
                                 cb: Pointer, cookie: Pointer, h: Stream?, result: int,
                                 request: StreamRequest, arg: Pointer, effect: nat, enable: bool,
                                 typeResult: int, paramId: nat, target: GefTarget, dir: nat, instance: bool)
    ensures Quiet(OpenSpec(attributes, created, openResult, cb, cookie).calls)
    ensures Quiet(CloseSpec(h, result).calls)
    ensures Quiet(ForwardSpec(request, h, arg, result).calls)
    ensures Quiet(AddRemoveEffectSpec(h, effect, enable, typeResult, result).calls)
    ensures Quiet(SetParamSpec(paramId, instance, result).calls)
    ensures Quiet(GetParamSpec(paramId, instance, result).calls)
    ensures Quiet(GefRwParamSpec(paramId, target, dir, instance, result).calls)
  {
  }

  /** pal_stream_set_device announces nothing either: its device loop only
      queries, and switchDevice is no announcement. */
  lemma {:induction false} SetDeviceIsQuiet(h: Stream?, devices: Option<seq<Device>>, instance: bool,
                                            infos: seq<DeviceInfo>, configStatuses: seq<int>, switchResult: int)
    requires devices.Some? ==> |infos| == |devices.value| && |configStatuses| == |devices.value|
    ensures Quiet(SetDeviceSpec(h, devices, instance, infos, configStatuses, switchResult).calls)
  {
    if devices.Some? && h != null {
      ProbeOnlyQueries(devices.value, infos, configStatuses, h.attributes.streamType);
    }
  }
}
