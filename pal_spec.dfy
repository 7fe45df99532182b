/** What each entry point of the PAL API facade (Pal.cpp) returns and which
    collaborator calls it makes, as functions of the replies its
    collaborators give. `instance` says whether ResourceManager::getInstance
    yields an instance. The methods of Pal.PalApi are proved to follow
    these functions; the lemmas here state what the facade promises. */
module PalSpec {
  import opened PalTypes
  import opened DeviceCheck

  /** The status an entry point returns and the calls it made, in order. */
  datatype Reply = Reply(status: int, calls: seq<Call>)

  /** pal_stream_open also writes `*stream_handle`, or leaves it alone. */
  datatype OpenReply = OpenReply(status: int, calls: seq<Call>, handle: Option<Stream>)

  function Rejected(): Reply
  {
    Reply(-EINVAL, [])
  }

  /** notify_concurrent_stream (Pal.cpp:52-66): a no-op without an instance. */
  function NotifyCalls(t: StreamType, d: Direction, active: bool, instance: bool): seq<Call>
  {
    if instance then [ConcurrentStreamStatus(t, d, active)] else []
  }

  /** pal_stream_open (Pal.cpp:114-160). `created` is the stream
      Stream::create returned, or null when it threw or returned NULL. */
  function OpenSpec(attributes: Option<StreamAttributes>, created: Stream?, openResult: int,
                    cb: Pointer, cookie: Pointer): OpenReply
  {
    if attributes.None? then OpenReply(-EINVAL, [], None)
    else
      var made := [CreateStream(attributes.value)];
      if created == null then OpenReply(-EINVAL, made, None)
      else if openResult != 0 then
        OpenReply(openResult, made + [OpenStream(created), CloseStream(created), DeleteStream(created)], None)
      else
        OpenReply(0, made + [OpenStream(created)]
                     + (if cb.Ptr? then [RegisterStreamCallback(created, cb, cookie)] else []),
                  Some(created))
  }

  /** pal_stream_close (Pal.cpp:162-184). */
  function CloseSpec(h: Stream?, closeResult: int): Reply
  {
    if h == null then Rejected()
    else if closeResult != 0 then Reply(closeResult, [CloseStream(h)])
    else Reply(closeResult, [CloseStream(h), DeleteStream(h)])
  }

  /** pal_stream_start (Pal.cpp:186-212). */
  function StartSpec(h: Stream?, startResult: int, instance: bool): Reply
  {
    if h == null then Rejected()
    else if startResult != 0 then Reply(startResult, [StartStream(h)])
    else
      Reply(startResult, [StartStream(h), GetStreamType(h), GetStreamDirection(h)]
                         + NotifyCalls(h.attributes.streamType, h.attributes.direction, true, instance))
  }

  /** pal_stream_stop (Pal.cpp:214-241): both branches notify. */
  function StopSpec(h: Stream?, stopResult: int, instance: bool): Reply
  {
    if h == null then Rejected()
    else
      Reply(stopResult, [GetStreamType(h), GetStreamDirection(h), StopStream(h)]
                        + NotifyCalls(h.attributes.streamType, h.attributes.direction, false, instance))
  }

  /** pal_stream_write, pal_stream_read and the other entry points that
      forward one request (Pal.cpp:243-502, 651-692). `arg` is the buffer or
      volume pointer for the requests that check one. */
  function ForwardSpec(request: StreamRequest, h: Stream?, arg: Pointer, result: int): Reply
  {
    if h == null || (ChecksSecondPointer(request) && arg.Null?) then Rejected()
    else Reply(result, [Forward(request, h)])
  }

  /** pal_add_remove_effect (Pal.cpp:504-534) with the handle cast before
      its first use. `typeResult` is what getStreamType returns; on 0 it has
      written the stream's own type. */
  function AddRemoveEffectSpec(h: Stream?, effect: nat, enable: bool, typeResult: int,
                               effectResult: int): Reply
  {
    if h == null then Rejected()
    else if typeResult != 0 then Reply(typeResult, [GetStreamType(h)])
    else if h.attributes.streamType == VoipTx then
      Reply(effectResult, [GetStreamType(h), AddRemoveEffect(h, effect, enable)])
    else Reply(typeResult, [GetStreamType(h)])
  }

  /** pal_stream_set_device (Pal.cpp:535-602). `devices` is None for a NULL
      array; `infos` and `configStatuses` hold one reply per device. */
  function SetDeviceSpec(h: Stream?, devices: Option<seq<Device>>, instance: bool,
                         infos: seq<DeviceInfo>, configStatuses: seq<int>, switchResult: int): Reply
    requires devices.Some? ==> |infos| == |devices.value| && |configStatuses| == |devices.value|
  {
    if h == null || devices.None? || !instance then Rejected()
    else
      var t := h.attributes.streamType;
      var made := [GetStreamAttributes(h)];
      if t == VoiceUi then Reply(-EINVAL, made)
      else
        var probe := ProbeDevices(devices.value, infos, configStatuses, t);
        if probe.status != 0 then Reply(probe.status, made + probe.calls)
        else Reply(switchResult, made + probe.calls + [SwitchDevice(h, devices.value)])
  }

  /** pal_set_param (Pal.cpp:604-625). */
  function SetParamSpec(paramId: nat, instance: bool, result: int): Reply
  {
    if !instance then Rejected() else Reply(result, [SetParameter(paramId, None)])
  }

  /** pal_get_param (Pal.cpp:627-649). */
  function GetParamSpec(paramId: nat, instance: bool, result: int): Reply
  {
    if !instance then Rejected() else Reply(result, [GetParameter(paramId, None)])
  }

  /** pal_gef_rw_param (Pal.cpp:708-742). */
  function GefRwParamSpec(paramId: nat, target: GefTarget, dir: nat, instance: bool, result: int): Reply
  {
    if !instance then Rejected()
    else if dir == GEF_PARAM_WRITE then Reply(result, [SetParameter(paramId, Some(target))])
    else Reply(result, [GetParameter(paramId, Some(target))])
  }

  /** Number of times `c` occurs among `calls`. */
  function Occurrences(calls: seq<Call>, c: Call): nat
  {
    multiset(calls)[c]
  }

  // ---------------------------------------------------------------------
  // What the facade promises

  /** Every entry point that takes a stream handle rejects a NULL handle
      with -EINVAL before calling anything; read, write and set-volume also
      reject a NULL buffer or volume. */
  lemma NullHandleRejected(request: StreamRequest, arg: Pointer, result: int, instance: bool,
                           devices: Option<seq<Device>>, infos: seq<DeviceInfo>, configStatuses: seq<int>,
                           effect: nat, enable: bool, typeResult: int, effectResult: int)
    requires devices.Some? ==> |infos| == |devices.value| && |configStatuses| == |devices.value|
    ensures CloseSpec(null, result) == Reply(-EINVAL, [])
    ensures StartSpec(null, result, instance) == Reply(-EINVAL, [])
    ensures StopSpec(null, result, instance) == Reply(-EINVAL, [])
    ensures ForwardSpec(request, null, arg, result) == Reply(-EINVAL, [])
    ensures AddRemoveEffectSpec(null, effect, enable, typeResult, effectResult) == Reply(-EINVAL, [])
    ensures SetDeviceSpec(null, devices, instance, infos, configStatuses, result) == Reply(-EINVAL, [])
    ensures forall h: Stream | ChecksSecondPointer(request) ::
              ForwardSpec(request, h, Null, result) == Reply(-EINVAL, [])
  {
  }

  /** A forwarded request on a valid handle reaches the stream once and
      returns its status unchanged, whatever its sign. */
  lemma ForwardReturnsStreamStatus(request: StreamRequest, h: Stream, arg: Pointer, result: int)
    requires !ChecksSecondPointer(request) || arg.Ptr?
    ensures ForwardSpec(request, h, arg, result).status == result
    ensures ForwardSpec(request, h, arg, result).calls == [Forward(request, h)]
  {
  }

  /** pal_stream_open: NULL attributes are rejected before Stream::create;
      the handle is written exactly when the status is 0; a failed open
      closes and deletes the stream and returns open's status; the stream
      callback is registered only on success and only for a non-NULL cb. */
  lemma OpenOutcomes(attributes: Option<StreamAttributes>, created: Stream?, openResult: int,
                     cb: Pointer, cookie: Pointer)
    ensures attributes.None? ==> OpenSpec(attributes, created, openResult, cb, cookie) == OpenReply(-EINVAL, [], None)
    ensures attributes.Some? && created == null ==>
            OpenSpec(attributes, created, openResult, cb, cookie)
            == OpenReply(-EINVAL, [CreateStream(attributes.value)], None)
    ensures var r := OpenSpec(attributes, created, openResult, cb, cookie);
            r.handle.Some? <==> r.status == 0
    ensures var r := OpenSpec(attributes, created, openResult, cb, cookie);
            r.handle.Some? <==> attributes.Some? && created != null && openResult == 0
    ensures var r := OpenSpec(attributes, created, openResult, cb, cookie);
            r.handle.Some? ==> r.handle.value == created
    ensures attributes.Some? && created != null && openResult != 0 ==>
            var r := OpenSpec(attributes, created, openResult, cb, cookie);
            r.status == openResult && DeleteStream(created) in r.calls
            && CloseStream(created) in r.calls && RegisterStreamCallback(created, cb, cookie) !in r.calls
    ensures created != null ==>
            var r := OpenSpec(attributes, created, openResult, cb, cookie);
            RegisterStreamCallback(created, cb, cookie) in r.calls <==> r.handle.Some? && cb.Ptr?
  {
  }

  /** pal_stream_close deletes the stream exactly when close() returns 0,
      and returns close()'s status. */
  lemma CloseDeletesOnlyOnSuccess(h: Stream, closeResult: int)
    ensures CloseSpec(h, closeResult).status == closeResult
    ensures DeleteStream(h) in CloseSpec(h, closeResult).calls <==> closeResult == 0
  {
  }

  /** pal_stream_start announces the stream as active exactly once, and
      only when start() returned 0 and an instance exists; it never
      announces a deactivation; it returns start()'s status. */
  lemma StartNotifiesOnlyOnSuccess(h: Stream, startResult: int, instance: bool, t: StreamType, d: Direction)
    ensures StartSpec(h, startResult, instance).status == startResult
    ensures Occurrences(StartSpec(h, startResult, instance).calls, ConcurrentStreamStatus(t, d, true))
            == if startResult == 0 && instance && h.attributes == StreamAttributes(t, d) then 1 else 0
    ensures Occurrences(StartSpec(h, startResult, instance).calls, ConcurrentStreamStatus(t, d, false)) == 0
  {
  }

  /** pal_stream_stop reads the stream's type and direction before stop(),
      announces the stream as inactive exactly once whether stop() fails or
      not (given an instance), and returns stop()'s status. */
  lemma StopAlwaysNotifies(h: Stream, stopResult: int, instance: bool, t: StreamType, d: Direction)
    ensures StopSpec(h, stopResult, instance).status == stopResult
    ensures StopSpec(h, stopResult, instance).calls[..3]
            == [GetStreamType(h), GetStreamDirection(h), StopStream(h)]
    ensures Occurrences(StopSpec(h, stopResult, instance).calls, ConcurrentStreamStatus(t, d, false))
            == if instance && h.attributes == StreamAttributes(t, d) then 1 else 0
    ensures Occurrences(StopSpec(h, stopResult, instance).calls, ConcurrentStreamStatus(t, d, true)) == 0
  {
  }

  /** pal_add_remove_effect acts on VoIP-TX streams only and is a
      successful no-op on every other type; the positive EINVAL it starts
      from is overwritten on every path, so it reaches the caller only if
      a collaborator itself returned it. */
  lemma AddRemoveEffectOnlyForVoipTx(h: Stream, effect: nat, enable: bool, typeResult: int, effectResult: int)
    ensures var r := AddRemoveEffectSpec(h, effect, enable, typeResult, effectResult);
            AddRemoveEffect(h, effect, enable) in r.calls
            <==> typeResult == 0 && h.attributes.streamType == VoipTx
    ensures typeResult == 0 && h.attributes.streamType != VoipTx ==>
            AddRemoveEffectSpec(h, effect, enable, typeResult, effectResult).status == 0
    ensures AddRemoveEffectSpec(h, effect, enable, typeResult, effectResult).status == EINVAL
            ==> typeResult == EINVAL || effectResult == EINVAL
  {
  }

  /** pal_stream_set_device never switches a voice-UI stream and returns
      the initial -EINVAL for it. */
  lemma SetDeviceSkipsVoiceUi(h: Stream, devices: Option<seq<Device>>, instance: bool,
                              infos: seq<DeviceInfo>, configStatuses: seq<int>, switchResult: int)
    requires devices.Some? ==> |infos| == |devices.value| && |configStatuses| == |devices.value|
    requires h.attributes.streamType == VoiceUi
    ensures SetDeviceSpec(h, devices, instance, infos, configStatuses, switchResult).status == -EINVAL
    ensures forall c :: c in SetDeviceSpec(h, devices, instance, infos, configStatuses, switchResult).calls
                        ==> !c.SwitchDevice?
  {
  }

  /** pal_stream_set_device asks the stream to switch exactly when the
      handle, the device array and an instance exist, the stream is not a
      voice-UI stream, and every device passes the channel and
      configuration checks; it then returns switchDevice's status. */
  lemma SetDeviceSwitchesIffAllAccepted(h: Stream, devices: seq<Device>, instance: bool,
                                        infos: seq<DeviceInfo>, configStatuses: seq<int>, switchResult: int)
    requires |infos| == |devices| && |configStatuses| == |devices|
    ensures var r := SetDeviceSpec(h, Some(devices), instance, infos, configStatuses, switchResult);
            SwitchDevice(h, devices) in r.calls
            <==> instance && h.attributes.streamType != VoiceUi
                 && forall i :: 0 <= i < |devices| ==> Accepted(infos[i], configStatuses[i])
    ensures var r := SetDeviceSpec(h, Some(devices), instance, infos, configStatuses, switchResult);
            SwitchDevice(h, devices) in r.calls ==> r.status == switchResult
  {
    var t := h.attributes.streamType;
    ProbeAcceptsIffAllAccepted(devices, infos, configStatuses, t);
    ProbeOnlyQueries(devices, infos, configStatuses, t);
  }

  /** When device k is the first to fail, pal_stream_set_device returns
      -EINVAL (bad channel count) or getDeviceConfig's status, queries no
      later device and does not switch. */
  lemma SetDeviceStopsAtFirstRejected(h: Stream, devices: seq<Device>, infos: seq<DeviceInfo>,
                                      configStatuses: seq<int>, switchResult: int, k: int)
    requires |infos| == |devices| && |configStatuses| == |devices|
    requires h.attributes.streamType != VoiceUi
    requires FirstRejected(infos, configStatuses, k)
    ensures var r := SetDeviceSpec(h, Some(devices), true, infos, configStatuses, switchResult);
            r.status == (if ChannelsValid(infos[k]) then configStatuses[k] else -EINVAL)
            && r.calls == [GetStreamAttributes(h)] + AcceptedCalls(devices, infos, h.attributes.streamType, 0, k)
                          + RejectedCalls(devices[k], infos[k], h.attributes.streamType)
  {
    ProbeRejectsAtFirstFailure(devices, infos, configStatuses, h.attributes.streamType, k);
  }

  /** pal_set_param and pal_get_param return -EINVAL and call nothing
      without an instance; otherwise they make exactly one call and return
      its status. */
  lemma GlobalParamsNeedInstance(paramId: nat, instance: bool, result: int)
    ensures !instance ==> SetParamSpec(paramId, instance, result) == Rejected()
    ensures !instance ==> GetParamSpec(paramId, instance, result) == Rejected()
    ensures instance ==> SetParamSpec(paramId, instance, result) == Reply(result, [SetParameter(paramId, None)])
    ensures instance ==> GetParamSpec(paramId, instance, result) == Reply(result, [GetParameter(paramId, None)])
  {
  }

  /** pal_gef_rw_param sets the parameter iff `dir` is GEF_PARAM_WRITE and
      gets it otherwise, and returns -EINVAL without an instance. */
  lemma GefRwParamRoutesByDirection(paramId: nat, target: GefTarget, dir: nat, instance: bool, result: int)
    ensures var r := GefRwParamSpec(paramId, target, dir, instance, result);
            SetParameter(paramId, Some(target)) in r.calls <==> instance && dir == GEF_PARAM_WRITE
    ensures var r := GefRwParamSpec(paramId, target, dir, instance, result);
            GetParameter(paramId, Some(target)) in r.calls <==> instance && dir != GEF_PARAM_WRITE
    ensures var r := GefRwParamSpec(paramId, target, dir, instance, result);
            r.status == if instance then result else -EINVAL
    ensures |GefRwParamSpec(paramId, target, dir, instance, result).calls| <= 1
  {
  }
}
