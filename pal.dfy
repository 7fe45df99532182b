/** The PAL API facade (Pal.cpp) as methods on a context object. The
    context holds the resource-manager instance that
    ResourceManager::getInstance yields (null when there is none), a ghost
    trace of every call the facade makes on a Stream or the
    ResourceManager, and the ghost set of streams created and not yet
    deleted. Each collaborator's reply is a parameter: the model does not
    constrain it. */
module Pal {
  import opened PalTypes
  import opened DeviceCheck
  import opened PalSpec

  /** How Stream::create ends. */
  datatype CreateOutcome = CreateThrows | CreateReturnsNull | CreateReturnsStream

  class PalApi {
    const rm: ResourceManager?
    ghost var trace: seq<Call>
    ghost var live: set<Stream>

    constructor (rm: ResourceManager?)
      ensures this.rm == rm && trace == [] && live == {}
    {
      this.rm := rm;
      trace, live := [], {};
    }

    /** notify_concurrent_stream (Pal.cpp:52-66) */
    method NotifyConcurrentStream(t: StreamType, d: Direction, active: bool)
      modifies this`trace
      ensures trace == old(trace) + NotifyCalls(t, d, active, rm != null)
    {
      if rm == null {
        return;
      }
      trace := trace + [ConcurrentStreamStatus(t, d, active)];
    }

    /** pal_stream_open (Pal.cpp:114-160). `created` names the stream
        Stream::create allocated, if any, so that the calls on it can be
        stated; on failure it has been deleted again. */
    method StreamOpen(attributes: Option<StreamAttributes>, create: CreateOutcome, openResult: int,
                      cb: Pointer, cookie: Pointer)
      returns (status: int, handle: Option<Stream>, ghost created: Stream?)
      modifies this`trace, this`live
      ensures created != null <==> attributes.Some? && create == CreateReturnsStream
      ensures created != null ==> fresh(created) && created.attributes == attributes.value
      ensures var r := OpenSpec(attributes, created, openResult, cb, cookie);
              status == r.status && handle == r.handle && trace == old(trace) + r.calls
      ensures live == if handle.Some? then old(live) + {handle.value} else old(live)
    {
      created := null;
      handle := None;
      if attributes.None? {
        status := -EINVAL;
        return;
      }
      trace := trace + [CreateStream(attributes.value)];
      if create != CreateReturnsStream {
        status := -EINVAL;
        return;
      }
      var s := new Stream(attributes.value);
      created := s;
      trace := trace + [OpenStream(s)];
      status := openResult;
      if status != 0 {
        // close()'s own status is only logged
        trace := trace + [CloseStream(s), DeleteStream(s)];
        return;
      }
      if cb.Ptr? {
        trace := trace + [RegisterStreamCallback(s, cb, cookie)];
      }
      handle := Some(s);
      live := live + {s};
    }

    /** pal_stream_close (Pal.cpp:162-184) */
    method StreamClose(h: Stream?, closeResult: int) returns (status: int)
      requires h == null || h in live
      modifies this`trace, this`live
      ensures status == CloseSpec(h, closeResult).status
      ensures trace == old(trace) + CloseSpec(h, closeResult).calls
      ensures live == if h != null && closeResult == 0 then old(live) - {h} else old(live)
    {
      if h == null {
        return -EINVAL;
      }
      trace := trace + [CloseStream(h)];
      status := closeResult;
      if status != 0 {
        return;
      }
      trace := trace + [DeleteStream(h)];
      live := live - {h};
    }

    /** pal_stream_start (Pal.cpp:186-212) */
    method StreamStart(h: Stream?, startResult: int) returns (status: int)
      requires h == null || h in live
      modifies this`trace
      ensures status == StartSpec(h, startResult, rm != null).status
      ensures trace == old(trace) + StartSpec(h, startResult, rm != null).calls
    {
      if h == null {
        return -EINVAL;
      }
      trace := trace + [StartStream(h)];
      status := startResult;
      if status != 0 {
        return;
      }
      trace := trace + [GetStreamType(h)];
      var t := h.attributes.streamType;
      trace := trace + [GetStreamDirection(h)];
      var d := h.attributes.direction;
      NotifyConcurrentStream(t, d, true);
    }

    /** pal_stream_stop (Pal.cpp:214-241) */
    method StreamStop(h: Stream?, stopResult: int) returns (status: int)
      requires h == null || h in live
      modifies this`trace
      ensures status == StopSpec(h, stopResult, rm != null).status
      ensures trace == old(trace) + StopSpec(h, stopResult, rm != null).calls
    {
      if h == null {
        return -EINVAL;
      }
      trace := trace + [GetStreamType(h)];
      var t := h.attributes.streamType;
      trace := trace + [GetStreamDirection(h)];
      var d := h.attributes.direction;
      trace := trace + [StopStream(h)];
      status := stopResult;
      if status != 0 {
        NotifyConcurrentStream(t, d, false);
        return;
      }
      NotifyConcurrentStream(t, d, false);
    }

    /** pal_stream_write, pal_stream_read, pal_stream_get_param,
        pal_stream_set_param, pal_stream_set_volume, pal_stream_set_mute,
        pal_stream_pause, pal_stream_resume, pal_stream_drain,
        pal_stream_flush, pal_stream_set_buffer_size, pal_get_timestamp,
        pal_stream_get_mmap_position and pal_stream_create_mmap_buffer
        (Pal.cpp:243-502, 651-692): all return the stream's status on both
        of their exits. */
    method StreamForward(request: StreamRequest, h: Stream?, arg: Pointer, result: int) returns (status: int)
      requires h == null || h in live
      modifies this`trace
      ensures status == ForwardSpec(request, h, arg, result).status
      ensures trace == old(trace) + ForwardSpec(request, h, arg, result).calls
    {
      if h == null || (ChecksSecondPointer(request) && arg.Null?) {
        return -EINVAL;
      }
      trace := trace + [Forward(request, h)];
      status := result;
      // the failure exit and the success exit both return the stream's status
      if status != 0 {
        return;
      }
    }

    /** pal_add_remove_effect (Pal.cpp:504-534), with the handle cast to the
        stream before getStreamType is asked of it. */
    method StreamAddRemoveEffect(h: Stream?, effect: nat, enable: bool, typeResult: int, effectResult: int)
      returns (status: int)
      requires h == null || h in live
      modifies this`trace
      ensures status == AddRemoveEffectSpec(h, effect, enable, typeResult, effectResult).status
      ensures trace == old(trace) + AddRemoveEffectSpec(h, effect, enable, typeResult, effectResult).calls
    {
      status := EINVAL;
      if h == null {
        return -EINVAL;
      }
      var s := h;
      trace := trace + [GetStreamType(s)];
      status := typeResult;
      if status != 0 {
        return;
      }
      var t := s.attributes.streamType;
      if t == VoipTx {
        trace := trace + [AddRemoveEffect(s, effect, enable)];
        status := effectResult;
        if status != 0 {
          return;
        }
      }
    }

    /** pal_stream_set_device (Pal.cpp:535-602). `infos[i]` and
        `configStatuses[i]` are what getDeviceInfo and getDeviceConfig give
        for device i; the device loop is DeviceCheck.ValidateDevices. */
    method StreamSetDevice(h: Stream?, devices: Option<seq<Device>>, infos: seq<DeviceInfo>,
                           configStatuses: seq<int>, switchResult: int)
      returns (status: int)
      requires h == null || h in live
      requires devices.Some? ==> |infos| == |devices.value| && |configStatuses| == |devices.value|
      modifies this`trace
      ensures status == SetDeviceSpec(h, devices, rm != null, infos, configStatuses, switchResult).status
      ensures trace == old(trace) + SetDeviceSpec(h, devices, rm != null, infos, configStatuses, switchResult).calls
    {
      status := -EINVAL;
      if h == null {
        return -EINVAL;
      }
      if devices.None? {
        return -EINVAL;
      }
      if rm == null {
        return;
      }
      trace := trace + [GetStreamAttributes(h)];
      var sattr := h.attributes;
      if sattr.streamType == VoiceUi {
        return;
      }
      var probeStatus, queries := ValidateDevices(devices.value, infos, configStatuses, sattr.streamType);
      trace := trace + queries;
      if probeStatus != 0 {
        return probeStatus;
      }
      trace := trace + [SwitchDevice(h, devices.value)];
      status := switchResult;
    }

    /** pal_set_param (Pal.cpp:604-625) */
    method SetParam(paramId: nat, result: int) returns (status: int)
      modifies this`trace
      ensures status == SetParamSpec(paramId, rm != null, result).status
      ensures trace == old(trace) + SetParamSpec(paramId, rm != null, result).calls
    {
      status := 0;
      if rm != null {
        trace := trace + [SetParameter(paramId, None)];
        status := result;
      } else {
        status := -EINVAL;
      }
    }

    /** pal_get_param (Pal.cpp:627-649) */
    method GetParam(paramId: nat, result: int) returns (status: int)
      modifies this`trace
      ensures status == GetParamSpec(paramId, rm != null, result).status
      ensures trace == old(trace) + GetParamSpec(paramId, rm != null, result).calls
    {
      status := 0;
      if rm != null {
        trace := trace + [GetParameter(paramId, None)];
        status := result;
      } else {
        status := -EINVAL;
      }
    }

    /** pal_register_global_callback (Pal.cpp:694-706), with the write
        skipped when there is no instance to write to. */
    method RegisterGlobalCallback(cb: Pointer, cookie: Pointer) returns (status: int)
      modifies rm
      ensures status == 0
      ensures rm != null && cb.Ptr? ==> rm.globalCb == cb && rm.cookie == cookie
      ensures rm != null && cb.Null? ==> rm.globalCb == old(rm.globalCb) && rm.cookie == old(rm.cookie)
    {
      if cb.Ptr? && rm != null {
        rm.globalCb := cb;
        rm.cookie := cookie;
      }
      return 0;
    }

    /** pal_gef_rw_param (Pal.cpp:708-742) */
    method GefRwParam(paramId: nat, target: GefTarget, dir: nat, result: int) returns (status: int)
      modifies this`trace
      ensures status == GefRwParamSpec(paramId, target, dir, rm != null, result).status
      ensures trace == old(trace) + GefRwParamSpec(paramId, target, dir, rm != null, result).calls
    {
      status := 0;
      if rm != null {
        if dir == GEF_PARAM_WRITE {
          trace := trace + [SetParameter(paramId, Some(target))];
          status := result;
        } else {
          trace := trace + [GetParameter(paramId, Some(target))];
          status := result;
        }
      } else {
        status := -EINVAL;
      }
    }
  }
}
