/** Vocabulary shared by the model of the PAL API facade (Pal.cpp): status
    codes, stream attributes, devices, the opaque Stream and ResourceManager
    objects, and the calls the facade makes on them. */
module PalTypes {

  /** Linux errno for an invalid argument; the facade returns it negated. */
  const EINVAL: int := 22

  /** The `dir` value of pal_gef_rw_param that selects a parameter write
      (declared in PalDefs.h, which is not part of this model). */
  const GEF_PARAM_WRITE: nat := 1

  datatype Option<T> = None | Some(value: T)

  /** A C pointer the facade only tests against NULL and hands on
      (callbacks, cookies, buffers, payloads). */
  datatype Pointer = Null | Ptr(address: nat)

  /** pal_stream_type_t: the facade singles out only voice-UI (sound
      trigger) and VoIP-TX streams; every other type is kept by its code.
      An `OtherType` code stands for a type other than those two: the
      voice-UI and VoIP-TX values are written only as `VoiceUi` and
      `VoipTx`, never as a code. */
  datatype StreamType = VoiceUi | VoipTx | OtherType(code: nat)

  /** pal_stream_direction_t */
  datatype Direction = Output | Input | InputOutput

  /** The part of pal_stream_attributes the facade looks at. */
  datatype StreamAttributes = StreamAttributes(streamType: StreamType, direction: Direction)

  /** pal_device, identified by its pal_device_id_t. */
  datatype Device = Device(id: nat)

  /** pal_device_info as left by ResourceManager::getDeviceInfo. */
  datatype DeviceInfo = DeviceInfo(channels: nat, maxChannels: nat)

  /** Device and stream-type qualifier of a pal_gef_rw_param request. */
  datatype GefTarget = GefTarget(deviceId: nat, streamType: StreamType)

  /** A stream object created by Stream::create. Its internal state belongs
      to code outside this model; the facade only reads its attributes. */
  class Stream {
    const attributes: StreamAttributes

    constructor (attributes: StreamAttributes)
      ensures this.attributes == attributes
    {
      this.attributes := attributes;
    }
  }

  /** The process-wide resource manager; of its state the facade writes
      only the global callback and its cookie. */
  class ResourceManager {
    var globalCb: Pointer
    var cookie: Pointer

    constructor ()
      ensures globalCb == Null && cookie == Null
    {
      globalCb, cookie := Null, Null;
    }
  }

  /** The stream-handle entry points that forward one request to the
      stream and return its status unchanged. */
  datatype StreamRequest =
    | Read | Write
    | GetParameters | SetParameters | SetVolume | SetMute
    | Pause | Resume | Drain | Flush | SetBufferSize | GetTimestamp
    | GetMmapPosition | CreateMmapBuffer

  /** Read, write and set-volume also reject a NULL buffer or volume
      pointer; the others hand their pointers on unchecked. */
  predicate ChecksSecondPointer(request: StreamRequest)
  {
    request == Read || request == Write || request == SetVolume
  }

  /** One call the facade makes on a Stream or on the ResourceManager. */
  datatype Call =
    | CreateStream(attributes: StreamAttributes)
    | OpenStream(stream: Stream)
    | CloseStream(stream: Stream)
    | DeleteStream(stream: Stream)
    | RegisterStreamCallback(stream: Stream, cb: Pointer, cookie: Pointer)
    | StartStream(stream: Stream)
    | StopStream(stream: Stream)
    | GetStreamType(stream: Stream)
    | GetStreamDirection(stream: Stream)
    | GetStreamAttributes(stream: Stream)
    | Forward(request: StreamRequest, stream: Stream)
    | AddRemoveEffect(stream: Stream, effect: nat, enable: bool)
    | SwitchDevice(stream: Stream, devices: seq<Device>)
    | GetDeviceInfo(deviceId: nat, streamType: StreamType)
    | GetDeviceConfig(deviceId: nat, channels: nat)
    | ConcurrentStreamStatus(streamType: StreamType, direction: Direction, active: bool)
    | SetParameter(paramId: nat, target: Option<GefTarget>)
    | GetParameter(paramId: nat, target: Option<GefTarget>)
}
