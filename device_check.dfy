/** The per-device check that pal_stream_set_device runs before it asks the
    stream to switch devices (Pal.cpp:576-587): for each requested device,
    look up its info, reject a channel count of zero or above the device
    maximum, then resolve the device configuration; the first device that
    fails ends the check with its status. */
module DeviceCheck {
  import opened PalTypes

  /** The channel test of Pal.cpp:578, negated: at least one channel and no
      more than the device supports. */
  predicate ChannelsValid(info: DeviceInfo)
  {
    0 < info.channels <= info.maxChannels
  }

  /** A device passes when its channels are valid and getDeviceConfig
      returned 0 for it. */
  predicate Accepted(info: DeviceInfo, configStatus: int)
  {
    ChannelsValid(info) && configStatus == 0
  }

  /** The status the loop returns at a device that does not pass. */
  function RejectionStatus(info: DeviceInfo, configStatus: int): int
  {
    if !ChannelsValid(info) then -EINVAL else configStatus
  }

  /** Device i is the first that does not pass. */
  ghost predicate FirstRejected(infos: seq<DeviceInfo>, configStatuses: seq<int>, k: int)
    requires |configStatuses| == |infos|
  {
    && 0 <= k < |infos|
    && (forall i :: 0 <= i < k ==> Accepted(infos[i], configStatuses[i]))
    && !Accepted(infos[k], configStatuses[k])
  }

  /** The two queries made for each of devices lo .. hi-1 when they all pass. */
  function AcceptedCalls(devices: seq<Device>, infos: seq<DeviceInfo>, t: StreamType, lo: nat, hi: nat): seq<Call>
    requires |infos| == |devices| && lo <= hi <= |devices|
    decreases hi - lo
  {
    if lo == hi then []
    else [GetDeviceInfo(devices[lo].id, t), GetDeviceConfig(devices[lo].id, infos[lo].channels)]
         + AcceptedCalls(devices, infos, t, lo + 1, hi)
  }

  /** The queries made for the device that ends the loop: no configuration
      is requested when its channel count is already invalid. */
  function RejectedCalls(device: Device, info: DeviceInfo, t: StreamType): seq<Call>
  {
    [GetDeviceInfo(device.id, t)]
    + if ChannelsValid(info) then [GetDeviceConfig(device.id, info.channels)] else []
  }

  datatype ProbeResult = ProbeResult(status: int, calls: seq<Call>)

  /** `r` preceded by the calls already made. */
  function After(made: seq<Call>, r: ProbeResult): ProbeResult
  {
    ProbeResult(r.status, made + r.calls)
  }

  /** The loop as a function, from device i on. `infos[i]` is what
      getDeviceInfo leaves in `devinfo` for device i, `configStatuses[i]`
      what getDeviceConfig returns for it: one reply per requested device.
      A status of 0 means the loop ran to the end. */
  function ProbeFrom(devices: seq<Device>, infos: seq<DeviceInfo>, configStatuses: seq<int>,
                     t: StreamType, i: nat): ProbeResult
    requires |infos| == |devices| && |configStatuses| == |devices| && i <= |devices|
    decreases |devices| - i
  {
    if i == |devices| then ProbeResult(0, [])
    else if !Accepted(infos[i], configStatuses[i]) then
      ProbeResult(RejectionStatus(infos[i], configStatuses[i]), RejectedCalls(devices[i], infos[i], t))
    else
      After([GetDeviceInfo(devices[i].id, t), GetDeviceConfig(devices[i].id, infos[i].channels)],
            ProbeFrom(devices, infos, configStatuses, t, i + 1))
  }

  /** The whole loop. */
  function ProbeDevices(devices: seq<Device>, infos: seq<DeviceInfo>, configStatuses: seq<int>,
                        t: StreamType): ProbeResult
    requires |infos| == |devices| && |configStatuses| == |devices|
  {
    ProbeFrom(devices, infos, configStatuses, t, 0)
  }

  lemma {:induction false} ProbeFromAccepts(devices: seq<Device>, infos: seq<DeviceInfo>,
                                            configStatuses: seq<int>, t: StreamType, i: nat)
    requires |infos| == |devices| && |configStatuses| == |devices| && i <= |devices|
    ensures ProbeFrom(devices, infos, configStatuses, t, i).status == 0
            <==> forall j :: i <= j < |devices| ==> Accepted(infos[j], configStatuses[j])
    ensures ProbeFrom(devices, infos, configStatuses, t, i).status == 0
            ==> ProbeFrom(devices, infos, configStatuses, t, i).calls
                == AcceptedCalls(devices, infos, t, i, |devices|)
    decreases |devices| - i
  {
    if i < |devices| {
      ProbeFromAccepts(devices, infos, configStatuses, t, i + 1);
    }
  }

  /** The loop lets the stream proceed to the switch exactly when every
      device passes, and then it has queried every device in order. */
  lemma ProbeAcceptsIffAllAccepted(devices: seq<Device>, infos: seq<DeviceInfo>,
                                   configStatuses: seq<int>, t: StreamType)
    requires |infos| == |devices| && |configStatuses| == |devices|
    ensures ProbeDevices(devices, infos, configStatuses, t).status == 0
            <==> forall i :: 0 <= i < |devices| ==> Accepted(infos[i], configStatuses[i])
    ensures ProbeDevices(devices, infos, configStatuses, t).status == 0
            ==> ProbeDevices(devices, infos, configStatuses, t).calls
                == AcceptedCalls(devices, infos, t, 0, |devices|)
  {
    ProbeFromAccepts(devices, infos, configStatuses, t, 0);
  }

  lemma {:induction false} ProbeFromRejects(devices: seq<Device>, infos: seq<DeviceInfo>,
                                            configStatuses: seq<int>, t: StreamType, i: nat, k: int)
    requires |infos| == |devices| && |configStatuses| == |devices|
    requires FirstRejected(infos, configStatuses, k) && i <= k
    ensures ProbeFrom(devices, infos, configStatuses, t, i)
            == ProbeResult(RejectionStatus(infos[k], configStatuses[k]),
                           AcceptedCalls(devices, infos, t, i, k) + RejectedCalls(devices[k], infos[k], t))
    decreases k - i
  {
    if i < k {
      ProbeFromRejects(devices, infos, configStatuses, t, i + 1, k);
      assert Accepted(infos[i], configStatuses[i]);
      var two := [GetDeviceInfo(devices[i].id, t), GetDeviceConfig(devices[i].id, infos[i].channels)];
      assert two + (AcceptedCalls(devices, infos, t, i + 1, k) + RejectedCalls(devices[k], infos[k], t))
             == (two + AcceptedCalls(devices, infos, t, i + 1, k)) + RejectedCalls(devices[k], infos[k], t);
    }
  }

  /** The first device that does not pass decides the status, and no device
      after it is queried. */
  lemma ProbeRejectsAtFirstFailure(devices: seq<Device>, infos: seq<DeviceInfo>,
                                   configStatuses: seq<int>, t: StreamType, k: int)
    requires |infos| == |devices| && |configStatuses| == |devices|
    requires FirstRejected(infos, configStatuses, k)
    ensures ProbeDevices(devices, infos, configStatuses, t).status == RejectionStatus(infos[k], configStatuses[k]) != 0
    ensures ProbeDevices(devices, infos, configStatuses, t).calls
            == AcceptedCalls(devices, infos, t, 0, k) + RejectedCalls(devices[k], infos[k], t)
  {
    ProbeFromRejects(devices, infos, configStatuses, t, 0, k);
  }

  lemma {:induction false} ProbeFromOnlyQueries(devices: seq<Device>, infos: seq<DeviceInfo>,
                                                configStatuses: seq<int>, t: StreamType, i: nat)
    requires |infos| == |devices| && |configStatuses| == |devices| && i <= |devices|
    ensures forall c :: c in ProbeFrom(devices, infos, configStatuses, t, i).calls
                        ==> c.GetDeviceInfo? || c.GetDeviceConfig?
    decreases |devices| - i
  {
    if i < |devices| {
      ProbeFromOnlyQueries(devices, infos, configStatuses, t, i + 1);
    }
  }

  /** Every call the loop makes is a device query: it never switches,
      opens or closes anything. */
  lemma ProbeOnlyQueries(devices: seq<Device>, infos: seq<DeviceInfo>,
                         configStatuses: seq<int>, t: StreamType)
    requires |infos| == |devices| && |configStatuses| == |devices|
    ensures forall c :: c in ProbeDevices(devices, infos, configStatuses, t).calls
                        ==> c.GetDeviceInfo? || c.GetDeviceConfig?
  {
    ProbeFromOnlyQueries(devices, infos, configStatuses, t, 0);
  }

  /** One iteration of the loop, read off the function at device i. */
  lemma ProbeStep(devices: seq<Device>, infos: seq<DeviceInfo>, configStatuses: seq<int>,
                  t: StreamType, i: nat, made: seq<Call>)
    requires |infos| == |devices| && |configStatuses| == |devices| && i < |devices|
    ensures !ChannelsValid(infos[i]) ==>
            After(made, ProbeFrom(devices, infos, configStatuses, t, i))
            == ProbeResult(-EINVAL, made + [GetDeviceInfo(devices[i].id, t)])
    ensures ChannelsValid(infos[i]) && configStatuses[i] != 0 ==>
            After(made, ProbeFrom(devices, infos, configStatuses, t, i))
            == ProbeResult(configStatuses[i], made + [GetDeviceInfo(devices[i].id, t)]
                                                   + [GetDeviceConfig(devices[i].id, infos[i].channels)])
    ensures Accepted(infos[i], configStatuses[i]) ==>
            After(made, ProbeFrom(devices, infos, configStatuses, t, i))
            == After(made + [GetDeviceInfo(devices[i].id, t)] + [GetDeviceConfig(devices[i].id, infos[i].channels)],
                     ProbeFrom(devices, infos, configStatuses, t, i + 1))
  {
    var rest := ProbeFrom(devices, infos, configStatuses, t, i + 1);
    assert made + [GetDeviceInfo(devices[i].id, t)] + [GetDeviceConfig(devices[i].id, infos[i].channels)] + rest.calls
           == made + ([GetDeviceInfo(devices[i].id, t), GetDeviceConfig(devices[i].id, infos[i].channels)] + rest.calls);
  }

  /** The loop of pal_stream_set_device (Pal.cpp:576-587), returning the
      queries it made in order. */
  method ValidateDevices(devices: seq<Device>, infos: seq<DeviceInfo>, configStatuses: seq<int>,
                         t: StreamType)
    returns (status: int, calls: seq<Call>)
    requires |infos| == |devices| && |configStatuses| == |devices|
    ensures ProbeResult(status, calls) == ProbeDevices(devices, infos, configStatuses, t)
  {
    calls := [];
    var i := 0;
    while i < |devices|
      invariant 0 <= i <= |devices|
      invariant ProbeDevices(devices, infos, configStatuses, t)
                == After(calls, ProbeFrom(devices, infos, configStatuses, t, i))
    {
      ProbeStep(devices, infos, configStatuses, t, i, calls);
      var devinfo := infos[i];
      calls := calls + [GetDeviceInfo(devices[i].id, t)];
      if devinfo.channels == 0 || devinfo.channels > devinfo.maxChannels {
        status := -EINVAL;
        return;
      }
      calls := calls + [GetDeviceConfig(devices[i].id, devinfo.channels)];
      status := configStatuses[i];
      if status != 0 {
        return;
      }
      i := i + 1;
    }
    status := 0;
  }
}
