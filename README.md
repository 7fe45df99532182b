# PAL API facade: a Dafny model

The audio platform abstraction layer (PAL) exposes a C API (`Pal.cpp`) in
front of its `Stream` objects and its process-wide `ResourceManager`. Each
entry point checks its arguments, calls a stream or the resource manager,
and decides from the returned status whether more happens:

- whether the resource manager hears of a stream becoming active or
  inactive (`ConcurrentStreamStatus`);
- whether a stream is closed and deleted;
- whether `switchDevice` is reached;
- whether the global callback and its cookie are overwritten.

This project models that caller-side protocol. `Stream` and
`ResourceManager` are opaque collaborators. Every status they return is a
parameter that the model does not constrain. The facade is a class,
`Pal.PalApi`. It holds the instance `ResourceManager::getInstance` yields
(null when there is none) and a ghost trace of every collaborator call.
It also holds the ghost set of live streams: created and not yet deleted.

Layout:

- `pal_types.dfy` (module `PalTypes`): statuses, stream attributes, devices, the `Stream` and
  `ResourceManager` objects, and the `Call` vocabulary of the trace.
- `device_check.dfy` (module `DeviceCheck`): the per-device loop of `pal_stream_set_device`, as a
  method and as the function it is proved against.
- `pal_spec.dfy` (module `PalSpec`): for each entry point, a function giving its status and its
  calls, plus the lemmas that state what the facade promises.
- `pal.dfy` (module `Pal`): the entry points as methods of `PalApi`, each proved to follow its
  function in `PalSpec`.
- `concurrency.dfy` (module `Concurrency`): the per-(type, direction) active count derived from
  the `ConcurrentStreamStatus` calls, over any sequence of starts and stops.
- `as_written.dfy` (module `AsWritten`): the two entry points whose code dereferences NULL, as
  written: `pal_add_remove_effect` for every non-NULL handle, `pal_register_global_callback` when
  there is no instance (see Findings).

Behaviour of the code worth noting:

- For a voice-UI stream, `pal_stream_set_device` returns `-EINVAL` and never calls
  `switchDevice` (Pal.cpp:538, 570-573).
- When `open()` fails, `pal_stream_open` closes and deletes the stream itself and returns
  `open()`'s status; no handle is written (Pal.cpp:144-151).
- `pal_stream_close` has no guard against a second close of the same handle (Pal.cpp:162-184).
  Here every handle entry point requires a NULL handle or a live one.
- `pal_add_remove_effect` starts from a positive `EINVAL` (Pal.cpp:508). That value is
  overwritten on every path before a return. `PalSpec.AddRemoveEffectOnlyForVoipTx` shows it can
  reach the caller only if a collaborator itself returned it.
- Only `pal_stream_start` and `pal_stream_stop` announce anything to `ConcurrentStreamStatus`;
  `pal_stream_close` announces nothing, even for a stream that is still started.

## Model

| member | source | states |
|---|---|---|
| `Pal.PalApi.NotifyConcurrentStream` | Pal.cpp:52-66 | one `ConcurrentStreamStatus(type, dir, active)` call when an instance exists, none otherwise |
| `Pal.PalApi.StreamOpen` | Pal.cpp:114-160 | status, handle and calls follow `OpenSpec`; the stream is fresh and has the given attributes; it joins the live set exactly when the handle is written |
| `Pal.PalApi.StreamClose` | Pal.cpp:162-184 | status and calls follow `CloseSpec`; the stream leaves the live set exactly when `close()` returns 0 |
| `Pal.PalApi.StreamStart` | Pal.cpp:186-212 | status and calls follow `StartSpec` |
| `Pal.PalApi.StreamStop` | Pal.cpp:214-241 | status and calls follow `StopSpec`, on both exits |
| `Pal.PalApi.StreamForward` | Pal.cpp:243-502 | read, write and the other forwarding entry points (including the mmap ones at 651-692) follow `ForwardSpec` |
| `Pal.PalApi.StreamAddRemoveEffect` | Pal.cpp:504-534 | with the handle cast before use, status and calls follow `AddRemoveEffectSpec` |
| `Pal.PalApi.StreamSetDevice` | Pal.cpp:535-602 | status and calls follow `SetDeviceSpec`: null checks, instance check, voice-UI skip, device loop, switch |
| `Pal.PalApi.SetParam` | Pal.cpp:604-625 | `-EINVAL` and no call without an instance; otherwise one `setParameter` and its status |
| `Pal.PalApi.GetParam` | Pal.cpp:627-649 | `-EINVAL` and no call without an instance; otherwise one `getParameter` and its status |
| `Pal.PalApi.RegisterGlobalCallback` | Pal.cpp:694-706 | returns 0; a non-NULL callback overwrites both `globalCb` and `cookie`; a NULL callback leaves both unchanged |
| `Pal.PalApi.GefRwParam` | Pal.cpp:708-742 | status and calls follow `GefRwParamSpec` |
| `DeviceCheck.ValidateDevices` | Pal.cpp:576-587 | the loop returns exactly the status and the queries of `ProbeDevices`, the recursive definition that `ProbeAcceptsIffAllAccepted` and `ProbeRejectsAtFirstFailure` characterise |
| `DeviceCheck.ProbeAcceptsIffAllAccepted` | Pal.cpp:576-587 | the loop runs to its end iff every device passes, and then it has queried every device in order |
| `DeviceCheck.ProbeRejectsAtFirstFailure` | Pal.cpp:577-586 | the first failing device decides the status: `-EINVAL` for a bad channel count, else `getDeviceConfig`'s non-zero status; no later device is queried |
| `DeviceCheck.ProbeOnlyQueries` | Pal.cpp:576-587 | the loop only queries device info and configuration; it never switches a device |
| `PalSpec.NullHandleRejected` | Pal.cpp:162-692 | close, start, stop, the forwarding calls (243-502 and the mmap ones at 651-692), add/remove-effect (whatever its collaborators would reply) and set-device return `-EINVAL` and call nothing for a NULL handle; read, write and set-volume do the same for a NULL buffer or volume |
| `PalSpec.ForwardReturnsStreamStatus` | Pal.cpp:243-692 | for each of the fourteen forwarding entry points (243-502, 651-692), a forwarded request on a valid handle calls the stream once and returns its status, negative or not |
| `PalSpec.OpenOutcomes` | Pal.cpp:124-157 | NULL attributes return `-EINVAL` before `Stream::create`; a throwing or NULL-returning `Stream::create` gives `-EINVAL` after the create call alone; the handle is written iff the status is 0; a failed `open()` closes and deletes the stream and returns `open()`'s status; the callback is registered iff the open succeeded and `cb` is non-NULL |
| `PalSpec.CloseDeletesOnlyOnSuccess` | Pal.cpp:175-183 | returns `close()`'s status; deletes the stream iff `close()` returned 0 |
| `PalSpec.StartNotifiesOnlyOnSuccess` | Pal.cpp:201-209 | returns `start()`'s status; exactly one activation for the stream's (type, direction) when `start()` returned 0 and an instance exists, none otherwise; never a deactivation |
| `PalSpec.StopAlwaysNotifies` | Pal.cpp:226-237 | returns `stop()`'s status; type and direction are read before `stop()`; exactly one deactivation (given an instance) whether `stop()` fails or not; never an activation |
| `PalSpec.AddRemoveEffectOnlyForVoipTx` | Pal.cpp:508-532 | `addRemoveEffect` is called iff `getStreamType` returned 0 and the stream is VoIP-TX; other types succeed as a no-op; the initial positive `EINVAL` never reaches the caller on its own |
| `PalSpec.SetDeviceSkipsVoiceUi` | Pal.cpp:538-574 | a voice-UI stream is never switched, and the result is the initial `-EINVAL` |
| `PalSpec.SetDeviceSwitchesIffAllAccepted` | Pal.cpp:576-597 | `switchDevice` is called iff an instance exists, the stream is not voice-UI and every device passes both checks; then its status is returned |
| `PalSpec.SetDeviceStopsAtFirstRejected` | Pal.cpp:576-587 | with device k the first to fail, the status is `-EINVAL` or its `getDeviceConfig` status, the calls end at device k, and there is no switch |
| `PalSpec.GlobalParamsNeedInstance` | Pal.cpp:604-649 | `pal_set_param` and `pal_get_param` return `-EINVAL` without an instance; otherwise they make exactly one call and return its status |
| `PalSpec.GefRwParamRoutesByDirection` | Pal.cpp:719-738 | `setParameter` is called iff `dir == GEF_PARAM_WRITE`, `getParameter` otherwise; `-EINVAL` and no call without an instance |
| `Concurrency.RunActiveCount` | Pal.cpp:201-237 | over any sequence of starts and stops, the net activations announced for a (type, direction) class equal its successful starts minus all its stops; no other class changes |
| `Concurrency.StartThenStopBalances` | Pal.cpp:201-237 | the calls of a successful start followed by those of a stop, failing or not, announce a net count of 0 for every class |
| `Concurrency.StopAfterFailedStartDeactivates` | Pal.cpp:226-237 | the calls of a failed start followed by those of a stop announce a net count of -1 for the stream's class: the stop still deactivates |
| `Concurrency.DisciplinedRunCount` | Pal.cpp:186-241 | over a run that starts only streams not started and stops only started ones, the net count announced for a class equals the change in the number of its started streams (a stop ends the activation whatever `stop()` returns) |
| `Concurrency.CountIsStartedStreams` | Pal.cpp:186-241 | from no started stream, a disciplined run announces for each class exactly the number of its streams still started, so the count is never negative |
| `Concurrency.QuietKeepsCount` | Pal.cpp:52-66 | calls that contain no `ConcurrentStreamStatus` leave the count of every class, read off the whole trace, unchanged |
| `Concurrency.OtherEntryPointsAreQuiet` | Pal.cpp:114-742 | open and close (114-184), the forwarding calls (243-502, 651-692), add/remove-effect (504-534) and the parameter calls (604-649, 708-742) never call `ConcurrentStreamStatus` |
| `Concurrency.SetDeviceIsQuiet` | Pal.cpp:535-602 | `pal_stream_set_device` never calls `ConcurrentStreamStatus`: its loop only queries and the switch is no announcement |
| `AsWritten.AddRemoveEffectDereferencesNull` | Pal.cpp:507-518 | as written, every non-NULL handle makes `getStreamType` run through a NULL `s` |
| `AsWritten.RegisterGlobalCallbackDereferencesNull` | Pal.cpp:699-704 | as written, a non-NULL callback with no instance is written through a NULL resource manager |

## Left out

- `pal_init` and `pal_deinit` (Pal.cpp:76-111) are not modelled. They construct and tear down the
  resource manager and its sound-card monitor, and that code is outside this model.
- The internals of `Stream` and `ResourceManager` are outside this model: `open`, `start`,
  `stop`, `close`, `getDeviceInfo`, `getDeviceConfig`, `switchDevice` and
  `ConcurrentStreamStatus`. Each call is a trace event, and its status is a parameter.
- The instance `getInstance` yields is fixed for the life of the `PalApi` object. Lazy
  construction, exceptions it throws and races between threads are not modelled.
- An exception from `Stream::create` and a NULL return from it are both one outcome: `-EINVAL`
  after the `CreateStream` call.
- The device and modifier lists handed to `Stream::create` are not modelled.
- The configuration that `getDeviceConfig` writes back into `devices[i]` is not modelled. A
  device is its id, and `SwitchDevice` records the ids that were requested.
- `no_of_devices` is the length of the device sequence. A count that disagrees with the array
  is not modelled.
- Logging has no effect in the model. This includes the debug read of `devices[0].id` at
  Pal.cpp:590-591, which happens even when there are no devices.
- Status widths (`int32_t`, `int`, `ssize_t`) are unbounded integers. `pal_stream_write` and
  `pal_stream_read` pass the stream's result through an `int status` and return it as `ssize_t`
  (Pal.cpp:246/254, 266/274); any narrowing or widening on that path is not modelled.
- Payload, buffer, volume, timestamp and mmap contents are not modelled. Only whether a checked
  pointer is NULL matters.
- Passing a handle that is not live (never opened, or already closed) is undefined behaviour in
  the source. Each handle entry point instead requires a NULL or live handle.
- The value of `GEF_PARAM_WRITE` comes from PalDefs.h, which is not part of this model. It is
  taken to be 1; the lemmas depend only on the comparison with it.
- `getStreamType`, `getStreamDirection` and `getStreamAttributes` always report the attributes
  the stream was created with: `Stream.attributes` is fixed at `Stream::create`. The lemmas
  about start, stop, set-device and the per-class counts rest on this.
- The statuses those three getters return are ignored by the code (Pal.cpp:207-208, 227-228,
  567) and are not modelled. Neither is the uninitialised `type`, `dir` or `sattr` the code would
  go on with if one of them failed.
- The handle of `pal_stream_open` is an out value. The write `*stream_handle = stream`
  (Pal.cpp:157) happens after a successful `open()` without testing `stream_handle` for NULL;
  a NULL `stream_handle` is not modelled.
- `OtherType(code)` stands for every stream type other than voice-UI and VoIP-TX. The numeric
  values of those two types come from PalDefs.h, which is not part of this model, so nothing
  stops a code equal to one of them; such a value is outside the model's reading.
- Thread safety and the serialisation of resource-manager operations are not modelled.

## Findings

| source | as written | input that shows it | evidently intended | confidence | as-written member | corrected member |
|---|---|---|---|---|---|---|
| Pal.cpp:518 | `s` is still NULL when `s->getStreamType(&type)` runs; the cast from the handle happens only at line 524 | any non-NULL stream handle | cast the handle to `s` before asking for its type | high, not executed | `AsWritten.AddRemoveEffectDereferencesNull` | `Pal.PalApi.StreamAddRemoveEffect` |
| Pal.cpp:699-704 | `rm->globalCb` and `rm->cookie` are written without testing `rm`, though every other entry point that asks for the instance tests it, except `pal_init` (Pal.cpp:81-87), which relies on `getInstance` throwing; that reliance is evidence that `getInstance` never returns NULL | no resource-manager instance and a non-NULL `cb` | skip the write when there is no instance, still returning 0 | low, not executed | `AsWritten.RegisterGlobalCallbackDereferencesNull` | `Pal.PalApi.RegisterGlobalCallback` |
