# WCLAP bridge: a verified model

The bridge lets a native CLAP host use audio plugins compiled to WebAssembly. This project models its hardest parts and
proves what they are for:

* **The process call** (`Bytes`, `Memory`, `Events`, `EventQueues`, `Audio`, `Marshal`, `Process`, `Layouts`, `Samples`,
  `CopyBack`, `Calls`). The host's process record - ports, channel pointers, samples, events, transport - is laid out in
  flat guest memory (an `array<byte>`, 4- or 8-byte pointers, little-endian) by the same nested loops as the source,
  over a bump allocator. A ghost log (`Scope.blocks`) says what every region handed out so far holds; every write keeps
  the whole log true. Decoding memory from the process pointer, with a decoder that knows nothing of the log, gives the
  host's record back. The guest is any sequence of memory changes, which may grow memory, and pushed events. Output
  samples come back through the pointers found in memory and are checked, sample bit pattern by sample bit pattern.
* **Guest threads** (`GuestThreads`, `Teardown`). A transition system with any number of host callers and guest threads:
  the unlocked read of the spawn hook, the mutex, reusable slots, the thread that starts before its slot is filled,
  self-removal, and the two destructors. Safety is an inductive invariant over every interleaving; termination of the
  teardown is proved on infinite fair runs through a lexicographic measure.
* **Host-function tables** (`HostTable`) and **values across the boundary** (`Values`).
* **Streams** (`Streams`), **callback routing** (`Routing`), **time limits** (`Deadlines`), **group errors and
  initialisation** (`GroupErrors`), **whole-run lifetimes** (`Lifecycle`) and **the plugin scan** (`Scan`, `SemVer`).

Where the source changes state in place the model does too (classes, arrays, loops with invariants), and each such
method is tied to a function whose laws are proved. Protocols with several threads are transition systems with an
`Enabled` / `Apply` pair and theorems about all runs. All lemmas switch automatic induction off, so every induction is
the one written in a body.

Six promises one might expect are false of the code; each has its exact condition and a concrete input or run that
breaks it:

* the scan lists the newest of *everything* offered: exactly when each descriptor past the first duplicate id is no
  newer than an examined one (`Scan.WholeOfferIsListedIff`); `Scan.SecondPluginIsLost` is an input that loses a plugin
  to the early `return`;
* the first error message stays the reported one: `GroupErrors.MessageChangesIff` says exactly which step replaces it,
  `GroupErrors.OverlapCanLoseFirst` is a run that does, through the library-error form of `setError`, which tests before
  it takes the lock;
* a failed registration is noticed: it goes unnoticed exactly on 64-bit guests whose templates are unset, where the `-1`
  is cut to 32 bits, or when the one failure falls on index 0 and meets an empty first table
  (`HostTable.FailureUnnoticedIff`); `HostTable.UnnoticedFailure` is such an attempt;
* an attempt that is refused leaves the templates alone: they survive exactly when nothing fails and the table has the
  first one's size (`HostTable.RefusalOverwrites`); `HostTable.RefusedAttempt` is one that overwrites;
* teardown ends: it is sure to exactly when there is a time limit (`Teardown.AlwaysEndsIff`);
  `Teardown.NoLimitNeedNotTerminate` is a fair run from a reachable state that never ends;
* the directory scan survives any files: exactly when every file found loads
  (`Lifecycle.BridgePlugin.ScanWclapDirectories`); `Lifecycle.OneUnreadableFile` is a scan that passes a null handle on.

`dafny verify dfyconfig.toml` checks the project.

## Model

| member | source | states |
|---|---|---|
| GuestThreads.FindSlot | source/_generic/wclap-module.h:232-239 | the search never yields slot 0, yields the lowest empty slot from 1 on, and the end of the vector only when there is none |
| GuestThreads.StepInv | source/_generic/wclap-module-base.h:168-185 | every step of every caller, thread and destructor keeps slot ownership, the handoff, mutex discipline and the phase facts |
| GuestThreads.LiveThreadsHoldDistinctSlots | source/_generic/wclap-module.h:231-245 | in every interleaving slot 0 is empty, live threads have distinct slot indices from 1 up, and distinct instances |
| GuestThreads.RunThreadFindsItself | source/_generic/wclap-module-base.h:168-177 | the object a started thread reads from its slot is the very one its spawner made for it, though it starts before the slot is assigned |
| GuestThreads.SpawnReturnsSlotIndex | source/_generic/wclap-module.h:240-247 | when a spawn returns, the returned index names the slot that holds the thread it started, still there |
| GuestThreads.LaunchCarriesArgument | source/_generic/wclap-module.h:240-245 | a launch makes a thread with the argument its spawner holds and an instance no other thread has |
| GuestThreads.ArgumentArrives | source/wclap-instance-wasmtime/wclap-instance-wasmtime.cpp:367-376 | over any run, the argument a guest passes to `thread-spawn` is the one in its new thread's object and the one that thread reads out of its slot, unchanged |
| GuestThreads.LaunchReusesFreeSlot | source/_generic/wclap-module.h:231-240 | a launch takes the lowest free slot from 1 on, and the vector grows, by one, only when there is none |
| GuestThreads.TeardownIsSafe | source/_generic/wclap-module-base.h:64-79 | from the moment the base destructor leaves its loop: no live thread, nobody inside a spawn, mutex free, and no later step touches the module |
| GuestThreads.LateSpawnKeepsDestructorWaiting | source/_generic/wclap-module.h:61-66 | while any thread is live - also one spawned through a hook read before it was cleared - a poll cannot end the base destructor |
| Teardown.StepMeasure | source/_generic/wclap-module-base.h:64-79 | while draining no step increases (spawners, remaining ticks, loop) and every due step decreases it |
| Teardown.SomethingIsDue | source/_generic/wclap-module-base.h:76-78 | with a nonzero limit some due step exists in every draining state: no deadlock |
| Teardown.StoppedThreadRunsOut | source/wclap-instance-wasmtime/wclap-instance-wasmtime.cpp:535-544 | a stopped thread that has started is, after limit-many ticks, at its expired deadline, finishing or gone: nothing moves its deadline |
| Teardown.TerminatedOnlyAtDeadline | source/wclap-instance-wasmtime/wclap-instance-wasmtime.cpp:535-544 | no thread is ended before a whole limit of ticks since its deadline was last set, and none before the destructor polls |
| Teardown.TeardownTerminates | source/_generic/wclap-module-base.h:65-78 | every fair infinite run with a nonzero limit that has cleared the hook reaches the destroyed state with no live thread |
| Teardown.NoLimitNeedNotTerminate | source/wclap-instance-wasmtime/wclap-instance-wasmtime.cpp:529-533 | with limit 0 there is a fair infinite run, from a state an initial run reaches, that polls for ever |
| Teardown.AlwaysEndsIff | source/_generic/wclap-module-base.h:64-79 | every fair run from every reachable draining state ends if and only if the limit is nonzero |
| Memory.LinearMemory.SetArray | source/wclap-instance-wasmtime/wclap-instance-wasmtime.h:546-555 | exactly the clamped range changes, to exactly the given bytes |
| Memory.LinearMemory.GetArray | source/wclap-instance-wasmtime/wclap-instance-wasmtime.h:537-545 | the bytes of the clamped range |
| Memory.Clamp | source/wclap-instance-wasmtime/wclap-instance-wasmtime.h:471-482 | an address is pulled back so that the access fits, and kept when it already does |
| Memory.ClampIsNearest | source/wclap-instance-wasmtime/wclap-instance-wasmtime.h:471-482 | the clamped address is the highest one up to the address asked for at which the access fits |
| Memory.LogReplace | source/_generic/wclap-plugin.h:331-357 | a write inside one region updates that region's entry and leaves every other logged region, and their disjointness, intact |
| Memory.Scope.Reserve | source/_generic/wclap-plugin.h:93-99 | regions are aligned, fresh, after all earlier ones; the log grows by one and stays true |
| Memory.Scope.Set | source/_generic/wclap-plugin.h:340-341 | writing through a pointer into a region changes that entry of the log only |
| Bytes.LERoundTrip | source/wclap-instance-wasmtime/wclap-instance-wasmtime.h:527-536 | a value that fits its width survives being written as little-endian bytes and read back |
| Bytes.LEDigit | source/wclap-instance-wasmtime/wclap-instance-wasmtime.h:527-536 | byte k of a stored value is its k-th base-256 digit, the lowest first |
| Bytes.HoldsRecord | source/_generic/wclap-plugin.h:313-325 | loading the fields of a record where it lies in memory gives the values written |
| Bytes.SpliceInside | source/_generic/wclap-plugin.h:331-357 | overwriting cells of a region with cells of the same widths yields the region with exactly those cells replaced |
| Events.EventDecodes | source/_generic/wclap-plugin.h:93-131 | reading an event through its guest pointer gives the host's event, every field, cookie cut to the guest's width |
| Events.RecognisedIff | source/_generic/wclap-plugin.h:93-117 | exactly the core events of types 0 to 12 are passed on, 5 and 6 with a cookie, 11 with a pointer, the others whole |
| Events.OnlyCookieIsCut | source/_generic/wclap-plugin.h:104-116 | the cookie keeps its low pointer-width bytes, and nothing else of any event changes |
| EventQueues.EventQueue.TryCopyInputEvent | source/_generic/wclap-plugin.h:93-131 | a recognised event is appended to the list and laid out in fresh regions; any other changes nothing |
| EventQueues.EventQueue.CopyInputEvents | source/_generic/wclap-plugin.h:297-308 | the guest's list points, in order, at exactly the recognised events of the host's list |
| EventQueues.GetReachesEvents | source/_generic/wclap-plugin.h:84-92 | the guest is told the number of recognised events, index i leads to the i-th of them with every field, and null marks exactly the end |
| EventQueues.EventQueue.OutputEventsTryPush | source/_generic/wclap-plugin.h:132-205 | the host's list is asked once, with the native event rebuilt from guest memory, and its answer is returned; a refused event and a push outside a call ask nobody |
| Layouts.NativeSizeIsStructSize | source/_generic/wclap-plugin.h:138-203 | the size put into an outgoing header is the sum of the native struct's field widths, for every type |
| Layouts.OfferedPlain | source/_generic/wclap-plugin.h:138-203 | for every kind copied whole, the host is offered every field of the native struct as it stands in guest memory |
| Layouts.VelocityReachesHost | source/_generic/wclap-plugin.h:138-142 | a pushed note has 40 bytes and its velocity, the last 8 of them, arrives |
| Layouts.OfferedParam | source/_generic/wclap-plugin.h:148-169 | a pushed parameter event arrives field by field from the offsets of the guest's struct, at 56 bytes |
| Layouts.OfferedSysex | source/_generic/wclap-plugin.h:185-197 | a pushed sysex event arrives with the bytes its pointer leads to, or is refused over 1024 |
| Layouts.OthersRefused | source/_generic/wclap-plugin.h:135-136 | events of other spaces and types are refused |
| Layouts.InfoCookieReads | source/_generic/wclap-plugin.h:931-937 | the cookie is read from its field of the guest's parameter info |
| Layouts.ParamReads | source/_generic/wclap-plugin.h:105-116 | the guest's parameter fields lie at the offsets of its struct, for both pointer widths |
| Layouts.SysexReads | source/_generic/wclap-plugin.h:123-128 | likewise the sysex fields |
| Events.EventEchoes | source/_generic/wclap-plugin.h:132-205 | pushing back an event just read gives the host its original, up to native size, cookie width and the sysex limit |
| EventQueues.EventQueue.RunActs | source/_generic/wclap-plugin.h:132-205 | through any sequence of guest memory changes and pushes, the host is offered exactly the pushed events, each as it stands in memory at that moment |
| EventQueues.EchoesAreSent | source/_generic/wclap-plugin.h:93-205 | a guest that pushes back the whole list makes the host receive the echoes of its events in order |
| Calls.Plugin.FlushEcho | source/_generic/wclap-plugin.h:976-995 | from the host's list straight to its output list: a flush to an echoing guest appends the echoes of the recognised events, in order |
| EventQueues.EchoesAreTheList | source/_generic/wclap-plugin.h:93-205 | when each event meets the identity condition the echoed list is the host's list |
| Events.EchoIsIdentityIff | source/_generic/wclap-plugin.h:148-197 | what the host gets back for an event is the event itself if and only if its size is native, its cookie fits the guest's pointer and its sysex is at most 1024 bytes - also for events shorter than their native struct |
| Events.CookieSurvivesIff | source/_generic/wclap-plugin.h:104-108 | a cookie survives any number of trips if and only if it fits the guest's pointer width |
| Events.HandedOutCookieSurvives | source/_generic/wclap-plugin.h:933-942 | a cookie from `params_get_info` is seen by the guest and by the host unchanged after any number of trips |
| Marshal.CopyChannels | source/_generic/wclap-plugin.h:338-346 | a table of pointers, each to a fresh region with that channel's samples |
| Marshal.TranslateBuffer | source/_generic/wclap-plugin.h:328-357 | tables, samples and the port's record are in place; all other regions, and the other records of the same array, are untouched |
| Marshal.TranslatePorts | source/_generic/wclap-plugin.h:358-367 | after the loop every port of the array is in place at once: no turn overwrote an earlier one |
| Audio.PortsDecode | source/_generic/wclap-plugin.h:358-367 | decoding a port array from memory gives the host's ports, channels and samples back |
| Layouts.BufferReads | source/_generic/wclap-plugin.h:329-335 | a port's pointers, count, latency and mask are read at the offsets of the guest's struct |
| Layouts.ProcessReads | source/_generic/wclap-plugin.h:313-323 | the process record's times, transport, port arrays with their counts and event structs are read at the offsets of the guest's struct |
| Process.ProcessDecodes | source/_generic/wclap-plugin.h:292-370 | decoding from the process record gives the host's record, its own callbacks and plugin index |
| Process.ChannelsDisjoint | source/_generic/wclap-plugin.h:338-354 | no two channels of a port array, of whatever ports and sample types, share a byte |
| Calls.Plugin.SetPlugin | source/_generic/wclap-module-base.h:113-118 | the context field of a struct becomes the plugin's list index; its other fields stay |
| Calls.Plugin.Prepare | source/_generic/wclap-plugin.h:293-369 | all stages together leave the whole call laid out, and every earlier stage survives the later ones |
| Calls.Plugin.PluginProcess | source/_generic/wclap-plugin.h:292-394 | just before the guest runs, its process pointer leads to the call's own times, transport, ports with every sample of the host's buffers, and recognised events in order, all at multiples of 8; nothing outside the arena changed; its pushes reach the host's list in order; the bracket is closed; every output buffer is what the re-read pointers lead to, checked, for the last channel that has it; no other buffer changes |
| Calls.Plugin.ParamsFlush | source/_generic/wclap-plugin.h:976-995 | the guest finds the two event structs with its plugin index and the recognised events in order; the same account of what any guest pushes; the bracket closed afterwards |
| Calls.GuestSeesHostRecord | source/_generic/wclap-plugin.h:292-370 | just before the guest runs, following the process pointer yields the host's record, and the event pointers its recognised events in order |
| Calls.OutputChannelReturned | source/_generic/wclap-plugin.h:374-391 | if the guest left the output pointers alone - it may grow its memory - each sample of a host buffer has the bits the guest put into the region allocated for the last channel that has it, or is 0 where those are not below 100 in magnitude |
| CopyBack.CopyBackPorts | source/_generic/wclap-plugin.h:374-391 | for any memory the guest left, each output buffer is the checked samples found through the re-read tables; of channels sharing a buffer the last one counts |
| CopyBack.IntactChannel | source/_generic/wclap-plugin.h:376-387 | with intact pointers the clamped double indirection ends at the channel's own region |
| Samples.CheckBuffers | source/_generic/wclap-plugin.h:395-401 | in place, each sample keeps its bits if, without the sign, they are below the bits of 100, and becomes 0 otherwise |
| Samples.KeptIffBitsBelow | source/_generic/wclap-plugin.h:398-399 | for single and double, the IEEE 754-2008 comparison (section 5.11) keeps a sample if and only if its sign-free bits are below those of 100: NaN and infinities never |
| Samples.CheckedIsKept | source/_generic/wclap-plugin.h:395-401 | what the check leaves is itself kept, so checking twice is checking once |
| HostTable.WclapModule.RegisterHost | source/_generic/wclap-module.h:13-27 | the template is overwritten in every case; success exactly when the cut index is accepted; a refusal sets the error |
| HostTable.WclapModule.AddHostFunctions | source/_generic/wclap-module.h:84-173 | the method agrees with the fold over the 41 registrations, stopping at the first refusal |
| HostTable.SuccessSets | source/_generic/wclap-module.h:84-173 | any success, whatever went before, makes template k resolve to host method k in that instance's table |
| HostTable.FirstAttemptIff | source/_generic/wclap-module.h:14-27 | a first attempt on a 32-bit guest succeeds if and only if nothing fails, on a 64-bit guest always |
| HostTable.LaterSuccessIff | source/_generic/wclap-module.h:14-27 | for either width, a later attempt succeeds if and only if nothing fails and its table had the first one's size, or the one failure slips through at the exempt index 0; in the first case templates are unchanged |
| HostTable.EveryInstanceAgrees | source/_generic/wclap-module.h:84-173 | for any number of successes, each template means the same host method in every instance's table, however it has grown since, and later successes change no template |
| HostTable.AgreeAcrossRefusals | source/_generic/wclap-module.h:84-173 | with any refused attempts in between, the templates left by one success mean the same methods in another successful instance's table if and only if the two tables had the same size |
| HostTable.WideFirstAttempt | source/wclap-instance-wasmtime/wclap-instance-wasmtime.h:657-660 | on 64-bit guests a first attempt reports success whatever failed; its templates resolve if and only if nothing failed |
| HostTable.FailureUnnoticedIff | source/_generic/wclap-module.h:14-27 | a failing attempt reports success if and only if the guest is 64-bit and its templates are unset, or the failure slips through at index 0 of an empty first table |
| HostTable.UnnoticedFailure | source/wclap-instance-wasmtime/wclap-instance-wasmtime.h:657-660 | one attempt where everything fails, success is reported and no template resolves |
| HostTable.RefusalOverwrites | source/_generic/wclap-module.h:15-25 | for either width, an attempt leaves set templates as they were if and only if nothing fails and its table has the first one's size |
| HostTable.RefusedAttempt | source/_generic/wclap-module.h:21-25 | one refused attempt, a table larger by one entry, that has overwritten template 0 |
| Values.RoundTrip | source/wclap-instance-wasmtime/wclap-instance-wasmtime.h:69-186 | unpacking a packed value gives it back for every type, sign and pointer width |
| Values.UnpackIs | source/wclap-instance-wasmtime/wclap-instance-wasmtime.h:122-186 | any slot read at any type gives the value of that type with the slot's low bytes; a bool is whether any of the low 4 is set |
| Values.ListRoundTrip | source/wclap-instance-wasmtime/wclap-instance-wasmtime.h:282-285 | a whole argument list comes back in order, whatever follows it in the slots |
| Values.CodeFitsType | source/wclap-instance-wasmtime/wclap-instance-wasmtime.h:199-256 | types of 8 bytes get an 8-byte code, smaller ones a 4-byte code, and float types a float code |
| Values.OnlyTheDeclaredLane | source/wclap-instance-wasmtime/wclap-instance-wasmtime.h:192-256 | slots that agree in the lane of the declared type code unpack alike |
| Values.PackedInItsLane | source/wclap-instance-wasmtime/wclap-instance-wasmtime.h:192-256 | a reader of the declared type code finds the value in that lane, up to the lane's own sign |
| Values.Unchecked | source/wclap-instance-wasmtime/wclap-instance-wasmtime.h:615-624 | the native function gets the arguments as they were before the call, although the result goes into slot 0 |
| Values.GuestCallsHost | source/wclap-instance-wasmtime/wclap-instance-wasmtime.h:607-651 | a guest that packs by the type codes gets exactly what the native function returns for its values |
| Values.WtCall | source/wclap-instance-wasmtime/wclap-instance-wasmtime.h:484-518 | a call that sees an error runs no guest code and zeroes slot 0; otherwise the result, or an error set, as the guest did - also an error raised by a callback inside a call that returns |
| Values.Call | source/wclap-instance-wasmtime/wclap-instance-wasmtime.h:557-588 | the guest is handed slots that unpack to the arguments; its result at the declared type, or 0 and an error |
| Values.CallVoid | source/wclap-instance-wasmtime/wclap-instance-wasmtime.h:559-562 | the same for calls without a result, with as many slots as arguments |
| Streams.StreamBridge.IstreamRead | source/_generic/wclap-plugin.h:210-221 | the host is asked once, for at most 1024 bytes, and its answer returned; exactly the bytes taken land at the guest's buffer, nothing else moves |
| Streams.StreamBridge.OstreamWrite | source/_generic/wclap-plugin.h:222-230 | the host is offered once the first 1024 bytes at most of the guest's buffer, its answer is returned, and its stream grows by exactly the accepted prefix |
| Streams.StreamBridge.StateSave | source/_generic/wclap-plugin.h:1061-1071 | for any chunking the host has a prefix of the state; the save succeeds, with all of it, if and only if the host took something of every offer; the stream is unreachable afterwards |
| Streams.StreamBridge.StateLoad | source/_generic/wclap-plugin.h:1072-1082 | for any chunking and any room, what was loaded and what is left in the stream are the stream's bytes; the guest reaches the end or fills its room if and only if no read failed |
| Streams.StreamBridge.SaveThenLoad | source/_generic/wclap-plugin.h:1061-1082 | a save, then a load that saw the end or got as many bytes as were saved, restores the same state; with room for it both succeed whenever no host answer is a failure |
| Streams.SaveLoadIdentity | source/_generic/wclap-plugin.h:210-230 | the same as a law on traces: identity under every pair of chunkings through the 1024-byte buffer |
| Streams.ArrivedIsPrefix | source/_generic/wclap-plugin.h:210-230 | nothing is lost, repeated or reordered: what arrived is the prefix of that length |
| Streams.WriteAll | source/_generic/wclap-plugin.h:1187-1196 | the stream gets all of the buffer if and only if every offer is partly taken, and a prefix of it otherwise |
| Routing.StepInv | source/_generic/wclap-module-base.h:81-124 | creates, destroys, brackets, callbacks and guest stores keep contexts, list and plugins consistent |
| Routing.CallbackReachesItsPlugin | source/_generic/wclap-module-base.h:84-108 | over any run a callback through a struct in force for a live plugin reaches that plugin, and the struct is no other's |
| Routing.LiveIndicesDiffer | source/_generic/wclap-plugin.h:48-51 | live plugins have distinct list indices, however often indices are reused |
| Routing.PushGoesToCurrentCall | source/_generic/wclap-plugin.h:132-134 | a push goes to the current call's output list of the struct's plugin, or nowhere |
| Routing.AccessGoesToCurrentStream | source/_generic/wclap-plugin.h:210-230 | a read or write goes to the stream of the current load or save of the struct's plugin, or nowhere |
| Routing.NothingDeliveredOutsideCalls | source/_generic/wclap-plugin.h:372-373 | every delivery of a run happened inside the matching call of a live plugin, even through structs the guest kept too long |
| Deadlines.NotBeforeLimit | source/wclap-instance-wasmtime/wclap-instance-wasmtime.cpp:529-533 | with ticks at least 10 ms apart a call is not interrupted within its limit |
| Deadlines.ByLimitPlusTwenty | source/wclap-instance-wasmtime/wclap-instance-wasmtime.cpp:44-48 | with exact ticks it is interrupted by limit + 20 ms, counted from the call, or from one period before the first tick if that is later |
| Deadlines.ReentrantBound | source/wclap-instance-wasmtime/wclap-instance-wasmtime.h:502-504 | with n re-entrant calls, by (n + 1)(limit + 20) ms from there |
| Deadlines.ReentrantNotBefore | source/wclap-instance-wasmtime/wclap-instance-wasmtime.h:502-504 | and not within the limit from the last deadline set |
| Deadlines.TwentyIsTight | source/wclap-instance-wasmtime/wclap-instance-wasmtime.cpp:47 | the extra 20 ms are reached for every limit that is a multiple of the period |
| GroupErrors.ErrorStaysInitOnce | source/wclap-instance-wasmtime/wclap-instance-wasmtime.h:448-461 | in every interleaving an error never clears and `_initialize` is entered at most once |
| GroupErrors.EnteredInOrder | source/wclap-instance-wasmtime/wclap-instance-wasmtime.cpp:378-419 | `_initialize` is entered only before any initialisation has finished |
| GroupErrors.FirstErrorIsReported | source/wclap-instance-wasmtime/wclap-instance-wasmtime.h:306-335 | the step that brings the first error makes its message the reported one, and no other step makes an error |
| GroupErrors.MessageChangesIff | source/wclap-instance-wasmtime/wclap-instance-wasmtime.h:315-326 | the reported message changes in a step if and only if the step stores a different library error while no constant message is set |
| GroupErrors.FirstMessageStays | source/wclap-instance-wasmtime/wclap-instance-wasmtime.h:306-349 | when library errors do not overlap, the first message is reported ever after |
| GroupErrors.OverlapCanLoseFirst | source/wclap-instance-wasmtime/wclap-instance-wasmtime.h:315-326 | a run in which two overlap and the first message is lost |
| Lifecycle.Bridge.GlobalInit | source/wclap-bridge.cpp:20-35 | aborts if and only if the limit changes under an open handle; otherwise OK means an engine with that limit |
| Lifecycle.Bridge.GlobalDeinit | source/wclap-bridge.cpp:36-44 | aborts if and only if a handle is open; otherwise the engine is gone |
| Lifecycle.Bridge.Open | source/wclap-bridge.cpp:56-88 | a handle is counted exactly when it is handed out; the count is the number of open handles |
| Lifecycle.Bridge.Close | source/wclap-bridge.cpp:98-106 | the closed handle, and only it, is no longer open |
| Lifecycle.WclapVector.Grow | plugin/source/wclap-bridge-plugin.cpp:80-86 | reallocation moves the handles and closes none |
| Lifecycle.WclapVector.Clear | plugin/source/wclap-bridge-plugin.cpp:84-86 | each handle held is closed, once, and none stays open |
| Lifecycle.BridgePlugin.ScanWclapDirectories | plugin/source/wclap-bridge-plugin.cpp:90-110 | a null handle is passed on if and only if some file found does not load; otherwise the list holds each open handle exactly once, and a module with an error is closed at once |
| Lifecycle.OneUnreadableFile | plugin/source/wclap-bridge-plugin.cpp:98-100 | one unreadable file among the directories is enough for that |
| Lifecycle.BridgePlugin.ClapInit | plugin/source/wclap-bridge-plugin.cpp:162-176 | the first call initialises and scans, later ones only count and report success |
| Lifecycle.BridgePlugin.ClapDeinit | plugin/source/wclap-bridge-plugin.cpp:178-186 | never reaches the abort; the last balanced call leaves nothing open and no engine |
| Lifecycle.HoldsSize | source/wclap-bridge.cpp:84-85 | a list that holds each open handle once is as long as the active count |
| SemVer.PrecedenceIsTotalOrder | plugin/source/wclap-bridge-plugin.cpp:146-148 | version precedence (item 11 of Semantic Versioning 2.0.0) is a total order |
| SemVer.PrecedenceIff | plugin/source/wclap-bridge-plugin.cpp:146-148 | the comparison puts one version before another if and only if item 11 of Semantic Versioning 2.0.0, stated with strict orders only, does |
| SemVer.IdentifierIff | plugin/source/wclap-bridge-plugin.cpp:146-148 | pre-release identifiers compare as numbers or in ASCII order, numbers first |
| SemVer.BelowIff | plugin/source/wclap-bridge-plugin.cpp:142-148 | a missing version comes before every version, two versions by the precedence of item 11 |
| Scan.PluginFactory.ScanWclapPlugins | plugin/source/wclap-bridge-plugin.cpp:129-160 | the scan examines what is offered up to and including the first duplicate id; the list is one of the newest of each id examined, ids distinct, in order, a tie keeping the entry found first |
| Scan.PluginFactory.FoundAgain | plugin/source/wclap-bridge-plugin.cpp:136-152 | a duplicate is reported if and only if the id is listed, and then takes that entry's place exactly when it supersedes it; otherwise nothing changes |
| Scan.SupersedesIff | plugin/source/wclap-bridge-plugin.cpp:141-150 | an entry without a version always gives way; one with a version only to a newer one, never to an equal or missing one |
| Scan.EntriesAreOffered | plugin/source/wclap-bridge-plugin.cpp:130-157 | each entry is a descriptor offered by the module at its index |
| Scan.EntriesAreNewest | plugin/source/wclap-bridge-plugin.cpp:142-151 | no examined descriptor of an entry's id is newer, a missing version being the oldest |
| Scan.WholeOfferIsListedIff | plugin/source/wclap-bridge-plugin.cpp:154 | the list is the newest of everything offered if and only if each descriptor past the first duplicate is no newer than an examined one of its id |
| Scan.SecondPluginIsLost | plugin/source/wclap-bridge-plugin.cpp:154 | two modules share one id: the second's other plugin is never listed |
| Scan.PluginFactory.CreatePlugin | plugin/source/wclap-bridge-plugin.cpp:194-202 | null if and only if the id is not listed; otherwise the module at that entry's index is asked |

## Left out

- The arena (`MemoryArena`, `MemoryArenaPool`) and `IndexLookup` come from a library that is not part of this model. The
  arena is assumed to be a bump allocator with room for the call that hands out aligned, disjoint regions above its base
  and gives them all back when the scope ends; `retain` is assumed to use the first empty entry, or a new one.
- Struct padding is written as 0; the source leaves whatever the compiler puts there.
- The native layouts are those of a 64-bit little-endian host. The CLAP struct definitions are not part of this
  repository; `Layouts` lists their fields and proves the sizes and offsets from the widths.
- GuestThreads: `wtWasiThreadSpawn` reads the hook and its context one after the other; the model takes both in one
  snapshot, and assumes that the host does not close a module during another of its calls.
- Calls.Plugin.PluginProcess: assumes that each access fits into memory as a whole, that memory has at least 1024 bytes,
  that each host buffer has the length of the block, and that calls on one plugin do not nest. The guest's callbacks are
  pushes; its other callbacks change nothing the call reads, and streams and routing are modelled by themselves.
- Calls.Plugin.PluginProcess: `latency` and `constant_mask` are not copied back, as in the source; input events keep the
  `header.size` the host sent.
- Calls.OutputChannelReturned: speaks of guests that leave the output pointer tables alone; for any other guest
  CopyBack.CopyBackPorts says what is copied.
- Calls.Plugin.FlushEcho: the events are at least as long as their native structs; what comes back for a shorter one
  depends on the bytes after it, and Events.EchoIsIdentityIff says that it is never the event itself.
- Routing: arenas do not hand out memory that a struct in force occupies, guests do not overwrite the contexts they were
  given, a plugin is not destroyed inside its own call, and callbacks made while the guest still creates the plugin,
  before its index is written, are not covered.
- HostTable: the audio instance a plugin may start never registers host functions, so no claim is made for its table.
- Deadlines.ReentrantBound: host callbacks take no time of their own.
- GroupErrors: the holder of the group lock does not initialise again from within `_initialize`.
- Lifecycle: sequential runs in which the plugin is the only user of its bridge; nothing is promised after a crash.
- Scan.PluginFactory.ScanWclapPlugins: versions are already parsed; a version string the parser rejects throws out
  of the scan.
- Wasmtime itself (compiling, linking, traps, WASI configuration), the GUI and webview forwarding, path mapping, file
  serving, directory discovery, extension getters and the factory proxies: foreign calls, or members settled by reading
  one branch.
