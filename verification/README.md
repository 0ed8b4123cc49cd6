# FarBus in Dafny

FarBus shares USB devices between machines over an authenticated, pipelined protocol. This project
models its hard core and proves what that core is for:

- **The server** (`Server.dfy`): any number of sessions over one shared state, as a step system. One
  step is one section executed under a lock, one access to a presence flag, the passing of time, a
  hotplug refresh, or progress of a URB task; `Server.Apply` is the step function and `Server.Run` a
  run. `ServerSession` proves what each step keeps of one session, `ServerWorld` what it keeps of the
  shared state, `ServerRuns`, `ServerResults`, `ServerTrace`, `LateCompletion`, `LeaseRuns`,
  `Provenance`, `Truthful` and `TruthfulRuns` what holds over whole runs, `ServerProgress` that nothing
  stands still. The objects themselves
  (`InventoryClass.DeviceInventory`, `Lease.LeaseBook`, `Identity.PairingPin`,
  `ServerStates.ServerState`) are classes proved against the functions the step system uses.
- **The client pump** (`Pump.dfy`), the pump **composed with a server session** over two FIFO streams
  (`Composed.dfy`), such connections as parts of one run of the server (`Connections.dfy`), and the
  client's public calls over them (`Calls.dfy`).
- **The wire codec and framed reader** (`Codec.dfy`, `CodecMethods.dfy`, `Frame.dfy`), and the wire
  format position by position (`WireLayout.dfy`) and what is wrong with a payload (`PayloadErrors.dfy`).
- **The USB/IP bridge** (`Usbip.dfy`, `Forward.dfy`, `Devlist.dfy`, `Recovery.dfy`), and the whole way
  from a USB/IP submission to the bytes of its reply (`EndToEnd.dfy`).

`Streams.dfy` (items one after the other on a byte stream) and `Tally.dfy` (entries of a log counted by
the number they bear) serve several of them.

The results that span several parts:

- `LateCompletion.LateCompletionsAreSafe`: unplug, replug at the same port, late completion. Whatever
  the interleaving, a completion is a refusal, and the submission lacked a right; or the failure -1, and
  the device was gone or not served on this platform; or exactly what the completer, the USB library or
  the emulator answered for a device that was present, under one id and one key, in every state from the
  taking of its presence flag to the step that settled the result. It rests on ids never coming back,
  flags going one way, and attach and refresh nesting the devices lock outside the leases lock.
- `LeaseRuns.LeaseLostIff` and `LeaseRuns.LeaseGainedIff`: the only occasions on which a lease ends (a
  detach by its owner, the end of a session of its owner, the removal of its device) or begins.
- `Composed.AnswersReachTheirCallers` and `Composed.QueueIsWhatIsInTransit`: the pump pairs control
  replies with callers by queue order alone; this is right because the server's reader answers control
  requests in order and only URB completions overtake them.
- `TruthfulRuns.RepliesAreTrue`: what a reply says (a token issued, a lease granted, a device listed or
  missing, a token refused) was true at the step that settled it.
- `ServerResults.RequestsAreConserved`: every request a live session has read is in exactly one place:
  being handled, in one task, or answered once.
- `EndToEnd.ForwardedData`: bridge, recovery, client, server and environment together. What a USB/IP
  client reads as the reply to a submission conveys the completion that a session of the server settled
  for that very submission, in the first attempt or, after the device was leased again, in the second;
  or it is the failure -1 without data.
- `Calls.CallsTellTheTruth` and `Calls.OnlyDetachIsSurprised`: what each public call of the client
  returns was so at a step of the server, and no call but `detach` can find its reply unexpected;
  `detach` does exactly when the server answers with an error, which means a refused token.
- `Codec.DecodeEncode`, `Codec.EncodeDecode` and `WireLayout.FrameLaid`: the codec is a bijection on what
  it accepts, and every field of every message stands where the protocol puts it.
- `Forward.ForwardedOnce`: every USB/IP command accepted is answered once, the output parses, and all
  of it is written before the device is detached.

Hypotheses, where the code needs them: the id counter has not reached 2^32 - 1 and the devices a server
starts with have distinct keys and ids below that limit (`ServerRuns.ServerRun`); a new bearer token
differs from those issued before (`Server.Ready`); custom completers and the USB library answer with the submission's sequence
number and at most 65,536 bytes (`Urb.Fits`); a client reuses no sequence number that is in flight
(`Composed.Unused`). Where a property holds only under a condition, the condition is proved exact:
`InventoryInvariant.RefreshConsistentIff`, `InventoryNew.NewConsistentIff`,
`InventoryRefresh.AddedOnceIff`, `Composed.SubmitMatchesIff`, `Devlist.DevlistReadIff`,
`Devlist.EchoIff`, `Recovery.BackoffIff`, `Usbip.SubmitEncodesIff`, `Urb.EmulatorExceedsIff`,
`ServerResults.LeaseSurvivesEndIff`, `WireLayout.EncodesIff`. Runs show what goes wrong outside such a condition:
`TwoPrincipals.EarlierLeaseSurvives`, `ReusedNumber.ReusedNumberMisdelivers`,
`Saturation.LastIdIsShared` and `Saturation.LastIdComesBack`.

Where the code and its documentation differ, the code is modelled: `detach` documents framing errors
only but returns `Unexpected` for a refused token (`Calls.OnlyDetachIsSurprised`). The bridge's answer
to an unlink says nothing about it: it is zero for a rejected one too (`EndToEnd.UnlinkStatusIsZero`).

Instants and sleeps are counted in milliseconds, strings are byte sequences that are valid UTF-8,
machine integers are subset types and saturation is written out. Random PIN hashes and tokens, the
clock, scans of the host's devices, completions of real devices and the answers of the network are
parameters of the steps.

`dafny verify dfyconfig.toml` checks everything.

## Model

| member | source | states |
|---|---|---|
| `Codec.DecodeEncode` | crates/farbus-protocol/src/lib.rs:225-358 | for each of the 14 message kinds, what `encode` accepts decodes to the same message |
| `Codec.EncodeDecode` | crates/farbus-protocol/src/lib.rs:365-596 | whatever byte string `decode` accepts is exactly the encoding of the message it yields |
| `Codec.ManyBack` | crates/farbus-protocol/src/lib.rs:254-285 | a counted list of items that read back reads back whole, whatever follows |
| `Codec.ManyCanonical` | crates/farbus-protocol/src/lib.rs:445-491 | a counted list that is read consists of exactly the bytes of the items it yields |
| `Codec.BodyBack` | crates/farbus-protocol/src/lib.rs:400-596 | every payload is parsed back to its message with nothing left |
| `Codec.BodyCanonical` | crates/farbus-protocol/src/lib.rs:400-596 | a payload parsed to its end is the payload of the message, whose fields all fit |
| `WireLayout.BigEndian` | crates/farbus-protocol/src/lib.rs:616-635 | numbers are big-endian and signed ones in two's complement |
| `WireLayout.FrameLaid` | crates/farbus-protocol/src/lib.rs:225-358 | in every frame the magic, version 2, the type code, the length and each field of the message stand at their positions, device records and interfaces included, and nothing follows |
| `WireLayout.EncodesIff` | crates/farbus-protocol/src/lib.rs:225-358 | a message encodes if and only if its texts and lists are within the range of their length fields and its payload has at most 65,600 bytes; which error it gets otherwise |
| `WireLayout.DecodeRefuses` | crates/farbus-protocol/src/lib.rs:365-398 | which error a frame is refused with before its payload is looked at, in the order of the checks |
| `PayloadErrors.LengthIsExact` | crates/farbus-protocol/src/lib.rs:400-614 | a payload that decodes is refused as truncated when cut short anywhere, and as invalid with any bytes added |
| `PayloadErrors.BadFieldsStay` | crates/farbus-protocol/src/lib.rs:400-641 | an error other than running out of bytes stands whatever follows |
| `CodecMethods.Cursor.Take` | crates/farbus-protocol/src/lib.rs:607-614 | takes the next bytes or fails as truncated, leaving the rest |
| `CodecMethods.Cursor.ShortString` | crates/farbus-protocol/src/lib.rs:637-641 | reads a length-prefixed UTF-8 string, rejecting invalid text |
| `Utf8.ValidIff` | crates/farbus-protocol/src/lib.rs:637-647 | a byte string is accepted as text if and only if it is the UTF-8 encoding of a list of Unicode scalar values |
| `CodecMethods.Cursor.Devices` | crates/farbus-protocol/src/lib.rs:445-491 | the nested loops read the counted device list |
| `CodecMethods.ParseMessage` | crates/farbus-protocol/src/lib.rs:400-596 | the cursor-based parser computes the payload parser, errors included |
| `CodecMethods.DecodeFrame` | crates/farbus-protocol/src/lib.rs:365-398 | header checks in order, then the payload: the same result as the decoder |
| `CodecMethods.Payload.PutDevices` | crates/farbus-protocol/src/lib.rs:254-285 | the nested loops append the devices or stop at the first field that does not fit |
| `CodecMethods.EncodeMessage` | crates/farbus-protocol/src/lib.rs:225-358 | the buffer-appending encoder computes the encoder, errors included |
| `Frame.NextRead` | crates/farbus-core/src/frame.rs:33-40 | a read yields a non-empty prefix of what is pending, within the size asked for, or an end, an error or a cancellation |
| `Frame.ReadCallConserves` | crates/farbus-core/src/frame.rs:23-42 | a call keeps buffer plus pending bytes, takes out exactly one frame when it returns a message, and never buffers past the current frame |
| `Frame.InterruptionTold` | crates/farbus-core/src/frame.rs:33-40 | an interrupted call keeps buffer and stream and says whether the stream ended, the read failed or the call was dropped |
| `Frame.Reassembly` | crates/farbus-core/src/frame.rs:23-82 | for any messages, read sizes, cancellations and early ends of file the reader yields exactly the messages sent, in order |
| `Frame.DecodedPrefix` | crates/farbus-core/src/frame.rs:61-82 | the only prefix of a byte string that can decode is the one its header declares |
| `Frame.OneShotLosesNothing` | crates/farbus-core/src/frame.rs:90-93 | a fresh reader per message leaves exactly the remaining frames in the stream |
| `Frame.FramedReader.TryDecodeFrame` | crates/farbus-core/src/frame.rs:61-82 | drains one complete frame from the buffer and decodes it, or leaves the buffer alone |
| `Frame.FramedReader.Needed` | crates/farbus-core/src/frame.rs:44-59 | how much to read: up to the header's end, then up to the frame's end |
| `Frame.FramedReader.ReadMessage` | crates/farbus-core/src/frame.rs:23-42 | the loop on the object does what the function of reads does to buffer and stream |
| `Lease.GrantExcludesOthers` | crates/farbus-core/src/lease.rs:27-53 | until its holder gives a granted device back, every other peer is refused, told who holds it, and cannot release it; afterwards it can be granted again |
| `Lease.ReleaseUndoesGrant` | crates/farbus-core/src/lease.rs:27-53 | giving back what was granted free restores every lease, and giving it back again fails |
| `Lease.LeaseBook.Acquire` | crates/farbus-core/src/lease.rs:27-36 | a grant exactly when the device is free or already the peer's; the peer then owns it, a refusal names the owner and changes nothing, no existing lease changes |
| `Lease.LeaseBook.Release` | crates/farbus-core/src/lease.rs:44-53 | a release exactly when the peer owns the device, which is then free; a failure changes nothing and says whether there is an owner and who; no other lease changes |
| `Lease.LeaseBook.ReleaseAll` | crates/farbus-core/src/lease.rs:61-63 | drops exactly the leases of the peer, and every other keeps its owner |
| `Lease.LeaseBook.ReleaseDevices` | crates/farbus-core/src/lease.rs:66-69 | drops exactly the leases of the devices named, and every other keeps its owner |
| `Identity.ConstantTimeEq` | crates/farbus-core/src/identity.rs:56-65 | the xor/or accumulator is zero exactly for equal byte strings |
| `Identity.PinBudget` | crates/farbus-core/src/identity.rs:68-118 | over any run each PIN issued is compared at most five times and accepted at most once |
| `Identity.AcceptedPinIsReplaced` | crates/farbus-core/src/session.rs:64-76 | an accepted PIN is replaced by the operation that accepted it and never compared again |
| `Identity.LockoutAbsorbs` | crates/farbus-core/src/identity.rs:97-118 | after five failures no operation changes the PIN or compares a candidate |
| `Identity.NoSuccessAfterLockout` | crates/farbus-core/src/session.rs:57-76 | once the current PIN has failed five times, no later candidate succeeds |
| `Identity.AcceptedIff` | crates/farbus-core/src/session.rs:64-76 | a candidate is accepted if and only if it matches a PIN that is unexpired, unused and has fewer than five failures; what the PIN becomes in each case |
| `Identity.PinLifetime` | crates/farbus-core/src/identity.rs:78-103 | a PIN is accepted exactly within two minutes of its issue and replaced exactly after |
| `Identity.PairingPin.ReissueIfExpired` | crates/farbus-core/src/identity.rs:97-103 | replaces the PIN exactly when it is expired and not locked out |
| `Identity.PairingPin.IsValid` | crates/farbus-core/src/identity.rs:107-118 | accepts exactly a matching, unexpired, unused PIN with fewer than five failures, and counts a mismatch it compares |
| `Inventory.Ascending` | crates/farbus-core/src/usb.rs:82-84 | iteration in id order: the elements of the set, strictly ascending |
| `Inventory.TableIsAssigned` | crates/farbus-core/src/usb.rs:106-120 | a scan adds exactly its new keys to the key table, keeps known ids, and moves the counter by their number, saturating |
| `Inventory.HostsAreAssigned` | crates/farbus-core/src/usb.rs:106-120 | each scanned device is listed under the id of its key |
| `Inventory.FreshIds` | crates/farbus-core/src/usb.rs:149-153 | with room, new keys get distinct ids below the counter |
| `Inventory.SaturatedId` | crates/farbus-core/src/usb.rs:149-153 | without room, some device gets the largest id and the counter stays there |
| `InventoryInvariant.RefreshConsistentIff` | crates/farbus-core/src/usb.rs:96-153 | a refresh keeps the inventory invariant if and only if the counter has room for the scan's new keys |
| `InventoryNew.NewConsistentIff` | crates/farbus-core/src/usb.rs:55-79 | a new inventory satisfies the invariant if and only if its devices have distinct keys and none is given the id 2^32 - 1, which the ids asked for decide |
| `InventoryNew.StoredAsGiven` | crates/farbus-core/src/usb.rs:55-79 | each device a server starts with is stored as given, under the id it asks for if no earlier one has it |
| `InventoryRefresh.DeltaIsDifference` | crates/farbus-core/src/usb.rs:122-146 | `added` and `removed` are exactly the difference between the inventories, and `removed` exactly the host devices not scanned |
| `InventoryRefresh.RemovedUnlessShown` | crates/farbus-core/src/usb.rs:106-135 | a refresh removes a device exactly if it is the host's and the scan shows none with its bus id, vendor and product |
| `InventoryRefresh.KeysAfter` | crates/farbus-core/src/usb.rs:106-141 | which keys are known after a refresh, and that those known before keep their ids |
| `InventoryRefresh.StoredAsScanned` | crates/farbus-core/src/usb.rs:136-141 | after a refresh a scanned device is stored as its last record in the scan, under the id of its key |
| `InventoryRefresh.OthersAsBefore` | crates/farbus-core/src/usb.rs:122-135 | a device the scan does not show stays as it was if it is emulated and goes if it is the host's |
| `InventoryRefresh.AddedOnceIff` | crates/farbus-core/src/usb.rs:116-118 | no id is listed twice in `added` if and only if the scan shows no new key twice |
| `InventoryRefresh.SameKeysSameOutcome` | crates/farbus-core/src/usb.rs:96-147 | two scans of the same keys give the same `removed`, the same set of `added` ids, the same present ids and the same counter |
| `InventoryRefresh.PermutationSameKeys` | crates/farbus-core/src/usb.rs:96-147 | a permuted scan has the same keys, so the previous row applies |
| `InventoryRefresh.RefreshIdempotent` | crates/farbus-core/src/usb.rs:96-147 | a repeated scan changes nothing and reports nothing |
| `InventoryRefresh.RefreshFlagsFall` | crates/farbus-core/src/usb.rs:132-140 | a refresh only lowers existing flags and only appends new ones |
| `InventoryRefresh.RunConsistent` | crates/farbus-core/src/usb.rs:96-153 | through any sequence of refreshes without saturation the invariant holds and no retired id returns |
| `InventoryRefresh.RetiredStaysAway` | crates/farbus-core/src/usb.rs:149-153 | an id once issued and now absent is not given to anything scanned later |
| `Saturation.LastIdReached` | crates/farbus-core/src/usb.rs:62-77 | a server that starts with one device asking for the id 2^32 - 2 has a consistent inventory whose counter is at its end |
| `Saturation.LastIdIsShared` | crates/farbus-core/src/usb.rs:106-153 | from any consistent inventory with the counter at its end, two refreshes after which two keys of scanned devices share the last id, only one of the devices is listed, and the flag raised for the other vouches for it |
| `Saturation.LastIdComesBack` | crates/farbus-core/src/usb.rs:96-153 | from the same inventories, three refreshes of which the first lists a device under the last id, the second reports the id as removed, and the third gives it to another key |
| `InventoryClass.DeviceInventory.AddAll` | crates/farbus-core/src/usb.rs:62-77 | the constructor loop builds the inventory of module `Inventory` |
| `InventoryClass.DeviceInventory.Snapshot` | crates/farbus-core/src/usb.rs:82-84 | the present devices in id order |
| `InventoryClass.DeviceInventory.Get` | crates/farbus-core/src/usb.rs:87-89 | in a consistent inventory, the lookup by id finds exactly what a search of the snapshot by carried id finds |
| `InventoryClass.DeviceInventory.PresenceToken` | crates/farbus-core/src/usb.rs:92-94 | the shared flag of an id that has one |
| `InventoryClass.DeviceInventory.AssignIds` | crates/farbus-core/src/usb.rs:106-120 | the first loop of a refresh |
| `InventoryClass.DeviceInventory.Missing` | crates/farbus-core/src/usb.rs:122-127 | the host ids not scanned, in ascending order |
| `InventoryClass.DeviceInventory.RetireAll` | crates/farbus-core/src/usb.rs:128-135 | the removal loop forgets keys and lowers shared flags for exactly the removed ids |
| `InventoryClass.DeviceInventory.InstallAll` | crates/farbus-core/src/usb.rs:136-141 | the last loop enters the scanned devices, with new flags only where an id has none |
| `InventoryClass.DeviceInventory.RefreshHosts` | crates/farbus-core/src/usb.rs:96-147 | the three loops together compute the refresh and its delta, flags never being lost |
| `InventoryClass.RetireListIsRetire` | crates/farbus-core/src/usb.rs:128-135 | retiring the ids one at a time amounts to retiring the set |
| `Urb.EmulatorComplete` | crates/farbus-core/src/urb.rs:5-73 | own sequence number, at most 65,536 bytes, stalls exactly isochronous transfers, bulk reads get the length asked for |
| `Urb.EmulatorExceedsIff` | crates/farbus-core/src/urb.rs:18-52 | exactly when the emulator answers with more than was requested |
| `Urb.EmulatorAnswers` | crates/farbus-core/src/urb.rs:18-91 | the emulator's data byte by byte: whose descriptor, the key report, the ramp and its length, and nothing otherwise |
| `Urb.FillRamp` | crates/farbus-core/src/urb.rs:58-60 | the fill loop writes the ramp modulo 251 |
| `Urb.BulkComplete` | crates/farbus-core/src/urb.rs:54-73 | the imperative bulk branch computes the emulator's completion |
| `ServerSession.StepShaped` | crates/farbus-core/src/session.rs:133-376 | a step reads one message, goes on, spawns one task, sends one reply, works in or sends from one task, or halts |
| `ServerSession.SessionStepOk` | crates/farbus-core/src/session.rs:133-383 | every step keeps conservation, reply order and the balance of permits |
| `ServerSession.ApplySessionOk` | crates/farbus-core/src/session.rs:133-383 | a session keeps its invariant whatever the others do |
| `ServerSession.RunSessionsOk` | crates/farbus-core/src/session.rs:133-383 | so does every session in every run |
| `ServerResults.RequestsAreConserved` | crates/farbus-core/src/session.rs:288-350 | each request read is handled, in one task, or answered once: exactly one while the session lives, at most one afterwards |
| `ServerResults.DrainedIsAnswered` | crates/farbus-core/src/session.rs:133-145 | a session that ends because its client stopped sending has answered every request once |
| `ServerResults.RepliesAnswerRequests` | crates/farbus-core/src/session.rs:148-375 | each reply answers a request of its session; a completion bears its submission's sequence number and at most 65,536 bytes |
| `ServerResults.ControlRepliesInOrder` | crates/farbus-core/src/session.rs:148-287 | the k-th control reply answers the k-th control request, however completions interleave |
| `ServerResults.AtMost64Execute` | crates/farbus-core/src/session.rs:334-349 | at most 64 URBs of a session execute; permits and executing tasks add up to 64 |
| `ServerResults.LeaseSurvivesEndIff` | crates/farbus-core/src/session.rs:378-383 | a lease a session asked for and still held at its end survives the end if and only if the session's principal is by then not the lease's owner |
| `ServerResults.EndedSessionHoldsNoLease` | crates/farbus-core/src/session.rs:378-383 | so after the end of a session that authenticated under one fingerprint, no lease it asked for remains its own |
| `TwoPrincipals.EarlierLeaseSurvives` | crates/farbus-core/src/session.rs:378-383 | a run in which a session attaches under one fingerprint, pairs again under another and ends, and the first lease stays |
| `ServerResults.ServerPinBudget` | crates/farbus-core/src/session.rs:57-76 | over any server run each PIN is compared at most five times and accepted at most once |
| `ServerResults.AcceptedInHistory` | crates/farbus-core/src/session.rs:164-181 | a pairing goes on to issue a token exactly when the PIN operation of that step accepts |
| `ServerWorld.InventoryKept` | crates/farbus-core/src/usb.rs:96-153 | every step keeps the inventory invariant, lowers flags only, and brings no retired id back |
| `ServerWorld.LocksKept` | crates/farbus-core/src/session.rs:102-109 | every step keeps leased devices present, or listed by the refresh that removed them and still holds the lock |
| `ServerRuns.RunFlagsFall` | crates/farbus-core/src/usb.rs:132-140 | in every run flags go one way and keep the id and key they were made for |
| `ServerRuns.RunWorldOk` | crates/farbus-core/src/session.rs:102-109 | the shared invariants hold in every state of every run |
| `ServerRuns.LeasedIsPresent` | crates/farbus-core/src/session.rs:229-250 | in every run a leased device is present, except while the refresh that removed it holds the lock |
| `ServerRuns.RetiredNeverLeased` | crates/farbus-core/src/usb.rs:149-153 | an id once removed is never present nor leased again |
| `ServerRuns.OwnerChangesThroughRelease` | crates/farbus-core/src/lease.rs:27-69 | between two different owners of a device there is a state in which nobody owns it |
| `LeaseRuns.LeaseLostIff` | crates/farbus-core/src/session.rs:254-279 | in every run a lease ends in a step if and only if the step serves a detach request of its owner, ends a session of its owner, or finishes the refresh that removed the device |
| `LeaseRuns.LeaseGainedIff` | crates/farbus-core/src/session.rs:228-250 | a free device becomes leased in a step if and only if the step serves an attach request for it, and then to that session's principal |
| `LeaseRuns.UnpluggedIff` | crates/farbus-core/src/session.rs:102-109 | the refresh that finishes releases a device if and only if it removed it |
| `ServerProgress.ClockAndTokens` | crates/farbus-core/src/session.rs:168-176 | time passes only by itself; a step changes the token table only by issuing a token, for 24 hours |
| `ServerProgress.RunNamed` | crates/farbus-core/src/session.rs:148-182 | the peer of a session is the one its last hello named, and lists, attaches, detaches and pairings are answered to a principal of that name |
| `ServerProgress.EndsOnlyThen` | crates/farbus-core/src/session.rs:139-145 | a session stops sending only when its connection fails, or once its client has stopped sending and its last task is through |
| `ServerProgress.ReaderAdvances` | crates/farbus-core/src/session.rs:133-376 | the reader waits only for the devices lock, a free slot or a fresh token, and answers a request or hands it to a task within five sections |
| `ServerProgress.TaskAdvances` | crates/farbus-core/src/session.rs:398-451 | a task waits only for the devices lock or its completer, and otherwise comes nearer to sending its result |
| `ServerRuns.RaisedFlagVouches` | crates/farbus-core/src/usb.rs:92-94 | a flag taken from the inventory and found raised later vouches for the device in every state in between |
| `ServerRuns.EmulatedStays` | crates/farbus-core/src/usb.rs:97-102 | emulated devices are never removed |
| `ServerTrace.SectionTraced` | crates/farbus-core/src/session.rs:288-333 | the checks of a submission happen in order, each true at its own step |
| `Inventory.SnapshotFind` | crates/farbus-core/src/session.rs:416-420 | the search of a snapshot by carried id finds the device present under that id |
| `ServerTrace.ReturnsGenuine` | crates/farbus-core/src/session.rs:398-451 | a task returns the failure exactly when its device is gone or, at the lookup, a host device off Linux; otherwise what its completer answered or what the emulator answers |
| `LateCompletion.ExecutedUrbsWereChecked` | crates/farbus-core/src/session.rs:288-323 | every URB with a task passed a check at which its principal owned a token not yet expired, and then one at which the principal leased the device |
| `LateCompletion.LateCompletionsAreSafe` | crates/farbus-core/src/session.rs:318-451 | every completion sent is -13 and the submission lacked a principal, an unexpired token or the lease; or -1 without data and the device was gone or not served on this platform; or exactly what the completer returned in a step of the task, or the emulator answers, for a device present under the same id and key from the step that took its flag to the step that settled the result |
| `LateCompletion.RunTraced` | crates/farbus-core/src/session.rs:288-451 | the invariant behind the two rows above, for every session in every run: the checks made, and where what each task holds came from |
| `Provenance.TokenLastsADay` | crates/farbus-core/src/session.rs:168-176 | an issued token stays its client's in every later state and expires 24 hours after it was issued |
| `Provenance.PrincipalsWerePaired` | crates/farbus-core/src/session.rs:164-181 | every principal holds a token that was issued to it for a pairing request whose PIN was accepted, in one session, which had announced that fingerprint |
| `Provenance.LeaseOwnersWerePaired` | crates/farbus-core/src/session.rs:215-249 | the same of every lease owner |
| `Truthful.ListShows` | crates/farbus-core/src/session.rs:84-96 | a device list holds exactly the exported devices present |
| `Truthful.SectionReplies` | crates/farbus-core/src/session.rs:148-375 | whatever a section answers is true of the state it ran in |
| `TruthfulRuns.RepliesAreTrue` | crates/farbus-core/src/session.rs:148-375 | in every run each reply was true at the step of its own session that settled it, or came from a task, and what needs a token came after a step that found it valid; a device list names each device on offer once, in id order |
| `TruthfulRuns.RefusalsAreFounded` | crates/farbus-core/src/session.rs:288-323 | a submission refused by the server had, at some step of its handling, no principal, no lease for its principal, or only expired tokens of its principal |
| `TruthfulRuns.RunInformed` | crates/farbus-core/src/session.rs:229-250 | whatever others do, the device a reader is about to lease is still offered under the bus id it looked up |
| `ServerStates.ServerState.constructor` | crates/farbus-core/src/session.rs:38-50 | the shared state a run starts from |
| `ServerStates.ServerState.RenewExpiredPin` | crates/farbus-core/src/session.rs:57-62 | the renewal step, announcing the PIN exactly when it issues one |
| `ServerStates.ServerState.ValidatePairingPin` | crates/farbus-core/src/session.rs:64-76 | when a candidate succeeds, what the PIN becomes, and what is announced |
| `ServerStates.ServerState.DeviceList` | crates/farbus-core/src/session.rs:84-96 | the records of the exported devices in id order |
| `ServerStates.ServerState.RefreshHostDevices` | crates/farbus-core/src/session.rs:102-109 | the two steps of a refresh with nothing in between, and its delta |
| `Pump.OnCommandOnce` | crates/farbus-core/src/client.rs:388-410 | taking a command keeps every caller waiting in one place or resolved once, reused sequence numbers and failed writes included |
| `Pump.OnMessageOnce` | crates/farbus-core/src/client.rs:417-438 | so does a message from the server, expected or not |
| `Pump.CallerSeesOne` | crates/farbus-core/src/client.rs:134-154 | whenever the pump stops or is aborted a caller was resolved once or sees its channel closed, never both |
| `Pump.CommandTells` | crates/farbus-core/src/client.rs:388-410 | taking a command tells nobody anything, but a reused number closes the channel of the caller it displaces and a failed write is reported to the control caller who has waited longest |
| `Pump.LoopStops` | crates/farbus-core/src/client.rs:382-441 | the loop goes on through messages and written commands and ends with the end of the commands, a failed read or a failed write |
| `Pump.ClientPump.HandleCommand` | crates/farbus-core/src/client.rs:388-410 | the branch for a command, on the object's maps and queue |
| `Pump.ClientPump.HandleMessage` | crates/farbus-core/src/client.rs:417-438 | the branch for a message |
| `Pump.ClientPump.Shutdown` | crates/farbus-core/src/client.rs:443-451 | the three drain loops resolve everyone still waiting as closed and nobody else |
| `Pump.ClientPump.RunPump` | crates/farbus-core/src/client.rs:372-452 | over any events every command taken is resolved exactly once and nobody is left waiting |
| `Composed.SubmitMatchesIff` | crates/farbus-core/src/client.rs:398-403 | a submission keeps the pending URBs matched if and only if its sequence number is not in flight |
| `ReusedNumber.ReusedNumberMisdelivers` | crates/farbus-core/src/client.rs:398-403 | a trace in which a number in flight is reused and the completion of the first submission reaches the caller of the second |
| `Composed.UnlinkMatchesIff` | crates/farbus-core/src/client.rs:404-409 | the same for unlinks |
| `Composed.HeadOfQueue` | crates/farbus-core/src/client.rs:428-437 | the next control reply answers the request of the caller at the head of the queue |
| `Composed.NextOk` | crates/farbus-core/src/client.rs:382-441 | every step of client or server keeps the matching between the two ends |
| `Composed.AnswersReachTheirCallers` | crates/farbus-core/src/client.rs:372-452 | in every interleaving a caller that gets an answer gets the reply to its own message |
| `Composed.ConsumedAreHanded` | crates/farbus-core/src/client.rs:412-438 | the converse: every reply consumed was handed to the caller it answers, and while the pump runs nobody is told of a failure |
| `Composed.QueueIsWhatIsInTransit` | crates/farbus-core/src/client.rs:388-438 | the queue of control callers is the control replies in transit followed by the requests not yet answered |
| `Connections.ConnectionContinuesRun` | crates/farbus-core/src/client.rs:104-154 | every interleaving on a connection opened in a state of a server run continues that run, so what holds of all runs holds of connections |
| `Connections.HandedReply` | crates/farbus-core/src/client.rs:412-438 | what a caller is handed is the one reply its session ever gave to the very request the caller wrote |
| `Calls.OnlyDetachIsSurprised` | crates/farbus-core/src/client.rs:177-369 | in every interleaving a call finds its reply unexpected if and only if it is a detach answered by an error |
| `Calls.UnansweredCalls` | crates/farbus-core/src/client.rs:177-369 | a call whose write failed reports a frame error, one that gets no answer a closed connection |
| `Calls.CallsTellTheTruth` | crates/farbus-core/src/client.rs:177-369 | what each call returns on an answer was so at a step of its session: token issued or PIN not good, list exact, device leased under the bus id returned or not to be had, lease given back, unlink zero exactly for the lease holder, completion held by the task or refused for want of a right; lists, attaches and detaches succeed only after a valid token check |
| `Usbip.CmdSubmitRoundTrip` | crates/farbus-protocol/src/usbip.rs:114-157 | decoding undoes encoding, whatever follows the header |
| `Usbip.CmdSubmitCanonical` | crates/farbus-protocol/src/usbip.rs:114-157 | a 48-byte header with the command word is the encoding of what it decodes to |
| `Usbip.RetSubmitRoundTrip` | crates/farbus-protocol/src/usbip.rs:159-202 | decoding undoes encoding |
| `Usbip.RetSubmitCanonical` | crates/farbus-protocol/src/usbip.rs:159-202 | encoding undoes decoding |
| `Usbip.CmdUnlinkRoundTrip` | crates/farbus-protocol/src/usbip.rs:204-222 | an unlink as a USB/IP client sends it is decoded to itself |
| `Usbip.RetUnlinkRoundTrip` | crates/farbus-protocol/src/usbip.rs:224-237 | an unlink reply is read back by a USB/IP client |
| `Usbip.CmdSubmitLaid` | crates/farbus-protocol/src/usbip.rs:114-157 | command word 1 and the fields of CMD_SUBMIT at their byte positions |
| `Usbip.RetSubmitLaid` | crates/farbus-protocol/src/usbip.rs:159-202 | command word 3 and the fields of RET_SUBMIT at their byte positions |
| `Usbip.CmdUnlinkLaid` | crates/farbus-protocol/src/usbip.rs:204-222 | command word 2 and the fields of CMD_UNLINK at their byte positions, then zeros |
| `Usbip.RetUnlinkLaid` | crates/farbus-protocol/src/usbip.rs:224-237 | command word 4 and the fields of RET_UNLINK at their byte positions, then zeros |
| `Usbip.SubmissionKeepsPayload` | crates/farbus-protocol/src/usbip.rs:243-262 | the submission carries exactly the setup bytes (control) and payload of the command, its length, device, endpoint and sequence number, and the transfer type guessed from endpoint and length |
| `Usbip.SubmitEncodesIff` | crates/farbus-protocol/src/lib.rs:307-320 | a submission encodes if and only if its data leaves room for the 18 bytes before it |
| `Usbip.CompletionEncodesIff` | crates/farbus-protocol/src/lib.rs:321-331 | a completion encodes if and only if its data leaves room for the 12 bytes before it |
| `Usbip.CappedSubmitEncodes` | crates/farbus-core/src/usbip_forward.rs:290-306 | every USB/IP submission within the 65,536-byte cap becomes a FarBus submission that encodes |
| `Usbip.CappedCompletionTravels` | crates/farbus-protocol/src/lib.rs:321-345 | every completion within the data limit encodes and decodes to itself |
| `Forward.SplitOfStream` | crates/farbus-core/src/usbip_forward.rs:249-299 | any list of acceptable commands is split back into itself, whatever follows |
| `Forward.AcceptedAsEncoded` | crates/farbus-core/src/usbip_forward.rs:249-299 | what is accepted respects the cap, and a submission is accepted only as its own encoding |
| `Forward.ReadNext` | crates/farbus-core/src/usbip_forward.rs:250-299 | one turn of the reader: header, dispatch, cap, payload |
| `Forward.ReadCommands` | crates/farbus-core/src/usbip_forward.rs:249-299 | the reader loop accepts exactly the commands of the stream up to where it stops |
| `Forward.RepliesParse` | crates/farbus-core/src/usbip_forward.rs:326-342 | replies in any order are read back uniquely by a client that knows its requests' directions |
| `Forward.ForwardedOnce` | crates/farbus-core/src/usbip_forward.rs:233-349 | in every interleaving the output parses into replies that answer their commands, none twice; once detached every accepted command has its reply written |
| `Devlist.Padded` | crates/farbus-core/src/usbip_proxy.rs:12-18 | exactly n bytes, the last of them NUL |
| `Devlist.BusNumberOf` | crates/farbus-core/src/usbip_proxy.rs:29-35 | a bus id that starts with a decimal number and a dash names that bus |
| `Devlist.DeviceHeader` | crates/farbus-core/src/usbip_proxy.rs:22-56 | 312 bytes, the last of which is the interface count |
| `Devlist.NumbersAt` | crates/farbus-core/src/usbip_proxy.rs:36-47 | the six numbers of a record are bus number, id, speed code, vendor, product and version 0x0100 |
| `Devlist.RecordReadBack` | crates/farbus-core/src/usbip_proxy.rs:22-70 | a record with at most 255 interfaces is read back whole, whatever follows, and every field of it, interfaces included, is the device's |
| `Devlist.DevlistReadIff` | crates/farbus-core/src/usbip_proxy.rs:98-109 | a client driven by byte 311 recovers every record if and only if no device has more than 255 interfaces and the count fits; the records show the devices field by field |
| `Devlist.InterfaceBytesAt` | crates/farbus-core/src/usbip_proxy.rs:58-70 | class, subclass, protocol and zero of each interface follow the 312-byte header, however many there are |
| `Devlist.BusNumberDefault` | crates/farbus-core/src/usbip_proxy.rs:29-35 | what precedes the first dash, if it is no number, leaves the bus number at 1 |
| `Devlist.EncodeInterfaces` | crates/farbus-core/src/usbip_proxy.rs:58-70 | class, subclass, protocol and zero of each interface, in order; one word of the device's class if it has none |
| `Devlist.ProxyDevlist` | crates/farbus-core/src/usbip_proxy.rs:98-109 | the proxy's reply, from which a client learns every field of every device |
| `Devlist.ForwarderDevlist` | crates/farbus-core/src/usbip_forward.rs:80-103 | the forwarder's reply: the same bytes, from which a client learns the same |
| `Devlist.EchoIff` | crates/farbus-core/src/usbip_proxy.rs:110-117 | sending back a record's busid asks for its bus id if and only if that has at most 31 bytes and no trailing NUL |
| `Devlist.RequestedIs` | crates/farbus-core/src/usbip_proxy.rs:112-116 | the bus id asked for is the 32 bytes without their trailing NULs, or empty if they are no UTF-8 |
| `Devlist.FindBus` | crates/farbus-core/src/usbip_proxy.rs:117-117 | the first device with a bus id, or none has it |
| `Devlist.EchoImportsFirst` | crates/farbus-core/src/usbip_forward.rs:104-112 | importing by a record's busid opens the first device with that bus id |
| `Recovery.ReconnectAndReattach` | crates/farbus-core/src/usbip_forward.rs:207-230 | the retry loop does the tries of the specification, in order, with their sleeps |
| `Recovery.ReattachBounds` | crates/farbus-core/src/usbip_forward.rs:207-230 | from any try on, the number of reconnects and the time slept are bounded |
| `Recovery.ReattachSucceeds` | crates/farbus-core/src/usbip_forward.rs:214-222 | success means the last reconnect and attach of that device were granted |
| `Recovery.RecoverySchedule` | crates/farbus-core/src/usbip_forward.rs:207-230 | a recovery stops at the first try that succeeds or whose attach is rejected, or at the eighth, sleeps min(50 * 2^j, 500) ms after the j-th miss, and ends with its last try's outcome |
| `Recovery.UrbWithRecovery` | crates/farbus-core/src/usbip_forward.rs:171-205 | the loop submits, recovers once from a lost connection, and submits again |
| `Recovery.RecoveryIsBounded` | crates/farbus-core/src/usbip_forward.rs:171-230 | at most two submissions, 8 reconnects and 2750 ms of sleep; the second submission directly follows a granted attach of the same device |
| `Recovery.RecoveredExactly` | crates/farbus-core/src/usbip_forward.rs:195-203 | after a closed connection, a frame error or an I/O error a granted recovery returns what the second submission answers and a failed one its own error; any other outcome is returned after one submission |
| `EndToEnd.RecoveredCompletion` | crates/farbus-core/src/usbip_forward.rs:171-205 | across one recovery a completion returned was settled for the submission by the session of the first attempt, or by that of the second, in which the device was leased again; it is what the completer answered while the device stayed present, or -1 with its reason |
| `EndToEnd.AnswerFits` | crates/farbus-core/src/usbip_forward.rs:311-336 | the answer to a submission is such a completion, or -1 if the call failed, within the data limit, and the reply made of it conveys it |
| `EndToEnd.ForwardedData` | crates/farbus-core/src/usbip_forward.rs:233-349 | the stream parses into replies, at most one to a command, each of which conveys number, status, length and data of the completion the call returned, settled by a session for that submission, or -1 where the call failed |
| `EndToEnd.UnlinkStatusIsZero` | crates/farbus-core/src/usbip_forward.rs:258-276 | whatever becomes of an unlink the bridge answers zero |
| `Recovery.BackoffIff` | crates/farbus-core/src/reconnect.rs:35-48 | the k-th sleep is min(initial * 2^k, max) for every k if and only if initial <= max |
| `Recovery.ConnectWithRetry` | crates/farbus-core/src/reconnect.rs:29-53 | one sleep per failed attempt, each the k-th backoff, success at the first attempt that connects, else the last error |

## Left out

- Export policy (crates/farbus-server/src/lib.rs): `exported` is a field of the scanned devices; computing it is a per-device predicate.
- TLS, certificate pinning, hashing and random generation: hashes, PINs and tokens are parameters of the steps; that a token was never issued before is assumed.
- libusb, sysfs scans and the custom completer: completions and scans are parameters; on platforms other than Linux host devices fail, which `Server.Config` covers.
- Sockets, tokio scheduling and timers; channel capacities and the back-pressure they cause; the write-preference of the devices lock.
- The clock stands still within a section: the two looks at the clock in `validate_pairing_pin` see the same instant, as do those of one token check.
- A section under a lock is one step; `refresh_hosts` as a whole is one such step, so a task reads all flags before it or all after it.
- Debug text of unsupported messages: the reply's text is a parameter of the step, and that an over-long text ends the session shows only as a session that may stop at any time.
- `ServerResults.EndedSessionHoldsNoLease`: speaks of sessions that authenticate under one fingerprint, because for others it is false (`TwoPrincipals.EarlierLeaseSurvives`); `ServerResults.LeaseSurvivesEndIff` covers all.
- The wording of the error replies: the texts are parameters (`Server.Wording`), which no step looks at.
- `Pump.ClientPump.RunPump`: speaks of the commands the pump has taken; those still queued in its channel when it ends are dropped with the channel, which their callers see as closed.
- `EndToEnd.ForwardedData`: does not say how often a submission was executed: when the first connection is lost after the server took the submission, the retry submits it again.
- `Forward.ForwardedOnce`: assumes that no write to the USB/IP socket fails, since the writer then drops what is left.
- `Recovery.ConnectWithRetry`: does not model the overflow of `Duration` when an enormous backoff is doubled.
- `Usbip.CmdUnlinkRoundTrip`: decoding ignores the 24 bytes after the fields, so there is no converse.
- GUI, CLI, benchmarks, discovery, stores, `ConnectionMachine` and `connection_order`: easy or unused by the core.
