# Verified model of the MonsGeek keyboard driver

This project models the parts of the driver in which state, retries or concurrency make mistakes easy, and proves what
they keep: over whole runs, against every device, and under every interleaving. All files together are one Dafny
program; `dafny verify dfyconfig.toml` checks it.

How the pieces are modelled:

- **Imperative code keeps its form.** `InputProcessor`, `UsbSession`, `CommandController`, `DevicePathRegistry`,
  `DriverService`, the client's list and the firmware engine are classes with the fields of the source, and loops stay
  loops. Each method is proved equal to a function on values (`*Spec.dfy`, or the first part of the file); the
  properties of runs are lemmas about those functions.
- **The outside is arbitrary.** A device is any function of everything that happened so far, clocks only have to be
  monotone, discovery may report anything, and every read, write, attach or emit may fail. Only what each lemma
  requires is assumed.
- **Integers are unbounded** except where width matters: bytes are 0..255, the firmware checksum wraps at 2^32, and
  usbmon stamps wrap at 4096 seconds.

| file | content |
|---|---|
| `Keymap`, `InputSpec`, `InputProofs`, `InputOrder`, `InputProcessor`, `InputWorker` | boot reports to key events and their order; the worker loop and its exits |
| `Checksum`, `CommandPolicy`, `PolicyLaws` | frames; which outbound commands are allowed and what they become on the wire |
| `FlowSpec`, `FlowControl`, `FlowProofs`, `FlowOrder`, `FlowEffort`, `FlowTight`, `Transport` | queries with retries, dongle forwarding and polling, their bounds, order and timing; command spacing; the request loop |
| `DeviceRegistry`, `DeviceListView`, `BridgeSpec`, `BridgeService`, `BridgeProofs` | the bridge service and the client's fold of its broadcasts |
| `BridgeReplies`, `BridgeEntries` | what clients are answered, and what lists and announcements show, read off the history |
| `BridgeHistory`, `BridgeIndex`, `BridgeExact`, `OpeningLock` | what the service's state remembers of a run, the address index, exact client lists, concurrent opens |
| `FirmwareEngine`, `FirmwareUpdate` | the transfer, its checksum, the update stream with one retry |
| `TimestampUnwrap` | reconstruction of wrapped usbmon timestamps |

Results worth knowing before reading the table:

- Keycode 43 has two HID codes, so its balance of presses minus releases may reach 2; every other keycode stays in
  {0, 1} (`InputProofs.Conservation`, `InputProofs.BackslashPressedTwice`).
- A direct query that is never answered reports an earlier failed primary transfer even if every later attempt was a clean
  mismatch (`FlowTight.OldFailureReported`); it ends in `EchoMismatch` iff no primary transfer failed
  (`FlowProofs.DirectMismatchIff`). The comment on `query_command` (flow_control.rs:78-81) gives `EchoMismatch` for
  exhausted retries and `Usb` for a transfer that fails fatally, and leaves this mixture open; the model follows the
  code.
- The bound on the transfers of a query is exact for every command and all options without a time budget
  (`FlowTight.BoundReached`); no options of the source have one.
- A connection keeps the definition it was opened with. When a rescan finds another device id at the same address, the
  policy goes on checking against the old definition, so a payload can reach a keyboard whose registered definition
  forbids it (`BridgeHistory.StaleDefinitionSent`). `BridgeHistory.DefinitionCurrentIff` says when the definition is
  current, and `BridgeHistory.SentObeysRegistered` that what is sent then obeys the registered device's bounds.
- The address index of the registry is sound but not complete. `BridgeIndex.RefreshCompleteIff` and
  `BridgeIndex.EnumerationCompleteIff` say which refreshes leave it complete; `BridgeIndex.AddressIndexIncomplete` is a
  run of two scans that loses an online device.
- Overriding the byte of a write role makes the family's byte an unguarded query, unless another role has it
  (`CommandPolicy.MovedRoleUnguards`, `CommandPolicy.ClassesKeptIff`).
- A client's folded list agrees with the server in path, product id and online flag, not in every field: a device seen
  again at the same address with the same product id is updated without an announcement (`BridgeProofs.SilentChange`).
  `BridgeExact.ClientExactIff` says after which runs every field agrees.
- `shutdown` clears the set of paths being opened. Exclusion of two opens of one path survives it iff no open held a
  path at that moment (`OpeningLock.ShutdownSafeIff`).
- An open reads its registration before it waits for its turn. One that connects after further steps keeps connections
  and registry in agreement iff the latest refresh or shutdown in between, if any, is a refresh that scanned the device
  at its address (`BridgeHistory.LateConnectRunIff`). A connection made too late outlives every refresh that does not
  scan its path (`BridgeHistory.LateConnectionLingers`).
- A run of the firmware engine never reports falling progress, but the update stream around it does, on a retry and at
  the end of every success (`FirmwareUpdate.StreamNeverDecreasesIff`).
- Unwrapping a timestamp is exact inside an open window, and on the ends of the window only within the epoch of the
  reference (`TimestampUnwrap.UnwrapExactIff`).

## Model

| member | source | states |
|---|---|---|
| Keymap.HidToLinuxInverse | crates/monsgeek-transport/src/keymap.rs:9-143 | the translation table has an inverse, except that 0x32 shares the keycode of 0x31 |
| Keymap.HidToLinuxNearlyInjective | crates/monsgeek-transport/src/keymap.rs:9-143 | two codes share a keycode only if equal or the pair 0x31/0x32 |
| Keymap.ModifierKeycodesDisjoint | crates/monsgeek-transport/src/keymap.rs:145-157 | no keycode belongs to a modifier bit and to a HID code, and no two bits share one |
| Keymap.LetterRows | crates/monsgeek-transport/src/keymap.rs:9-143 | the letter keys of each row have consecutive keycodes, in keyboard order |
| Keymap.OtherRows | crates/monsgeek-transport/src/keymap.rs:9-157 | so have the digits and F1 to F10; modifier bits have the keycodes of left control to right meta |
| InputProofs.ReportRefinesSets | crates/monsgeek-transport/src/input.rs:67-169 | the slot loops refine a set machine: what is tracked, released, pressed and suppressed depends on the sets of codes alone, and nothing is emitted twice |
| InputProofs.SlotOrderIrrelevant | crates/monsgeek-transport/src/input.rs:93-163 | reports with the same set of codes lead to the same tracked set, clocks and events, whatever the slot order or repetition |
| InputProofs.OpBalance | crates/monsgeek-transport/src/input.rs:55-215 | one report or release-all emits exactly the change in what holds a keycode down, and no prefix of its events leaves the bounds |
| InputProofs.Conservation | crates/monsgeek-transport/src/input.rs:55-215 | over any run presses minus releases of a keycode are the distinct tracked codes plus modifier bits that produce it, never negative and never above 1 (2 for keycode 43) |
| InputProofs.HeldCapacity | crates/monsgeek-transport/src/keymap.rs:9-157 | no keycode has more than one simultaneous source, or two for keycode 43 |
| InputProofs.BackslashPressedTwice | crates/monsgeek-transport/src/keymap.rs:62-63 | the bound 2 is reached by one report holding both codes of keycode 43 |
| InputProofs.NoStuckKeys | crates/monsgeek-transport/src/input.rs:181-215 | a run that ends in a release-all leaves every keycode balanced at zero |
| InputProofs.CountersAgree | crates/monsgeek-transport/src/input.rs:67-169 | the duplicate-of-previous counter never moves; nonzero slots are the tracked, the suppressed and the duplicate ones; the action counter is the number of events |
| InputProofs.ReleaseClock | crates/monsgeek-transport/src/input.rs:97-110 | a code's release time is that of its latest release since the last release-all |
| InputProofs.PressRule | crates/monsgeek-transport/src/input.rs:119-163 | an untracked mapped code in a report is pressed iff debounce is off, it was never released, or at least the configured whole milliseconds have passed |
| InputProofs.DebounceSeparation | crates/monsgeek-transport/src/input.rs:119-163 | over runs with non-decreasing times a press never follows a release of the same code within the window |
| InputProofs.ChatterKeepsWindow | crates/monsgeek-transport/src/input.rs:119-163 | reports while the code is suppressed do not restart its window |
| InputEngine.InputProcessor.constructor | crates/monsgeek-transport/src/input.rs:38-46 | a new processor holds nothing and has no release times |
| InputEngine.InputProcessor.ProcessReportAt | crates/monsgeek-transport/src/input.rs:55-171 | the imperative loops compute exactly the specified state and events, and keep slots duplicate-free |
| InputEngine.InputProcessor.ModifierEvents | crates/monsgeek-transport/src/input.rs:75-92 | all changed modifier bits, releases before presses, in bit order |
| InputEngine.InputProcessor.ReleaseMissing | crates/monsgeek-transport/src/input.rs:93-110 | releases each mapped code missing from the report once and stamps every missing code |
| InputEngine.InputProcessor.PressFresh | crates/monsgeek-transport/src/input.rs:111-163 | presses each fresh code once and builds the next slots |
| InputEngine.InputProcessor.TakeMetrics | crates/monsgeek-transport/src/input.rs:173-178 | hands out the counters and resets them without touching anything else |
| InputEngine.InputProcessor.ReleaseAllKeys | crates/monsgeek-transport/src/input.rs:181-215 | releases every held key and modifier once and forgets slots and release times |
| InputOrder.EventOrder | crates/monsgeek-transport/src/input.rs:75-163 | of any two events of a report, modifier events come before key events, releases before presses in each kind, modifiers by ascending bit, and keys by the slot in which they first occur |
| InputOrder.ReleaseAllOrder | crates/monsgeek-transport/src/input.rs:181-215 | a release-all only releases: keys by slot, then modifiers by bit |
| InputOrder.SlotsKeepPlaces | crates/monsgeek-transport/src/input.rs:111-163 | slot i of the new state holds byte i + 2 of the report or nothing |
| InputOrder.BitsAreDigits | crates/monsgeek-transport/src/input.rs:75-92 | modifier bit i is binary digit i of the modifier byte |
| InputOrder.CountersCount | crates/monsgeek-transport/src/input.rs:55-171 | over any run the counters are the numbers of reports, of reports shorter than 8 bytes, and of events of reports |
| InputWorker.StreakMeaning | crates/monsgeek-inputd/src/daemon.rs:368-419 | the error count is at least n iff the last n reads failed |
| InputWorker.TenthFailure | crates/monsgeek-inputd/src/daemon.rs:416-426 | the error exit comes with exactly the tenth consecutive failure |
| InputWorker.ExitReasons | crates/monsgeek-inputd/src/daemon.rs:360-427 | the loop leaves iff a shutdown is asked for, else iff the device is lost, the last ten reads failed, or events of a full report cannot be emitted, with the exit of that reason |
| InputWorker.OpsMeaning | crates/monsgeek-inputd/src/daemon.rs:366-410 | exactly the reads of at least 8 bytes are processed, in order, with their bytes and times |
| InputWorker.CountersIrrelevant | crates/monsgeek-inputd/src/daemon.rs:307-309 | taking the counters never influences events or tracking |
| InputWorker.ExitBalanced | crates/monsgeek-inputd/src/daemon.rs:360-426 | what the virtual keyboard received by a shutdown, disconnect or error exit balances to zero |
| InputWorker.Turn | crates/monsgeek-inputd/src/daemon.rs:295-429 | one turn of the loop: its exit, its events, its error count and the next state |
| InputWorker.RunWorker | crates/monsgeek-inputd/src/daemon.rs:295-429 | leaves in the first turn with a reason to, delivers the history's events, and balances every keycode unless an emit failed |
| Checksum.CoveredBytesSumTo255 | crates/monsgeek-protocol/src/checksum.rs:27-96 | the 7 or 8 covered bytes plus the checksum byte behind them are 255 mod 256; a USB frame has 65 bytes, the first 0, and a BLE frame is 0x06, 0x55 and the same payload |
| Checksum.OtherBytesCarryTheCommand | crates/monsgeek-protocol/src/checksum.rs:70-96 | every byte but the checksum is the command, a data byte or zero filling |
| Checksum.ChecksumIdempotent | crates/monsgeek-protocol/src/checksum.rs:47-62 | applying the checksum again changes nothing |
| Checksum.ChecksumDetectsOneByte | crates/monsgeek-protocol/src/checksum.rs:27-41 | changing any one covered byte changes the checksum |
| Checksum.ChecksumIgnoresUncovered | crates/monsgeek-protocol/src/checksum.rs:27-41 | bytes outside the covered prefix never influence the checksum |
| Checksum.ApplyChecksum | crates/monsgeek-protocol/src/checksum.rs:47-62 | writes the checksum at its index of the slice, if the slice reaches that far, and nothing else |
| Checksum.BuildCommand | crates/monsgeek-protocol/src/checksum.rs:70-80 | the 65-byte USB frame: report id, command, cut or zero-filled data, checksum |
| Checksum.BuildBleCommand | crates/monsgeek-protocol/src/checksum.rs:87-96 | the 66-byte BLE frame with the same payload |
| CommandPolicy.ResolveCommands | crates/monsgeek-protocol/src/device.rs:204-265 | the table that overwriting a family's fields one by one gives, characterised by the next three rows |
| PolicyLaws.RolesResolved | crates/monsgeek-protocol/src/device.rs:204-265 | each role has the override's byte if there is one, and the family's otherwise |
| PolicyLaws.FamilyByName | crates/monsgeek-protocol/src/protocol.rs:108-131 | a known prefix in any letter case decides the family; without one it is YiChip iff the product id is 0x4000 to 0x40FF |
| PolicyLaws.FamilyBytes | crates/monsgeek-protocol/src/protocol.rs:50-90 | a family's read byte is its write byte plus 0x80, and its write bytes are these |
| PolicyLaws.SharedWritesAlways | crates/monsgeek-protocol/src/command_policy.rs:142-181 | these bytes are writes under every definition and override |
| CommandPolicy.FamilyDecides | crates/monsgeek-protocol/src/device.rs:198-265 | name and product id influence table and policy only through the family, and not at all when every field is overridden |
| CommandPolicy.ClassesKeptIff | crates/monsgeek-protocol/src/command_policy.rs:142-181 | overrides leave every byte in its family's class iff write roles get only bytes that are writes anyway and every byte that loses a role is still a write |
| CommandPolicy.MovedRoleUnguards | crates/monsgeek-protocol/src/command_policy.rs:142-181 | an override that moves the key-matrix role lets an out-of-range message to the family's byte pass as a query |
| CommandPolicy.ForwardedIffObeys | crates/monsgeek-protocol/src/command_policy.rs:190-460 | a message is forwarded iff it meets the bounds of every guarded role its command byte plays, for any definition and overrides |
| CommandPolicy.SkippedAreWrites | crates/monsgeek-protocol/src/command_policy.rs:64-95 | only writes are skipped or rejected, and exactly the writes are answered by an empty read |
| CommandPolicy.PreconditionMeansMissingField | crates/monsgeek-protocol/src/command_policy.rs:190-460 | a failed precondition always means a missing layer or fn-layer field |
| PolicyLaws.RejectedExactly | crates/monsgeek-protocol/src/command_policy.rs:190-460 | a message is rejected iff it breaks the bounds of a guarded role it plays; the first such role decides the code: a failed precondition iff the message is long enough and a field the role needs is missing |
| CommandPolicy.NormalizeOutboundCommand | crates/monsgeek-protocol/src/command_policy.rs:468-490 | rewrites bytes 9 and 10 of the one pattern of simple writes and nothing else |
| CommandPolicy.NormalizeIsHarmless | crates/monsgeek-protocol/src/command_policy.rs:468-490 | normalising is idempotent, keeps the policy decision and the checksum byte |
| PolicyLaws.KeycodeMoved | crates/monsgeek-protocol/src/command_policy.rs:463-490 | a simple write with [0, 0, k, 0] in bytes 8 to 11, k not 0, becomes one with [0, k, 0, 0] and the same other bytes |
| PolicyLaws.OthersKept | crates/monsgeek-protocol/src/command_policy.rs:468-490 | every other message is left as it is |
| PolicyLaws.WireCarriesMessage | crates/monsgeek-driver/src/service/mod.rs:543-574 | all 64 bytes on the wire but the checksum: a moved keycode in byte 9 and 0 in byte 10, and else the message, cut or zero-filled |
| CommandPolicy.CheckedBytesSurvive | crates/monsgeek-protocol/src/command_policy.rs:468-490 | the first seven bytes of a message reach the wire unchanged |
| CommandPolicy.WireObeys | crates/monsgeek-driver/src/service/mod.rs:543-574 | the 64 bytes on the wire of a forwarded message meet every bound that was checked |
| FlowProofs.NormalizeMeaning | crates/monsgeek-transport/src/flow_control.rs:329-345 | an answer is accepted iff the command byte follows 0 to 8 zeros, and is returned with those zeros moved to its end |
| FlowProofs.NormalizeRecoversShifted | crates/monsgeek-transport/src/flow_control.rs:329-345 | a frame shifted right by up to 8 zeros is recovered but for the bytes pushed off its end |
| FlowProofs.PollCycleStretch | crates/monsgeek-transport/src/flow_control.rs:471-510 | n polls take at most 2n writes and 2n reads and answer only with the last thing read |
| FlowProofs.ForwardPathStretch | crates/monsgeek-transport/src/flow_control.rs:366-428 | the forwarding path stays in its bound, and an error is that of its last forwarding send |
| FlowProofs.DirectAttemptStretch | crates/monsgeek-transport/src/flow_control.rs:233-315 | one direct attempt: its bound, its answer's origin, and whether a primary transfer failed |
| FlowProofs.DirectLoopStretch | crates/monsgeek-transport/src/flow_control.rs:233-326 | the direct loop: its bound, and the last failed primary transfer as its error, if there was one |
| FlowProofs.QueryGuarantee | crates/monsgeek-transport/src/flow_control.rs:183-327 | against every device a query terminates within a bound parametric in its options, uses only the transfers they allow, answers with the last read, made in this query after a successful write of its own frame and with the command byte first, and fails with the error, command and attempt count its transfers call for |
| FlowProofs.DirectMismatchIff | crates/monsgeek-transport/src/flow_control.rs:233-326 | an unanswered direct query ends in a mismatch iff none of its primary transfers failed |
| FlowProofs.RegularBounds | crates/monsgeek-transport/src/flow_control.rs:34-46 | the bound of a regular query: 816 writes, 816 reads and 10 own frames forwarded, 60, 65 and 5 direct, and less for command 0 |
| FlowProofs.DiscoveryBounds | crates/monsgeek-transport/src/flow_control.rs:48-60 | a discovery query with r retries takes r writes and r reads, never forwards, and uses no status or flush frames |
| FlowProofs.RawQueryGuarantee | crates/monsgeek-transport/src/flow_control.rs:104-159 | a raw query returns the first frame it reads after a successful write of its own frame, within 5 rounds, else the last primary failure, never a timeout |
| FlowProofs.SendGuarantee | crates/monsgeek-transport/src/flow_control.rs:536-573 | a send writes its own frame until one write succeeds, at most three times, and reports the failure of the third |
| FlowOrder.QueryOrder | crates/monsgeek-transport/src/flow_control.rs:183-534 | which transfer may follow which in a query, against every device: reads come at once behind their write after its settling time, a flush iff a status announces a response or a placeholder is followed up, 100 ms after a failed primary transfer, 30 ms after a forwarded frame, 20 ms after an idle status, and nothing after a recognised answer or a failed forwarding send; the first transfer prepares the dongle iff the command is forwarded |
| FlowOrder.RawAndSendOrder | crates/monsgeek-transport/src/flow_control.rs:104-573 | the same order for raw queries; writes of a plain send are its own frame, 100 ms apart, and three if it fails |
| FlowOrder.PollFrames | crates/monsgeek-transport/src/flow_control.rs:430-490 | the status, flush and prepare frames byte by byte |
| FlowOrder.BudgetKept | crates/monsgeek-transport/src/flow_control.rs:382-410 | with a budget no forwarding send starts later than that after the preparation |
| FlowEffort.FailsAfterAllAttempts | crates/monsgeek-transport/src/flow_control.rs:183-327 | a query fails only after all its direct attempts, or by its forwarding; a mismatch names the first byte of the last direct or follow-up answer |
| FlowEffort.RawFailsAfterFive | crates/monsgeek-transport/src/flow_control.rs:104-159 | a raw query that fails has made five attempts |
| FlowEffort.PollsUntilFailure | crates/monsgeek-transport/src/flow_control.rs:471-510 | a poll cycle that finds nothing has polled as often as it may, unless a status exchange failed |
| FlowEffort.ForwardsUntilOutOfTime | crates/monsgeek-transport/src/flow_control.rs:366-428 | forwarding gives up only after all its sends, or when its budget is used up |
| FlowTight.BoundReached | crates/monsgeek-transport/src/flow_control.rs:183-327 | without a time budget the parametric bound is exact: for every command and all other options some device reaches it |
| FlowTight.RegularBoundReached | crates/monsgeek-transport/src/flow_control.rs:34-46 | 816, 816 and 10 are reached by a regular forwarded query |
| FlowTight.OldFailureReported | crates/monsgeek-transport/src/flow_control.rs:318-326 | a first write that fails decides the error although every later attempt is a mismatch without a failure |
| FlowControl.NormalizeQueryResponse | crates/monsgeek-transport/src/flow_control.rs:329-345 | the search loop finds the specified shift |
| FlowControl.TryReadCachedResponseAfterFlush | crates/monsgeek-transport/src/flow_control.rs:441-469 | the flush exchange, as specified |
| FlowControl.TryReadViaDonglePollCycle | crates/monsgeek-transport/src/flow_control.rs:471-510 | the poll loop, as specified |
| FlowControl.PrepareDongleForwarding | crates/monsgeek-transport/src/flow_control.rs:430-439 | the response-size exchange, whose failures are ignored |
| FlowControl.PollAfterSend | crates/monsgeek-transport/src/flow_control.rs:393-410 | the inner loop of a forwarding send, as specified |
| FlowControl.QueryViaDongleForwardPath | crates/monsgeek-transport/src/flow_control.rs:366-428 | the forwarding loops, as specified |
| FlowControl.PlaceholderFollowUp | crates/monsgeek-transport/src/flow_control.rs:273-308 | the follow-ups after an unrecognised answer, as specified |
| FlowControl.AttemptDirectly | crates/monsgeek-transport/src/flow_control.rs:233-315 | the body of the direct loop, as specified |
| FlowControl.QueryCommandWithOptions | crates/monsgeek-transport/src/flow_control.rs:183-327 | the whole query, as specified |
| FlowControl.QueryRaw | crates/monsgeek-transport/src/flow_control.rs:104-159 | the raw loop, as specified |
| FlowControl.SendCommand | crates/monsgeek-transport/src/flow_control.rs:536-573 | the send loop, as specified |
| Transport.CommandController.EnforceInterCommandDelay | crates/monsgeek-transport/src/controller.rs:103-109 | waits until the spacing since the last command has passed |
| Transport.DelayExact | crates/monsgeek-transport/src/controller.rs:25-109 | the wait is what is missing of 100 ms and no more, and the first command does not wait |
| Transport.CommandController.HandleCommand | crates/monsgeek-transport/src/thread.rs:149-163 | spaces, performs and stamps one request of any mode |
| Transport.TransportLoop | crates/monsgeek-transport/src/thread.rs:111-147 | serves requests in queue order, one reply each |
| Transport.PerformInTime | crates/monsgeek-transport/src/thread.rs:149-163 | the reply to a request is what its transfers show: for a query the last answer read, normalised, after a write of the request's own frame; for a raw query and a read the frame read; for an error the failure logged |
| Transport.ExecuteSpaced | crates/monsgeek-transport/src/controller.rs:42-109 | one request: its transfers start at least 100 ms after the last command ended and end before it is stamped |
| Transport.CommandsSpaced | crates/monsgeek-transport/src/controller.rs:42-109 | over any run every transfer of a request starts at least 100 ms after every transfer of earlier ones, whatever their outcome |
| Transport.RepliesMatchRequests | crates/monsgeek-transport/src/lib.rs:126-258 | the i-th reply answers the i-th request: it is what the transfers between the states before and after that request show |
| DeviceRegistry.UpsertKeepsConsistent | crates/monsgeek-driver/src/service/device_registry.rs:56-100 | both indexes stay consistent with the registrations; with locations as paths the device keeps its path |
| DeviceRegistry.OfflineKeepsConsistent | crates/monsgeek-driver/src/service/device_registry.rs:118-137 | so they do when devices go offline |
| DeviceRegistry.UpsertCompleteIff | crates/monsgeek-driver/src/service/device_registry.rs:56-100 | an upsert leaves a complete index complete iff no other online device has the new or the replaced address |
| DeviceRegistry.OfflineKeepsComplete | crates/monsgeek-driver/src/service/device_registry.rs:118-137 | marking devices offline leaves a complete index complete |
| DeviceRegistry.UpsertFoundIff | crates/monsgeek-driver/src/service/device_registry.rs:56-100 | another device stays findable by address through an upsert iff the upsert neither gets nor gives up that address |
| DeviceRegistry.OfflineFoundIff | crates/monsgeek-driver/src/service/device_registry.rs:118-137 | a device that is not marked offline stays findable iff none that is marked has its address |
| DeviceRegistry.DevicePathRegistry.AllRegistrations | crates/monsgeek-driver/src/service/device_registry.rs:48-50 | every registration exactly once |
| DeviceRegistry.DevicePathRegistry.Upsert | crates/monsgeek-driver/src/service/device_registry.rs:56-100 | the three maps after an upsert and the registration returned |
| DeviceRegistry.DevicePathRegistry.UpsertRegistration | crates/monsgeek-driver/src/service/device_registry.rs:102-116 | the same, from a registration |
| DeviceRegistry.DevicePathRegistry.MarkOfflineMissingPaths | crates/monsgeek-driver/src/service/device_registry.rs:118-137 | exactly the online devices that are not live go offline, each returned once |
| DeviceRegistry.DevicePathRegistry.Clear | crates/monsgeek-driver/src/service/device_registry.rs:139-143 | empties all three maps |
| DeviceListView.SortByKey | crates/monsgeek-cli/src/client.rs:155 | an ordered permutation |
| DeviceListView.LeqMeaning | crates/monsgeek-cli/src/client.rs:155 | paths are ordered by their first difference, a prefix first |
| DeviceListView.ListingUnique | crates/monsgeek-cli/src/client.rs:154-156 | the path-ordered list of a view's entries is unique, so map iteration order never shows |
| DeviceListView.ViewOfListing | crates/monsgeek-cli/src/client.rs:143-148 | reading a listing back gives the view it was made from |
| DeviceListView.AlikeListings | crates/monsgeek-cli/src/client.rs:137-171 | views that agree in path, product id and online flag are listed alike |
| DeviceListView.Snapshot.MergeDeviceListUpdate | crates/monsgeek-cli/src/client.rs:137-171 | the list after an update of each change type, as specified |
| DeviceListView.Snapshot.MergeByPath | crates/monsgeek-cli/src/client.rs:142-157 | the listing of the old view overwritten by the update; entries without a path are dropped |
| DeviceListView.MergeKinds | crates/monsgeek-cli/src/client.rs:137-171 | an initial list replaces the client's, a removal drops exactly the named paths, additions and changes overwrite, and anything else does nothing |
| BridgeService.DriverService.constructor | crates/monsgeek-driver/src/service/mod.rs:95-117 | nothing known, connected, being opened or queued |
| BridgeService.DriverService.Shutdown | crates/monsgeek-driver/src/service/mod.rs:159-184 | clears connections, registry, opening set and queues, and announces nothing |
| BridgeService.DriverService.ConnectRegistration | crates/monsgeek-driver/src/service/mod.rs:186-232 | connects only online devices with a known id that can be attached |
| BridgeService.DriverService.SnapshotKnownDevices | crates/monsgeek-driver/src/service/mod.rs:355-366 | the path-ordered listing of the registry |
| BridgeService.DriverService.OpenDevice | crates/monsgeek-driver/src/service/mod.rs:444-489 | finds the connection, or waits for its turn while others change the state, connects what it looked up before, and gives its claim back |
| BridgeService.DriverService.EnqueueSyntheticEmptyRead | crates/monsgeek-driver/src/service/mod.rs:500-513 | appends one empty answer to the path's queue |
| BridgeService.DriverService.PopSyntheticResponse | crates/monsgeek-driver/src/service/mod.rs:515-526 | takes the oldest answer and removes a queue that is or becomes empty |
| BridgeService.DriverService.SendCommandRpc | crates/monsgeek-driver/src/service/mod.rs:528-575 | the whole effect and the status of a send, in every error case |
| BridgeService.DriverService.ReadResponseRpc | crates/monsgeek-driver/src/service/mod.rs:577-598 | the whole effect and the result of a read |
| BridgeReplies.OpenOutcome | crates/monsgeek-driver/src/service/mod.rs:444-489 | an open succeeds iff the path is connected, or registered, online, of a known id and attachable; otherwise it changes nothing and returns not found |
| BridgeReplies.ReachesIff | crates/monsgeek-driver/src/service/mod.rs:444-489 | over any run: iff it is connected, or the latest refresh scanned it and its last scanned id is known and it can be attached |
| BridgeReplies.ReadOutcome | crates/monsgeek-driver/src/service/mod.rs:577-598 | every outcome of a read after any run: an owed empty answer, else the device's own response, an internal error if it gives none, not found, or an invalid path |
| BridgeReplies.QueryIsAnswered | crates/monsgeek-driver/src/service/mod.rs:577-598 | an alternating client's read after a query returns the device's response |
| BridgeReplies.SendOutcome | crates/monsgeek-driver/src/service/mod.rs:528-575 | every outcome of a send: who is handed which request, whether an empty answer is owed, and the status |
| BridgeReplies.BlankAscii | crates/monsgeek-driver/src/service/mod.rs:534-536 | an ASCII path is refused iff it is only white space |
| BridgeService.DriverService.RefreshDiscoverySnapshot | crates/monsgeek-driver/src/service/mod.rs:368-426 | registry, connections and announcements after one scan |
| BridgeService.DriverService.ScanRegistration | crates/monsgeek-driver/src/service/mod.rs:375-409 | the same for one scanned device |
| BridgeEntries.ListedFromHistory | crates/monsgeek-driver/src/service/mod.rs:355-366 | after any run the server lists exactly the scanned paths, once each and in order; an entry shows every field last scanned there, and online iff the latest refresh still scanned it |
| BridgeEntries.RegistrationFields | crates/monsgeek-driver/src/service/device_registry.rs:56-100 | over any run a registration repeats field by field what was last scanned |
| BridgeEntries.ScanAnnounces | crates/monsgeek-driver/src/service/mod.rs:375-409 | a scanned device is announced, with all its fields, iff it is new, was offline, or changed its product id or address; new paths as additions, others as changes |
| BridgeEntries.GoneAnnounced | crates/monsgeek-driver/src/service/mod.rs:411-425 | a refresh announces each device that the one before scanned and it does not, once, as last scanned but offline |
| BridgeEntries.ClientShowsHistory | crates/monsgeek-cli/src/client.rs:137-171 | whatever it showed before, a client that takes an initial list and folds in all announcements since shows exactly the scanned paths, with product id and presence as in the history |
| BridgeProofs.AgreementHolds | crates/monsgeek-driver/src/service/mod.rs:155-489 | over any run of refreshes, opens, sends, reads and shutdowns every connected path is registered and online at the connection's bus and address, and the indexes are consistent |
| BridgeProofs.RefreshedExactly | crates/monsgeek-driver/src/service/mod.rs:368-426 | after a refresh exactly the scanned devices are online, and only they can be connected |
| BridgeProofs.OpenKeepsAgreement | crates/monsgeek-driver/src/service/mod.rs:444-489 | an open changes nothing but connections, and a success returns the connection of that path |
| BridgeProofs.FoldIsView | crates/monsgeek-cli/src/client.rs:137-171 | folding announcements into a listing is updating the view it lists |
| BridgeProofs.RefreshInStep | crates/monsgeek-driver/src/service/mod.rs:368-426 | a refresh keeps a client that hears its announcements in step with the registry |
| BridgeProofs.ClientSeesServer | crates/monsgeek-cli/src/client.rs:137-171 | from any snapshot on, over any run without shutdown, the client's folded list equals the server's in path, product id and online flag, in the same order |
| BridgeProofs.ExactIff | crates/monsgeek-driver/src/service/mod.rs:383-390 | scanning one device keeps the client's entries exact iff it is not an unremarkable one whose entry changed |
| BridgeProofs.SilentChange | crates/monsgeek-driver/src/service/mod.rs:383-390 | a change of device id at the same address is not announced |
| BridgeProofs.RescanKeepsConnectionIff | crates/monsgeek-driver/src/service/mod.rs:383-398 | a rescan keeps a connection, unchanged, iff the device is still at the connection's bus and address |
| BridgeProofs.TokensCounted | crates/monsgeek-driver/src/service/mod.rs:500-598 | a path's queue holds exactly the writes that reached an open device minus the reads answered without the device since the last shutdown, and no empty queue is stored |
| BridgeProofs.AlternatingQueue | crates/monsgeek-driver/src/service/mod.rs:500-598 | for a client that alternates send and read, at most the answer to its latest write is queued |
| BridgeProofs.ReadAfterSend | crates/monsgeek-driver/src/service/mod.rs:543-598 | such a client's read after a write returns empty without touching the device, even if the write was rejected or failed; its read after a query takes no queued answer and returns the device's response, or the failure of the open or of the device |
| BridgeProofs.SentObeys | crates/monsgeek-driver/src/service/mod.rs:543-574 | over any run every request handed to a connection for sending turns into a payload that meets the bounds of the definition it was opened with |
| BridgeProofs.WireFramesObey | crates/monsgeek-transport/src/flow_control.rs:536-573 | and so does every frame the transport writes for it, retries included |
| BridgeHistory.RegistryRemembers | crates/monsgeek-driver/src/service/mod.rs:368-426 | over any run the registry holds exactly what was last scanned since the last shutdown, online iff the latest refresh still scanned it |
| BridgeHistory.RefreshRemembers | crates/monsgeek-driver/src/service/mod.rs:368-426 | after a refresh a scanned device is registered as last scanned, and any other registration is unchanged but offline |
| BridgeHistory.StepConnections | crates/monsgeek-driver/src/service/mod.rs:186-232 | across a step a connection is kept as it was, or is new and holds the registration of its path and that id's definition |
| BridgeHistory.DefinitionAsOpened | crates/monsgeek-driver/src/service/mod.rs:186-232 | over any run a connection holds the definition of the device that was last scanned when it was opened |
| BridgeHistory.RescanCurrentIff | crates/monsgeek-driver/src/service/mod.rs:383-398 | after a rescan that keeps the connection its definition is that of the registered device iff the scanned id maps to it |
| BridgeHistory.RefreshCurrentIff | crates/monsgeek-driver/src/service/mod.rs:368-426 | the same for a whole refresh |
| BridgeHistory.DefinitionCurrentIff | crates/monsgeek-driver/src/service/mod.rs:155-489 | over any run it is iff the id last scanned at the path and the id it was opened as have the same definition |
| BridgeHistory.StaleDefinitionSent | crates/monsgeek-driver/src/service/mod.rs:383-398 | a run of scan, open, rescan and send whose payload violates the bounds of the registered device |
| BridgeHistory.RequestsReachTheirDevice | crates/monsgeek-driver/src/service/mod.rs:528-598 | a request is handed to the connection of the path it names, registered and online at the connection's address |
| BridgeHistory.SentObeysRegistered | crates/monsgeek-driver/src/service/mod.rs:528-575 | what a send hands over obeys the bounds of the connection's definition, and those of the registered device if that definition is current |
| BridgeHistory.AwaitMeaning | crates/monsgeek-driver/src/service/mod.rs:459-488 | a waiting open acts on the first state in which its path is connected or claimed by nobody |
| BridgeHistory.LateConnectIff | crates/monsgeek-driver/src/service/mod.rs:449-487 | connecting with a registration read earlier keeps the agreement iff the path is still registered and online at that address |
| BridgeHistory.LateConnectRunIff | crates/monsgeek-driver/src/service/mod.rs:449-487 | connecting after further steps keeps it iff the latest refresh or shutdown among them, if any, is a refresh that scanned the device at its address |
| BridgeHistory.LateConnectAfterUnplug | crates/monsgeek-driver/src/service/mod.rs:449-487 | a refresh in between can leave a connection to a device that is gone |
| BridgeHistory.LateConnectionLingers | crates/monsgeek-driver/src/service/mod.rs:411-425 | a connection whose path is not online outlives every refresh that does not scan the path, and opens go on finding it |
| BridgeHistory.LateConnectionRescanned | crates/monsgeek-driver/src/service/mod.rs:383-398 | when the path is scanned again it is dropped iff the registry remembers another address, and if kept it is good iff it was made for the scanned one |
| BridgeIndex.RefreshFoundIff | crates/monsgeek-driver/src/service/mod.rs:368-426 | after a refresh a scanned device is found by its address iff no device scanned later takes that address and no missing one had it |
| BridgeIndex.RefreshCompleteIff | crates/monsgeek-driver/src/service/mod.rs:368-426 | a refresh leaves the address index complete iff that holds for every scanned device |
| BridgeIndex.EnumerationCompleteIff | crates/monsgeek-driver/src/service/mod.rs:368-426 | for one enumeration, read off the registry before it: iff no scanned device has an address that a later-scanned device was registered at or a missing one was online at |
| BridgeIndex.AddressIndexIncomplete | crates/monsgeek-driver/src/service/device_registry.rs:63-80 | two enumerations after which an online device is not found by its address |
| BridgeExact.HeardIsTold | crates/monsgeek-driver/src/service/mod.rs:383-425 | over any run without shutdown a client's entry for a path is that of its last remarkable scan or of its going offline |
| BridgeExact.ClientExactIff | crates/monsgeek-cli/src/client.rs:137-171 | after any run without shutdown the client's list equals the server's in every field iff every registered entry is the one last told |
| OpeningLock.RunKeepsExact | crates/monsgeek-driver/src/service/mod.rs:444-489 | under every interleaving of opens and refreshes the opening set is exactly the set of held paths, each held by one task |
| OpeningLock.StepKeepsExact | crates/monsgeek-driver/src/service/mod.rs:459-485 | each single step keeps that |
| OpeningLock.ConnectsInside | crates/monsgeek-driver/src/service/mod.rs:481-485 | a path becomes connected exactly when its device attaches inside the one task that holds the path |
| OpeningLock.ShutdownSafeIff | crates/monsgeek-driver/src/service/mod.rs:176-179 | after a shutdown exclusion is guaranteed iff no task held a path when it came |
| FirmwareEngine.PaddedChecksum64 | crates/monsgeek-firmware/src/engine.rs:90-98 | the wrapping 32-bit total over the padded image |
| FirmwareEngine.ChecksumMeaning | crates/monsgeek-firmware/src/engine.rs:90-102 | the reported size, chunk count and checksum: cut to 24 bits, the byte sum plus 255 for each byte of padding to 64 |
| FirmwareEngine.SummarizeManifestBytes | crates/monsgeek-firmware/src/preflight.rs:64-70 | the preflight summary is the one the engine reports on success |
| FirmwareEngine.DefaultFirmwareEngine.Execute | crates/monsgeek-firmware/src/engine.rs:43-87 | makes the planned calls up to the first failure, reports the event before each, and returns the matching result |
| FirmwareEngine.CallsAndEvents | crates/monsgeek-firmware/src/engine.rs:43-87 | each call of a transfer, its markers, chunk index and bytes, and the phase and progress announced before it |
| FirmwareEngine.FailureIsLast | crates/monsgeek-firmware/src/engine.rs:43-87 | the last call made is the only one that may have failed |
| FirmwareEngine.FirstFailure | crates/monsgeek-firmware/src/engine.rs:43-87 | after a failed call nothing more of the plan is carried out |
| FirmwareEngine.CarriedIsPrefix | crates/monsgeek-firmware/src/engine.rs:65-73 | however far a transfer gets it has carried a prefix of the image, and at the end the image |
| FirmwareEngine.ChunkSizes | crates/monsgeek-firmware/src/engine.rs:65-73 | chunks are never empty and all but the last have 64 bytes |
| FirmwareEngine.ProgressNeverDecreases | crates/monsgeek-firmware/src/engine.rs:48-82 | progress stays in [0, 1] and never falls, over the reals |
| FirmwareUpdate.StreamProgress | crates/monsgeek-driver/src/service/firmware_update.rs:24-127 | the retry loop terminates and returns the specified stream |
| FirmwareUpdate.RunOutcome | crates/monsgeek-driver/src/service/firmware_update.rs:320-362 | how a run on the simulated device ends, read off its state |
| FirmwareUpdate.RunsAtMostTwice | crates/monsgeek-driver/src/service/firmware_update.rs:58-127 | the engine runs twice after a first bootloader timeout and once otherwise |
| FirmwareUpdate.SucceedsIff | crates/monsgeek-driver/src/service/firmware_update.rs:58-127 | it succeeds iff at most one timeout is pending and no other failure is set; the last item is at 1.0, with empty text iff the final run passed its verification; no other text of a failed stream is empty |
| FirmwareUpdate.SuccessEnding | crates/monsgeek-driver/src/service/firmware_update.rs:71-90 | a success ends with the identity queries of the final run at 0.99 and an empty text at 1.0 |
| FirmwareUpdate.EventsShown | crates/monsgeek-driver/src/service/firmware_update.rs:174-188 | items show the engine's progress and phase, with an empty text for completion only |
| FirmwareUpdate.PayloadDecides | crates/monsgeek-driver/src/service/firmware_update.rs:245-291 | each failure marker at the start of a payload leads to its own fault |
| FirmwareUpdate.StreamNeverDecreasesIff | crates/monsgeek-driver/src/service/firmware_update.rs:51-127 | the stream's progress never falls iff its only run fails for a reason other than a timeout |
| FirmwareUpdate.StreamSucceedsIff | crates/monsgeek-driver/src/service/firmware_update.rs:24-127 | a request refused before its run is one item at 0.0; a request succeeds iff it passes staging and preflight and its payload starts with no failure marker |
| TimestampUnwrap.StampIsRemainder | tools/usb_input_tracer.py:371-377 | the kernel's stamp is the time modulo 4096 seconds |
| TimestampUnwrap.UnwrapTimestamp | tools/usb_input_tracer.py:371-393 | the nanosecond result for any stamp and reference |
| TimestampUnwrap.UnwrapWindow | tools/usb_input_tracer.py:381-391 | the result has the stamp and lies from one wrap less a second before to a second after the reference |
| TimestampUnwrap.WindowInNanoseconds | tools/usb_input_tracer.py:371-393 | the same for the nanosecond result, to the microsecond |
| TimestampUnwrap.UnwrapExactIff | tools/usb_input_tracer.py:371-393 | unwrapping gives the true time back iff that time is inside the window, or on an end of it in the reference's epoch |

## Left out

- Foreign I/O (rusb, udev, uinput, sd_notify, gRPC streams, files): only its results appear, as arbitrary inputs.
- InputWorker.RunWorker: does not balance keys when an emit fails, because that exit of the source deliberately releases nothing; a batch whose emit fails counts as not delivered.
- InputWorker: publishing the active path, latency windows and percentiles, and the supervisor `run_daemon` with its worker map.
- InputEngine.InputProcessor.ProcessReportAt: counters do not wrap at 64 bits.
- Pumping of input reports between requests in the transport thread, and the hot-plug thread.
- `query_usb_version_discovery`: its error path skips the stamp of the last command, so it is outside Transport.CommandsSpaced.
- FlowControl: read timeouts are part of the arbitrary device; the texts of USB errors are opaque.
- FlowOrder.QueryOrder: bounds pauses from below only, because a sleep may always take longer.
- FlowTight.BoundReached: not stated for options with a time budget, which the clock may cut short; no options of the source have one.
- CommandPolicy: error texts, and `CommandSchemaMap`, which the current controller does not enforce.
- BridgeProofs: one refresh, open, send, read or shutdown is one step of a run. What happens while an open waits is an arbitrary script in BridgeService.DriverService.OpenDevice, the interleaving of opens is in OpeningLock, and an open that straddles other steps is in BridgeHistory.LateConnectRunIff.
- BridgeService.DriverService.OpenDevice: the script of what others do during its sleeps is finite; a call whose turn has not come at its end is reported as still waiting, where the source goes on polling.
- BridgeProofs.ClientSeesServer: assumes no broadcast is lost and none falls between snapshot and subscription; runs contain no shutdown, which announces nothing.
- BridgeProofs: discovery is assumed to use the USB location as instance path, as crates/monsgeek-transport/src/discovery.rs:469-470 does; DeviceRegistry.UpsertKeepsConsistent does not need that for its indexes.
- DeviceListView.SortByKey: an insertion sort stands for the library's stable sort; only order and permutation matter.
- FlowControl, InputEngine and FirmwareEngine split some long source functions into one method per phase.
- FirmwareUpdate: texts of progress items are labels, and preflight checks are one arbitrary verdict; progress is real-valued, so rounding is not modelled.
- `DbStore`, configuration precedence, device definition files, command-line handling, and the statistics and correlation in the Python tools: string plumbing or easy arithmetic.
