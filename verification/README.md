# Attendance pipeline: model and proofs

The firmware turns Bluetooth sightings of bonded phones into attendance. Radio callbacks and a 1 Hz tick drive a
presence state machine with eight slots; it calls for IN and OUT events; a four-entry debounce table filters
them; each accepted event becomes one JSON line of an append-only file; and two folds over that file produce
in/out segments and today's totals. Beside the pipeline stand the worker registry, the RAM log and the DNS
responder of the captive portal.

This project models these parts in Dafny and proves what holds over whole runs and across the parts.

| files | part |
|---|---|
| `Presence`, `PresenceTracker` | the state machine as functions, and the class whose methods are its callbacks |
| `PresenceSafety`, `PresenceNotes`, `PresenceRadio`, `PresenceTiming`, `PresenceLinks` | what every run keeps: events and on whose word they are recorded, scanner and probes, time bounds, links |
| `PresenceEvidence` | what is heard on the air, told from the callbacks alone, and what it makes of slots and events |
| `Debounce`, `DebounceTable`, `LatestEvents` | the debounce table and the lookup that resumes presence at boot |
| `Session`, `LateSync`, `WipeReemission` | presence and debounce together: undisturbed, with a late wall clock, with a wipe of the log |
| `Lifetimes`, `Numbering`, `EndToEnd` | the log over any number of boots and rotations, its worker ids, and the report made from it |
| `SampleRuns`, `SampleLife` | small runs that show that what the theorems speak of happens |
| `Pairing`, `PairingPerWorker`, `TodayView` | the two folds, their per-worker specifications and their agreement |
| `PairedLines`, `TodayLines`, `PairedByAddress`, `TodayByAddress` | both views told from the lines of the log alone, with and without worker ids |
| `JsonText`, `EventText` | the text of an event line and the textual tests on it |
| `EventReader`, `ReadBack` | a parser of such lines that knows nothing of the writer, and what it reads back |
| `StoreText`, `TimeRotation`, `EventStore`, `Deletes`, `EventFile` | the event file as characters, its rotations and deletes, the list of events it stands for |
| `EventsPage`, `PageOfEvents` | the page sent to a client, and which events are on it |
| `Workers`, `WorkersReboot`, `WorkerContents`, `WorkerTable` | the worker registry against its key/value store, and who is in it after each operation |
| `Dns`, `DnsMessage`, `LogRing` | the DNS responder and a reader of DNS messages, the RAM log |

The C code changes static tables and files in place, so every such table or file is a class whose methods are
proved equal to functions on its abstract value; the theorems are lemmas about those functions and about runs of
them. `dafny verify dfyconfig.toml` checks everything.

## What the code does not keep

- The header of the BLE component promises that a wipe makes the next tick re-emit IN for everyone in proximity.
  A sighting, or the next tick with the wall clock known, does record it, but it reaches the log if and only if no
  accepted IN of the peer less than 10 s old still holds its debounce slot (`WipeReemission.ReemissionAccepted`; a
  run in which it does not: `WipeReemission.ReemissionSwallowed`).
- The wall clock is unknown from each boot to the first NTP answer, and again after a change of the NTP server
  (`components/time_sync/dd_time.c:162-164`). Presence goes on, but the IN waits for the first tick that knows the
  time. If that tick comes no later than the timeout plus 1 ms less 10 s after the boot, every event
  reaches the log (`Session.NothingSwallowed`). If it comes later, that IN can lie within 10 s of the next one,
  which is then dropped: the bound is exact for every timeout (`LateSync.SecondInAcceptedIff`). A peer that is
  resumed as in and given up before the time is known is never logged as gone, so that a second IN follows the
  first (`LateSync.DepartureForgotten`).
- A rotation drops the oldest lines, whosever they are. If it drops the IN of a visit, the log's first line of that
  peer is an OUT, which the paired view does not show (`EndToEnd.ReportOfLife`, `EndToEnd.OrphanRotated`); and if
  the peer is still in, the next boot does not resume it (`Lifetimes.BootResumes`) and records an IN again.
- Appending accepts lines of up to 1024 bytes while the deletes read 1023 at a time. A delete does what it should
  if and only if no line of the file, kept or deleted, has 1023 or 1024 bytes; each such line makes the count one
  too high, and a deleted one leaves a stub in the file (`Deletes.DeleteByWorkerRightIff`,
  `Deletes.DeleteOneRightIff`; on events: `Deletes.KeptLongCountedTwice`, `Deletes.DeletedLongLeavesStub`,
  `Deletes.LongEventsExist`). With such a count the page of the newest events is too short by the excess
  (`EventsPage.TailPage`).
- A slot claimed by a peer keeps the `connected` flag it had. If a bond is revoked while its probe waits for the
  connect, the connect marks the freed slot, and the next peer that moves in stays connected without a link
  (`PresenceLinks.ConnectedWithoutLink`). Every such revoke can lead there (`PresenceLinks.DisturbedStrands`), and
  the peer is not given up before its own HID link goes down or its bond is revoked, however long it is away
  (`PresenceLinks.NeverGivenUp`). Without such a revoke every connected slot has its link
  (`PresenceLinks.ConnectedHasLink`).
- The next worker id has 16 bits; once id 65535 is given out it wraps to 0 and the next boot finds nobody
  (`WorkersReboot.CreatedSurvivesIff`, `WorkersReboot.RestoredSurvivesIff`).
- The header of the worker component says a deleted id becomes free for reuse; the code never reuses one before a
  wipe (`WorkersReboot.NeverReused`).
- The repository's README says a phone is checked out when it is missing for more than 15 s. In the code 15 s of
  silence only start a probe; a tick gives a peer up if and only if it is unconnected, not being probed and silent
  for longer than the presence timeout, 60 s by default and at least 30 s (`PresenceSafety.LeavesIff`; a run with
  16 s of silence: `SampleRuns.SilentButPresent`).

## Assumptions

- Each callback runs to completion before the next one, and reads the timer once.
- The microsecond timer is positive and never goes back. Where the debounce is called an exact LRU table, two calls
  never read the same value; which events are dropped is exact without that.
- Over several boots, the pairs of wall clock and timer on each peer's lines increase, and a boot finds the bond of
  every peer that has a line in the file. The bond store lists at most eight peers. The worker registry has room
  for every peer that ever gets a line.
- A connect ends only while it is pending, with a callback for the slot it was started for. That slot may have
  been revoked meanwhile; such callbacks are part of the runs.
- Starting a scan fails only if a scan is active or a connect is pending.
- Key/value writes succeed. A copy written beside the event file replaces it or leaves it unchanged; both are
  covered.
- Event lines hold no NUL character. Numbers in them are printed with all their digits, which cJSON does below
  10^15; the rotation by age and the delete of one event depend on it for the two times.

## Model

| member | source | states |
|---|---|---|
| PresenceTracker.Tracker.SeenAddr | components/ble/dd_ble.c:138-187 | a sighting refreshes the peer's slot, or claims the first free one for a bonded peer, and calls for IN only when none was acknowledged and the wall clock is known |
| PresenceTracker.Tracker.StartProbe | components/ble/dd_ble.c:299-344 | the scanner is stopped and a connect started, or the slot's probe is ended at once and a scanner restart armed |
| PresenceTracker.Tracker.ProbeDone | components/ble/dd_ble.c:230-261 | a connect's outcome: a live link counts as a sighting of its slot's peer; either way the connect is over and the restart is armed |
| PresenceTracker.Tracker.ProbeDisconnected | components/ble/dd_ble.c:263-278 | a link going down refreshes the slot only if the handle is its own |
| PresenceTracker.Tracker.TickOne | components/ble/dd_ble.c:350-435 | one slot's turn in the tick: live link, catch-up IN, re-probe while away, probe while stale, OUT after the timeout, in that order |
| PresenceTracker.Tracker.TickAll | components/ble/dd_ble.c:346-437 | the 1 Hz loop over the slots, each seeing the radio as the previous one left it |
| PresenceTracker.Tracker.HidConnect | components/ble/dd_ble.c:862-881 | a HID connection counts as a sighting and marks the slot connected |
| PresenceTracker.Tracker.HidDisconnect | components/ble/dd_ble.c:889-904 | a HID disconnection restarts the slot's OUT timer |
| PresenceTracker.Tracker.ResetEvents | components/ble/dd_ble.c:449-459 | after a wipe every present slot is unacknowledged again |
| PresenceTracker.Tracker.ChangePresenceTimeout | components/ble/dd_ble.c:466-481 | the timeout is clamped to 30..600 s |
| PresenceTracker.Tracker.StartScan | components/ble/dd_ble.c:495-526 | scanning starts unless a scan is active or a connect pending, which leaves the controller as it was |
| PresenceTracker.Tracker.ScanTimerFired | components/ble/dd_ble.c:532-547 | the one-shot restart timer is disarmed and the scanner started |
| PresenceTracker.Tracker.PreallocateBonded | components/ble/dd_ble.c:678-748 | bonds without a slot get the first free one; a peer for which the one-pass lookup in the stored log answers IN is resumed as present and acknowledged |
| PresenceTracker.Tracker.FreeRevoked | components/ble/dd_ble.c:1324-1330 | the revoked peer's slot is zeroed, a probe in flight or not |
| PresenceSafety.RunKeeps | components/ble/dd_ble.c:138-547 | in every run: acknowledged implies present implies used, no two used slots share an address, the timeout stays in 30..600 s, and the three history properties below hold of every note |
| PresenceSafety.NoOrphanOut | components/ble/dd_ble.c:428-435 | OUT is recorded only for a peer whose latest recorded call since any wipe is IN, or that was resumed as in; over all runs with sync loss, wipes, timeout changes, revokes and callbacks of revoked slots |
| PresenceNotes.OutFollowsIn | components/ble/dd_ble.c:725-741 | the same down to the log: before an OUT, with no wipe or other word on the peer in between, stands a recorded IN, or a resumption at a boot or reallocation whose lookup over all lines of the stored log answered IN |
| PresenceEvidence.NoPrematureOut | components/ble/dd_ble.c:401-435 | in any run, when OUT of a peer is recorded, its boot and every sighting, HID link up or down, probe result, drop of a probe's link, live-link tick and look into the log for that peer lie more than the timeout in force further back, in microseconds; these are read from the callbacks, not from what the machine noted |
| PresenceEvidence.SightingArrives | components/ble/dd_ble.c:138-187 | for any state: a sighting makes the slot of its peer, whichever it is, present as of now; a bonded peer without a slot gets the first free one; no other slot and nothing else changes |
| PresenceEvidence.HeardRefreshes | components/ble/dd_ble.c:138-437 | whatever the callback, the slot of a peer that was heard is refreshed to now, and present if the peer is near; every other slot is present only if it was, with the same last time |
| PresenceEvidence.PresentForTimeout | components/ble/dd_ble.c:422-435 | who is present stays present, in any continuation without the end of its bond, until it was not heard for the shortest timeout set |
| PresenceEvidence.OutRecordedIff | components/ble/dd_ble.c:422-435 | a step records OUT of a peer if and only if it is a tick with the wall clock known that finds its slot present, unconnected, not being probed and silent for longer than the timeout |
| PresenceEvidence.InRecordedIff | components/ble/dd_ble.c:172-186 | a step records IN of a peer if and only if the wall clock is known and either a tick finds its slot present or connected but not acknowledged, or its sighting, HID link or probe hits such a slot or gets it a free one |
| PresenceEvidence.TickNotes | components/ble/dd_ble.c:346-437 | what a tick notes is exactly what its slots, each by itself, call for |
| PresenceEvidence.TimeoutInForce | components/ble/dd_ble.c:466-481 | the timeout is the last one set, limited to 30..600 s, else the stored one if in that range, else 60 s |
| PresenceEvidence.ConnectedIff | components/ble/dd_ble.c:230-278 | exactly which callbacks mark a slot connected and which clear the mark |
| PresenceEvidence.ProbesSpaced | components/ble/dd_ble.c:384-420 | after a probe of a peer has ended, whatever happens in between, no tick starts another within 10 s, and none within 30 s if the peer is away by then |
| PresenceEvidence.RevokeFrees | components/ble/dd_ble.c:1324-1330 | after the end of a bond no slot holds the peer, and the other slots and the radio are as before |
| PresenceSafety.LeavesOnlyWhenSilent | components/ble/dd_ble.c:422-435 | a slot stops being present, without being freed, only in a tick that finds it unconnected, not being probed and silent for longer than the timeout |
| PresenceSafety.LeavesIff | components/ble/dd_ble.c:422-435 | a tick takes a peer's presence if and only if it is unconnected, not being probed and silent for longer than the timeout |
| SampleRuns.SilentButPresent | README.md:9-10 | a run with 16 s of silence after which the peer is present, and one with a minute and a millisecond after which OUT is recorded |
| PresenceRadio.ScannerNeverStranded | components/ble/dd_ble.c:299-344 | in every reachable state the scanner runs, a connect is pending or the restart timer is armed, and when the timer fires the radio is not left idle |
| PresenceRadio.OneProbeAtATime | components/ble/dd_ble.c:299-344 | at most one slot is probing, and the controller's pending connect is its own, even when one tick wants to probe several |
| PresenceRadio.ConnectHasOwner | components/ble/dd_ble.c:230-278 | unless a bond was revoked while it was being probed, the slot of a pending connect is probing, so its outcome clears the flag |
| PresenceLinks.ConnectedHasLink | components/ble/dd_ble.c:240-278 | in the same runs, whatever callbacks come, a slot marked connected is used and a link to its peer is up |
| PresenceLinks.ConnectedWithoutLink | components/ble/dd_ble.c:158-169 | a run with a revoke during a probe after which another peer's slot is connected and no link is up |
| PresenceLinks.ConnectedStaysPresent | components/ble/dd_ble.c:356-362 | every tick keeps a used slot marked connected present and its link as it is, and never starts a probe of it |
| PresenceLinks.NeverGivenUp | components/ble/dd_ble.c:350-437 | a present slot marked connected without a link of its own stays so over any continuation of the run in which the peer's HID link does not go down and its bond is not revoked |
| PresenceLinks.DisturbedStrands | components/ble/dd_ble.c:158-169 | every revoke during the peer's pending connect has a continuation that leaves another peer in the slot, connected and present, with no link to it |
| PresenceTiming.SilentPeerLeaves | components/ble/dd_ble.c:401-435 | with ticks at least every D and probes that fail within 10 s, a slot with no further proof of presence is absent from timeout + 1 ms + 10 s + D after the last one, also if the timeout is lowered meanwhile |
| PresenceTiming.ProbesExactlyWhenDue | components/ble/dd_ble.c:384-420 | a tick tries to probe exactly the unconnected peers that are due: present and silent for more than 15 s up to the timeout with 10 s between probes, or absent with 30 s between probes, and nobody during pairing |
| DebounceTable.Debouncer.GetSlot | components/events/dd_event.c:38-63 | finds the peer's slot, else takes a free one, else the one whose newer stamp is oldest |
| DebounceTable.Debouncer.Admit | components/events/dd_event.c:181-197 | an event is let through, and its stamp set, unless the peer's stamp of that kind is less than 10 s old |
| Debounce.TableIsLru | components/events/dd_event.c:38-63 | under a strictly increasing positive timer a peer is in the table if and only if fewer than four other peers were accepted since its own latest accepted event |
| Debounce.DroppedOnlyAfter | components/events/dd_event.c:185-196 | an event is dropped only if an accepted one of the same peer and kind lies less than 10 s back |
| Debounce.DroppedExactly | components/events/dd_event.c:185-196 | it is dropped if and only if there is such an event and its peer has kept its slot since |
| Debounce.CloseEventsNeedFourOthers | components/events/dd_event.c:38-63 | two accepted events of one peer and kind within 10 s imply that at least four other peers were accepted in between |
| Debounce.NeverDroppedAfterWindow | components/events/dd_event.c:185-196 | an event at least 10 s after every earlier call of its peer and kind is never dropped |
| LatestEvents.LatestForPeers | components/events/dd_event.c:150-170 | one pass over the log gives every peer what a scan for it alone gives; beyond eight peers the entries are left untouched |
| LatestEvents.ScanFindsWinner | components/events/dd_event.c:102-148 | for any mixture of known and unknown times, the entry is the unique winner among the peer's lines, and there is none only if the peer has no line |
| LatestEvents.SyncedLookup | components/events/dd_event.c:131-138 | with all times known the answer is the line with the greatest (ts, mono_us), the earliest on ties |
| LatestEvents.UnsyncedLookup | components/events/dd_event.c:131-138 | if the peer's last line has no known time, that line is the answer |
| Session.RunCalm | components/ble/dd_ble.c:138-437 | in a run without wipe or revoke, with a synced tick no later than the timeout (the shortest it is set to) plus 1 ms less 10 s after the boot and the wall clock known from then on, a peer is acknowledged only while present, a present peer that is not acknowledged has no earlier event, and every peer's calls are alternating and spaced; behind a synced tick, present and acknowledged coincide |
| Session.EventsAlternate | components/ble/dd_ble.c:172-186 | in such a run OUT follows IN (or a resumption) and IN follows OUT or nothing, for every peer |
| Session.NothingSwallowed | components/events/dd_event.c:181-197 | in such a run the 10 s debounce lets every presence event through |
| LateSync.SecondInAcceptedIff | components/ble/dd_ble.c:172-186 | that bound is exact for every timeout: a peer seen at boot, given up and seen again has its second IN accepted if and only if the first synced tick comes no later |
| LateSync.DepartureForgotten | components/ble/dd_ble.c:401-435 | a resumed peer that is given up before the wall clock is known leaves no OUT, and its next sighting records IN behind the IN of the log |
| WipeReemission.WipeReemits | components/ble/include/dd_ble.h:56-60 | the next synced tick after a wipe records IN again for every present peer |
| WipeReemission.ReemissionAccepted | components/ble/include/dd_ble.h:57-59 | in any run: for a peer that stays present from a wipe to some later synced tick, whatever happens between, an IN is recorded since the wipe, and it is accepted if and only if no accepted IN of the peer less than 10 s old still holds its debounce slot |
| WipeReemission.ReemissionSwallowed | components/events/dd_event.c:185-196 | a run of boot, sighting, wipe and tick whose IN after the wipe is dropped |
| Lifetimes.LookupIsLast | components/events/dd_event.c:102-148 | with increasing times the lookup at a boot answers IN if and only if the peer's last line is an IN |
| Lifetimes.BootResumes | components/ble/dd_ble.c:725-741 | a boot resumes exactly the peers whose last line in the file is an IN |
| Lifetimes.LogAlternates | components/storage/dd_storage.c:121-157 | over any number of undisturbed boots, each resuming from the file it finds, with rotations dropping any of the oldest lines at any step: the lines of every peer in the file alternate IN and OUT, and every OUT ever written follows an IN of its peer |
| Numbering.LinesNumbered | components/events/dd_event.c:204-214 | over such a life every line ever written carries the id under which its peer is registered, through registrations and reboots of the registry, and no more than eight peers have lines in the file |
| Numbering.IdsDiffer | components/workers/dd_worker.c:131-144 | different registered peers have different ids |
| EndToEnd.ReportOfLife | components/http_app/dd_http_attendance.c:388-459 | presence, resumption, debounce, rotation, worker registry and the sixteen-slot fold together: the paired view of the file shows for each registered peer one closed segment per OUT, without an OUT that leads its lines, an open one exactly if its last line is an IN, with exactly the times of its other lines in order |
| EndToEnd.OrphanRotated | components/storage/dd_storage.c:67-119 | an OUT leads a peer's lines only if the last line of the peer that was rotated away is an IN |
| EndToEnd.EveryPeerReported | components/events/dd_event.c:204-214 | every peer with a line in the file is registered, so the report speaks of it |
| SampleLife.TwoBootsLived | components/ble/dd_ble.c:725-741 | a life of two boots meets everything these theorems ask, with and without a rotation of the IN: the peer comes in before the restart, is resumed, and its OUT is logged after it under the same worker id |
| EndToEnd.LogIsRoomy | components/http_app/dd_http_attendance.c:299-305 | fewer than sixteen peers never fill the sixteen slots of the fold, and every line names a worker |
| Pairing.PairContext.Iterate | components/http_app/dd_http_attendance.c:388-459 | an IN closes a forgotten one and opens a slot, evicting the oldest if none is free; an OUT closes the IN with its worker id, or its address if the line has no id |
| Pairing.PairedView | components/http_app/dd_http_attendance.c:524-528 | one pass over the log and the flush of the open slots |
| Pairing.EvictsOldest | components/http_app/dd_http_attendance.c:433-440 | an IN for which no slot is free replaces an open IN that is no younger than any other, and nothing is emitted |
| Pairing.EveryInIsEmitted | components/http_app/dd_http_attendance.c:388-459 | for any log, the number of INs is the number of emitted segments plus the evicted INs plus those whose derived time is 0 |
| PairingPerWorker.TableRefinesOwn | components/http_app/dd_http_attendance.c:286-305 | with nonzero ids and fewer than sixteen others in whenever someone comes in, each worker's segments are those of its own events alone, in order |
| PairedLines.SegmentsTell | components/http_app/dd_http_attendance.c:388-459 | under the same conditions a worker's segments are exactly one for each of its INs that has a time, in order: with that line's address, its wall-clock time or else its monotonic one in seconds, and the first 15 characters of its source; with the time and the source of the worker's next line if that is an OUT, open otherwise |
| PairedByAddress.AddressesTell | components/http_app/dd_http_attendance.c:286-297 | the same for each address when lines have no worker id, or only those of some addresses have one |
| TodayView.TodayContext.Iterate | components/http_app/dd_http_attendance.c:679-732 | a line updates its worker's entry, created on first sight and dropped when sixteen exist; durations outside (0, 86400) are not credited, with the 32-bit cast of the difference |
| TodayView.TodaySummary | components/http_app/dd_http_attendance.c:734-756 | the summary is the fold with the still-open interval added |
| TodayLines.SummaryTells | components/http_app/dd_http_attendance.c:663-756 | the shown entry of a worker has the address of its first line of the day, the number of its OUTs that follow an IN, the sum of the seconds between these where they lie strictly within a day, plus those of the stay that still lasts, and is currently in if and only if its last line is an IN; for times of one stay that differ by less than 2^31 s |
| TodayLines.CreditWraps | components/http_app/dd_http_attendance.c:722-724 | whatever the times, an interval is credited with its length modulo 2^32 if that is less than a day, and with nothing otherwise |
| TodayByAddress.AddressesListed | components/http_app/dd_http_attendance.c:663-677 | when lines have no worker id the list is, entry by entry, that of the log in which each address has a number |
| TodayView.FoldLists | components/http_app/dd_http_attendance.c:663-677 | for any log whose lines name workers, the list is the own summaries of the first sixteen workers in order of appearance |
| TodayView.EveryoneListed | components/http_app/dd_http_attendance.c:663-677 | with at most sixteen workers each one is listed with the summary of its own events |
| TodayView.ViewsAgree | components/http_app/dd_http_attendance.c:663-732 | today and the paired view agree: closed segments, credited seconds, and `currently_in` exactly when the flush emits an open segment |
| TodayView.WithinTheDay | components/http_app/dd_http_attendance.c:747-753 | with events in order between midnight and now, the total including the open interval is at most now - midnight |
| JsonText.KeyOnlyAtField | components/events/dd_event.c:199-225 | in a printed object a quoted key occurs only as the key of a field of that name, whatever the string values contain |
| JsonText.EscapeIsSafe | components/events/dd_event.c:221-223 | an escaped string (section 7 of RFC 8259) has no bare quote and no newline |
| EventText.WorkerTestExact | components/storage/dd_storage.c:320-334 | the textual test of the delete by worker holds of a written line if and only if its worker id is the argument |
| EventText.TimesTestExact | components/storage/dd_storage.c:395-409 | for times that cJSON prints digit by digit, the test of the delete of one event holds if and only if both times are equal to the arguments |
| EventReader.StringBack | components/events/dd_event.c:221-223 | any string, escaped and quoted, is read back as it was |
| ReadBack.EventBack | components/events/dd_event.c:199-225 | a written event is read back member by member: both times, the type and the source by their names, the address, the worker id unless it is 0, the reason of an OUT, and the note |
| ReadBack.LineBack | components/http_app/dd_http_attendance.c:391-423 | what the readers take from a written event is its kind, times, worker id, address and source |
| ReadBack.LineOfBack | components/events/dd_event.c:199-225 | the line with which the life of the log is told is what the readers see of the written BLE event, whatever its reason and note |
| ReadBack.StoreBack | components/storage/dd_storage.c:171-191 | after any run of the store the readers see, line by line, the events that the file stands for |
| EventStore.RenderNewlineFree | components/events/dd_event.c:199-225 | a written event is one line even if its note holds newlines |
| StoreText.IteratesLines | components/storage/dd_storage.c:171-191 | iteration passes on exactly the lines, up to 1024 characters each |
| StoreText.DeletesLines | components/storage/dd_storage.c:317-339 | a delete works line by line when lines have at most 1022 characters |
| StoreText.KeptCountExact | components/storage/dd_storage.c:317-339 | for any file, the count a delete leaves exceeds the newlines it keeps by the unterminated chunks it keeps |
| StoreText.RotatedLines | components/storage/dd_storage.c:67-119 | size rotation keeps a whole-line suffix of length between half - 1025 and half |
| TimeRotation.TimeRotationExact | components/storage/dd_storage.c:217-290 | time rotation leaves the log without its longest prefix of lines older than the cutoff, for lines of any length, and removes the file exactly if all are older |
| TimeRotation.KeepOffsetExact | components/storage/dd_storage.c:226-239 | the offset found in 511-character chunks is the start of the first line that is new enough |
| TimeRotation.EventDated | components/storage/dd_storage.c:211-215 | of the chunks of a written event only the first parses as dated, with the event's time |
| EventStore.StepRefines | components/storage/dd_storage.c:121-446 | each operation on the bytes is the operation on the list of events, with the cached count; for lines of any accepted length, but for deletes from a log that holds a line of 1023 or 1024 characters |
| EventStore.RunRefines | components/storage/dd_storage.c:121-205 | after any run of such operations, renames failing or not, the file is the concatenation of the surviving events, the count is their number and iteration yields them |
| EventStore.RotationsDropOldest | components/storage/dd_storage.c:67-290 | in any run of appends, rotations of both kinds and boots the log is at every moment everything appended without some of its oldest events, and what is dropped never comes back |
| EventStore.WithoutKeeps | components/storage/dd_storage.c:317-366 | the events left by a delete are all those not selected, and no others, in the old order |
| EventStore.AppendKeepsAll | components/storage/dd_storage.c:129-135 | as long as the file has at most 512 KiB an append drops nothing |
| EventStore.FailedRenameKeeps | components/storage/dd_storage.c:350-366 | without a successful rename a delete or a rotation takes nothing out, unless it takes everything; an append still appends |
| EventStore.SizeBounded | components/storage/dd_storage.c:129-135 | whatever is appended, if the renames of rotations succeed the file never exceeds 512*1024 + 1025 bytes |
| StoreText.DeletesAny | components/storage/dd_storage.c:317-366 | for any file of appended lines: what the copy loop keeps is the surviving lines and the stubs of deleted long ones, and every long line adds one to the count |
| Deletes.DeleteByWorkerRightIff | components/storage/dd_storage.c:297-371 | when a worker's events are deleted, the file holds exactly the others' events and the count is their number if and only if no event of the old file, kept or deleted, prints to 1023 or 1024 characters; the count is too high by the number of such events |
| Deletes.DeleteOneRightIff | components/storage/dd_storage.c:373-446 | the same of deleting one event by its two times |
| Deletes.KeptLongCountedTwice | components/storage/dd_storage.c:317-366 | deleting a short event beside a long one leaves one event and a count of two |
| Deletes.DeletedLongLeavesStub | components/storage/dd_storage.c:317-366 | deleting a long event leaves an empty line or a brace in the file and a count of one |
| Deletes.LongEventsExist | components/storage/dd_storage.c:121-125 | notes make events of any length up to the longest line that is accepted |
| EventFile.EventFile.Append | components/storage/dd_storage.c:121-157 | the append with its size check is the specified change of file and count; empty and overlong lines are refused |
| EventFile.EventFile.Iterate | components/storage/dd_storage.c:171-191 | the `fgets` loop passes on the stripped nonempty chunks until the callback stops it |
| EventFile.EventFile.DeleteByWorker | components/storage/dd_storage.c:297-371 | the copy loop, the drop test and the final rename, removal or no change |
| EventFile.EventFile.DeleteOne | components/storage/dd_storage.c:373-446 | the same for one event; a failed rename changes nothing |
| EventFile.EventFile.RotateByTime | components/storage/dd_storage.c:217-290 | scan, copy and rename; a cutoff that is not positive is refused, a failed rename changes nothing |
| EventFile.EventFile.RotateBySize | components/storage/dd_storage.c:67-119 | skip to the cut, past the partial line, copy the rest |
| EventsPage.EventsGet | components/http_app/dd_http_attendance.c:87-153 | without offset or date `limit` matching lines are sent from the counted number less `limit` on, which are the newest ones if the cached count is right; otherwise `limit` of them from the offset, or the whole day |
| EventsPage.TailPage | components/http_app/dd_http_attendance.c:132-142 | a count that is too high by some excess makes the page the newest `limit` less the excess, if there are more lines than fit |
| PageOfEvents.EventsSent | components/http_app/dd_http_attendance.c:87-153 | for any run of the store and any request: with a date the events of the day from that midnight on, without one the newest, or those from the offset on, 200 of them or as many as asked for from 1 to 5000; only those of the worker if one is named |
| EventsPage.PageContext.Iterate | components/http_app/dd_http_attendance.c:54-85 | the callback keeps the page of the matching lines seen so far and stops only when the page is full |
| EventsPage.PageOfRun | components/http_app/dd_http_attendance.c:132-142 | after any run of the store whose deletes meet no line of 1023 or 1024 characters the cached count is right, so the unfiltered page is the newest events |
| WorkerTable.Table.Init | components/workers/dd_worker.c:102-129 | loading at boot is the specified scan of the key/value store |
| WorkerTable.Table.LookupOrCreate | components/workers/dd_worker.c:146-194 | an address's worker is found or created with the next id and a stub name and written through; 0 if the table is full |
| WorkerTable.Table.Update | components/workers/dd_worker.c:212-249 | name and category are cut to their buffers; blank names, id 0 and unknown ids are refused |
| WorkerTable.Table.Delete | components/workers/dd_worker.c:251-286 | the key is erased and the last slot moved into the hole |
| WorkerTable.Table.Restore | components/workers/dd_worker.c:306-337 | a worker is put under its own id, raising the next id if needed; refused when full |
| WorkerTable.Table.Wipe | components/workers/dd_worker.c:339-360 | all keys below the next id and the next id itself are erased |
| WorkersReboot.RebootFindsTheSame | components/workers/dd_worker.c:102-129 | after every run of creates, updates, deletes, restores, wipes and reboots, a reboot finds the same workers and next id as RAM; ids are distinct and in [1, next id) |
| WorkersReboot.NeverReused | components/workers/dd_worker.c:161-181 | a created worker's id was held by no worker since the last wipe, deleted ones included (the header's comment on deletion says otherwise) |
| WorkersReboot.LookupStable | components/workers/dd_worker.c:146-151 | looking an address up again gives the same id and changes nothing |
| WorkersReboot.CreatedSurvivesIff | components/workers/dd_worker.c:176-181 | a created worker survives a reboot if and only if it did not get id 65535, after which the 16-bit next id wraps to 0 |
| WorkersReboot.RestoredSurvivesIff | components/workers/dd_worker.c:329-333 | a restored worker survives a reboot if and only if its id is below 65535 |
| WorkerContents.DeleteRemoves | components/workers/dd_worker.c:251-286 | a delete takes the worker with that id out of RAM, of the store and of what the next boot finds, and nobody else |
| WorkerContents.UpdateChanges | components/workers/dd_worker.c:212-249 | an update changes that worker's name and category alone, each to the first 31 or 15 characters of its own argument if there is one; a blank name or an unknown id changes nothing |
| WorkerContents.LookupAdds | components/workers/dd_worker.c:146-194 | the id returned is that of a worker with the address; only if there is none and fewer than 32 workers, a new one is added with the next id, the address, no category and a stub name that reads back as the id and the last byte of the address |
| WorkerContents.RestorePuts | components/workers/dd_worker.c:306-337 | a restored worker is there as given under its own id, nobody else is touched, and the next id is above it |
| WorkerContents.WipeEmpties | components/workers/dd_worker.c:339-360 | a wipe leaves nobody, in RAM, in the store and after a reboot, and the next id is 1 |
| Dns.SkipQname | components/captive_portal/dd_captive.c:54-63 | the loop's result is the end of the name, or -1; no read is outside the message |
| Dns.SkipsName | components/captive_portal/dd_captive.c:54-63 | what is skipped is an encoded name of labels of 1 to 63 bytes (section 4.1.2 of RFC 1035) |
| Dns.NameSkipped | components/captive_portal/dd_captive.c:54-63 | every encoded name is skipped exactly to its end |
| Dns.BuildResponse | components/captive_portal/dd_captive.c:65-108 | an answerable query that fits gets exactly the response in the front of the buffer; any other gets -1 and an untouched buffer |
| DnsMessage.AnswerableIsQuery | components/captive_portal/dd_captive.c:65-75 | the queries that are answered are those with one question in the standard form |
| DnsMessage.ResponseDecoded | components/captive_portal/dd_captive.c:80-107 | an independent reader finds the query's id and question, and for type A exactly one A/IN answer whose pointer resolves to the question's name, with 4 bytes of address; SERVFAIL and no record for other types |
| LogRing.Ring.Write | components/log_buf/dd_log.c:31-52 | after any writes and clears the ring holds the last 65536 characters written since the last clear; oversized writes and both wrap cases included |
| LogRing.Ring.ReadTail | components/log_buf/dd_log.c:85-102 | a read returns exactly the last min(cap, 65536, length) characters of that stream |
| LogRing.Ring.Clear | components/log_buf/dd_log.c:104-111 | a clear empties the stream |
| LogRing.WrittenAround | components/log_buf/dd_log.c:43-51 | a write, straight or wrapped, drops the oldest places of the ring and appends |
| LogRing.ReadIsTail | components/log_buf/dd_log.c:90-99 | the one or two copies of a read are the last places of the ring in order, and leave the rest of the buffer alone |

## Left out

- NimBLE, NVS, LittleFS and cJSON: only their effect on the radio, a map, a character sequence and the text of a flat object is modelled. Parsing a line is a parameter or already done.
- Address types of peers, the promotion of a resolvable address to an identity address and connection parameters: they do not affect the slots' flags and times.
- Resets of the Bluetooth host during a run: a run starts at the boot that synchronises it.
- Concurrency of tasks: `dd_worker_lookup_or_create` unlocks between looking and creating, and the log and store take locks; the model runs one call after another.
- Short writes, failed opens and failed key/value writes: operations succeed, except that the rename of a copied file may fail.
- The value of `atoll` beyond 64 bits: unbounded here; and 32-bit overflow of a day's total, which needs more than 24,000 credited segments.
- HTTP transport, authentication, CSV export, the calendar view and the formatting of replies: they repeat the folds or only print.
- Pairing, bonds' security, WiFi, time sync, LEDs, OTA updates, backups and diagnostics: not part of the attendance pipeline.
- The manual web and button events: they pass the debounce untouched, and appear only as lines of the log and as events of the store.
- Names longer than 255 bytes in DNS queries: the code accepts them, and so does the model.
- Session.NothingSwallowed: excludes wipes, revokes and a wall clock that becomes known later than the bound or is lost again, with which a late IN can lie within 10 s of the next one; the orphan and premature OUT properties hold with all of these.
- Lifetimes.LogAlternates: is stated for lives whose runs are undisturbed in that sense and whose file holds only the BLE events of these runs, rotated in any way; manual events and deletes can break the alternation.
- Numbering.LinesNumbered: starts from any registry with distinct addresses and room for the peers that get lines, and leaves out restores and deletes of workers during the life.
- TodayLines.SummaryTells: asks that the times of one stay differ by less than 2^31 s; beyond that the 32-bit cast of the code wraps, as `TodayLines.CreditWraps` states.
- ReadBack.LineBack: is about printed events; other JSON, with fractions, nested values or names in other letter cases, is not read by this reader.
- TodayView.FoldLists: needs every counted line to name a worker; lines with neither worker id nor address each take an entry of the list in the code and in `TodayView.OnLine`.
- EventStore.RunRefines: excludes deletes from a log that holds a line of 1023 or 1024 characters, for which they go wrong as shown above.
- EventText.TimesTestExact: is stated for times below 10^15, beyond which cJSON prints other text than the digits.
