# A verified model of the RuuviLogCollector BLE scanner

`src/main.cpp` is a Bluetooth Low Energy scanner built on the BLE++ library.
It reads its command-line flags and starts a scan of advertising reports. It
then waits on the scanner in an endless loop. A timeout animates a throbber.
A batch of advertising records is described on the console: device address
and kind of advertisement, local name, RSSI and advertised services. When a
record advertises the target service, the tag workflow `handle_ruuvi` starts.
That workflow connects, discovers all services and characteristics, and looks
for the Device Name characteristic (UUID 2a00). If it finds one, it reads it
and shows the name; otherwise it reports the miss. In both cases it closes the
session.

The model keeps the decision rules of that program and leaves the I/O outside:

- `ble.dfy`, module `Ble`: optional values, UUIDs by their 128-bit value, with
  16-bit UUIDs placed into the Bluetooth Base UUID (Bluetooth Core
  Specification, Vol 3, Part B, section 2.5.1), and device addresses.
- `options.dfy`, module `Options`: the `getopt` loop over the flags
  `sHbdhp`. `ParseOptions` is the loop as written, with the scan type and
  filter updated in place. It is proved equal to the fold `Parse`, and the
  lemmas state what the fold yields.
- `advertising.dfy`, module `Advertising`: the label of each advertising event
  type and the three-way RSSI rule on a signed byte.
- `scan_loop.dfy`, module `ScanLoop`: the `while (1)` loop of `main`.
  - Each wake-up of the wait is `Interrupted`, `Ready(records)` or `Timeout`.
  - The console lines and the calls of the tag workflow are recorded as one
    trace of events.
  - `RunLoop`, `ProcessBatch` and `ProcessRecord` are the loops as written,
    and `Turn` is the branch on one wake-up. They are proved equal to trace
    functions, and the lemmas state which workflow calls the trace contains.
- `gatt_workflow.dfy`, module `GattWorkflow`: the discovery callback
  `found_services_and_characteristics_cb`, the read callback, the actions of
  one session and the disconnect callback.
  - `FindDeviceName` is the nested search as written; the `goto` becomes an
    early return.
  - It is proved equal to a first-match function and to the trace of the
    service and characteristic lines it prints.
  - A whole session, apart from the scan loop that starts it, is modelled by
    `SessionActions`.

The UUID of the target service (`nordic_uart_service_guid`) is defined in
`constants.h`, which is not part of this model. Every member that needs it
takes it as the parameter `target`.

## Model

| member | source | states |
|---|---|---|
| `Options.ParseOptions` | src/main.cpp:99-131 | The in-place option loop returns exactly what the fold `Parse` yields for the same flags, including the early exits. |
| `Options.FoldRunsIffAllSetting` | src/main.cpp:110-131 | Parsing runs to the end (no exit) if and only if every flag is one of `p`, `s`, `H`, `b`, `d`. |
| `Options.FoldStopsAtFirst` | src/main.cpp:122-131 | The first flag that is not a setting flag ends parsing, whatever follows it: exit code 0 for `h`, 1 for anything else. |
| `Options.FoldScanType` | src/main.cpp:112-113 | After a full run the scan type is passive if `p` occurs among the flags, and otherwise unchanged. |
| `Options.FoldLastFilterWins` | src/main.cpp:114-121 | After a full run the filter mode is the one chosen by the last of `s`, `H`, `b`, `d` given. |
| `Options.FoldKeepsFilter` | src/main.cpp:114-121 | Without any filter flag the filter mode stays as it was. |
| `Options.ParseFromDefault` | src/main.cpp:99-121 | Starting from an active scan with software filtering, the scan is passive exactly when `p` was given, and the filter stays software when no filter flag was given. |
| `Advertising.KindOf` | src/main.cpp:176-185 | The label is "Scan response" exactly for event types that are not one of the four advertising PDUs. |
| `Advertising.KindsDistinct` | src/main.cpp:176-183 | The four advertising PDUs get four different labels. |
| `Advertising.AsUnsignedByte` | src/main.cpp:193 | The cast to `uint8_t` gives a byte below 256 with the same bits (congruent modulo 256). |
| `Advertising.ClassifyRssi` | src/main.cpp:188-193 | Exactly one case for every signed byte: 127 is unavailable, every value up to 20 (negatives included) is that many dBm, and 21 to 126 is the raw byte labelled unknown. |
| `Advertising.RssiBoundaries` | src/main.cpp:188-193 | The rule at -128, 0, 20, 21, 126 and 127. |
| `ScanLoop.ProcessRecord` | src/main.cpp:174-199 | The lines and workflow calls for one record are its header (kind, optional name, RSSI) followed by one service line per UUID, each followed by a workflow call when it is the target. |
| `ScanLoop.ProcessBatch` | src/main.cpp:170-200 | A ready batch yields the records' traces one after the other, in delivery order. |
| `ScanLoop.Turn` | src/main.cpp:167-203 | A turn that was not interrupted describes the ready records, or shows throbber frame `i mod 4` on a timeout. |
| `ScanLoop.RunLoop` | src/main.cpp:148-205 | The loop ends at the first interrupt; the counter then equals the number of turns before it, none of which was interrupted, and the output is the trace of those turns, turn `k` numbered `k`. |
| `ScanLoop.UuidCalls` | src/main.cpp:195-199 | Within one record the workflow is called with the record's address once per occurrence of the target among its UUIDs, never when it is absent; a match does not end the loop. |
| `ScanLoop.RecordCalls` | src/main.cpp:174-199 | The calls made for a whole record are those of its UUID list; its header lines make none. |
| `ScanLoop.RecordCallsOnceIfListedOnce` | src/main.cpp:195-199 | A record that lists each UUID once calls the workflow exactly once if it advertises the target, and never otherwise. |
| `ScanLoop.RecordsCallsInOrder` | src/main.cpp:172-200 | The calls for a batch are the records' calls in delivery order. |
| `ScanLoop.LoopCalls` | src/main.cpp:149-205 | Over the whole loop, the loop hands the workflow exactly the addresses `ExpectedCalls` lists: for each ready batch in turn and each record in delivery order, its address once per occurrence of the target; interrupts and timeouts add none. |
| `ScanLoop.UuidEventsKinds` | src/main.cpp:195-199 | The service list of a record consists only of service lines and workflow calls. |
| `ScanLoop.NameLineIffLocalName` | src/main.cpp:186-187 | A record gets a name line if and only if it carries a local name, and that line shows the name. |
| `ScanLoop.TimeoutsAnimateThrobber` | src/main.cpp:202-204 | A run of timeouts cycles through the four throbber frames in order: turn `k` shows frame `k mod 4`. |
| `GattWorkflow.NameIndexFrom` | src/main.cpp:46-48 | The first characteristic at or after a position whose UUID is 2a00; none exactly when there is no such characteristic. |
| `GattWorkflow.FirstNameFrom` | src/main.cpp:44-48 | The first Device Name characteristic, in discovery order, among the services from a given index on; none exactly when there is none. |
| `GattWorkflow.FirstDeviceName` | src/main.cpp:44-62 | None exactly when no characteristic is Device Name; otherwise the first one in discovery order (services in order, characteristics in order within a service). |
| `GattWorkflow.FirstServiceWins` | src/main.cpp:44-59 | When two services both hold a Device Name characteristic, the one met first is chosen, never the later one. |
| `GattWorkflow.WalkCharacteristics` | src/main.cpp:46-61 | The inner loop finds the first Device Name characteristic of a service and prints the lines up to and including it, or all lines when there is none. |
| `GattWorkflow.StopsInService` | src/main.cpp:48-59 | A match found in the current service, with none before it, is the first match, and the search trace ends with it. |
| `GattWorkflow.PassesService` | src/main.cpp:46-62 | A service without a match leaves the first match to the services after it. |
| `GattWorkflow.FindDeviceName` | src/main.cpp:43-68 | The nested search returns the first Device Name characteristic, prints exactly the trace `VisitTrace`, and then either attaches the reader and issues one read there, or reports the miss and closes. |
| `GattWorkflow.CharVisitHasSource` | src/main.cpp:45-47 | A characteristic line is printed only for a characteristic that some service holds. |
| `GattWorkflow.NoNameLineBefore` | src/main.cpp:44-59 | No Device Name line is printed before the first Device Name characteristic. |
| `GattWorkflow.WalkToIsPrefix` | src/main.cpp:44-59 | A walk stopped after any characteristic prints a prefix of the full walk. |
| `GattWorkflow.WalkEndsAtFirstName` | src/main.cpp:47-59 | The walk up to the first Device Name characteristic ends with its line and holds no earlier Device Name line. |
| `GattWorkflow.VisitTraceStopsAtFirstName` | src/main.cpp:44-59 | The printed trace is a prefix of the full walk: all of it without a match, otherwise the prefix ending at the first Device Name line, which occurs in it only once. |
| `GattWorkflow.DecodeName` | src/main.cpp:53-54 | The shown name has one character per byte of the response, each with that byte's value. |
| `GattWorkflow.DiscoveryActions` | src/main.cpp:48-67 | The discovery callback issues a read exactly on a hit, at the found characteristic and right after attaching the name reader there; on a miss, and only then, it reports "No device name found." and then requests close, and does nothing else. |
| `GattWorkflow.NameReadActions` | src/main.cpp:50-56 | The read callback shows the name, one character per response byte with that byte's value, and then closes. |
| `GattWorkflow.SessionActions` | src/main.cpp:43-91 | A session connects first and only once; it ends with close exactly when there was no match or the read was answered, and an answered read shows the decoded name just before that close. |
| `GattWorkflow.DecodeKeepsBytes` | src/main.cpp:53-54 | Decoding loses nothing: encoding the decoded name gives back the response bytes. |
| `GattWorkflow.SessionReadsOnce` | src/main.cpp:43-91 | In one session a read is issued if and only if some characteristic is Device Name, at most once, and on the first such characteristic. |
| `GattWorkflow.SessionClosesOnce` | src/main.cpp:50-67 | Close is requested at most once; with no match it is requested by the discovery callback; with a match only the read callback requests it, right after showing the name. |
| `GattWorkflow.OnDisconnect` | src/main.cpp:78-87 | The callback returns 0 exactly for a normal close and 1 for every other reason, and it logs the reason exactly in the second case. |

## Left out

- The HCI scanner, its construction, `get_fd`, `get_advertisements` and the `select` on its descriptor are I/O. Each wait is given to the model as its outcome (`Wake`).
- `select` failing with an error other than `EINTR` is not modelled. The source then tests the descriptor set as on any other return.
- Signal installation and `catch_function`, the cursor escape codes, the help text, the `log_level` settings and the exact text `to_str` and `to_hex` produce are console plumbing. Lines are recorded as events that carry their values.
- ScanLoop.RunLoop: the source loops forever. The model runs over a finite list of wake-ups and also stops when the list runs out.
- ScanLoop.RunLoop: the counter `i` is a 32-bit `int` in the source and would overflow after 2^31 turns. The model counts with an unbounded `nat`.
- `handle_ruuvi` ends in a `for(;;)` pump that never returns. In the running program only the first workflow call is therefore ever reached. The model records every call the loop structure makes, as a `HandleTag` event, and does not run the workflow inside the loop.
- `BLEGATTStateMachine` internals are library code: `connect_blocking`, `setup_standard_scan`, `read_and_process_next`, `close` and the decoding of the read response PDU. The model records the calls as actions.
- The response bytes are an input of the model.
- GattWorkflow.SessionActions: assumes the connection succeeds and discovery completes. A failed `connect_blocking` or a link lost before discovery completes is not modelled; in such a session the discovery callback never runs and the workflow never asks to close.
- The disconnect callback's return value is ignored by the library. The model keeps it as the result of `OnDisconnect`.
- Disconnect reasons other than a normal close are not told apart; the model keeps their code.
- The value of the target service UUID comes from `constants.h`, which is not part of this model. It is a parameter.
- UUID equality is modelled as equality of 128-bit values, with 16-bit UUIDs expanded through the Base UUID. BLE++'s own comparison is not part of this model.
- Two behaviours are kept as the code has them:
  - every RSSI value up to 20, negatives included, is shown in dBm;
  - a record whose UUID list repeats the target calls the workflow once per occurrence. With each UUID listed once this is "exactly once per record" (`RecordCallsOnceIfListedOnce`).
