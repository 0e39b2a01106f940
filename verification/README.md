# Barebot, blinker and haiku firmware: a Dafny model

This project models the decision logic of three homework-style
firmware projects for a BLE-capable microcontroller board:

- **Barebot GATT profile.** The server's attribute table and its read and write callbacks (`GattProfile`).
- **Barebot central.** The remote's search for a device name in advertising data (`AdvName`), its GAP connection bookkeeping, its scanner callback and its stack-message dispatch (`CentralGap`).
- **Barebot UI.** The remote's key-driven screen-state machine (`BarebotUI`).
- **Haiku viewer.** The keypad haiku viewer: key decoding, the constant haiku tables and the event-queue drain (`HaikuApp`).
- **Peripherals.** The two peripheral tasks, the LED blinker and the barebot server (`Peripheral`). They share the single-connection handle bookkeeping of `BleEvents` and the message-queue helper of `MsgQueue`.

Things outside the firmware become parameters or emitted actions:
- **Stack, driver and display calls** (GapScan_*, GapAdv_*, GATT_Notification, Display, BarebotUI_read/write, ICall_free) become action labels emitted in call order.
- **Memory allocation and queue acceptance** are boolean parameters.
- **C integer widths** are subset types. Their truncations are written out: `(uint8_t)(word >> 8)` is `(word / 256) % 256`, and int8_t arithmetic wraps modulo 256.
- **Constants taken from outside the source**:
  - Stack status codes: SUCCESS 0, FAILURE 1, bleMemAllocError 0x13.
  - ATT error codes: section 3.4.1.1 of Vol 3, Part F of the Bluetooth Core Specification.
  - AD types 0x08 and 0x09: section 1.2 of Part A of the Core Specification Supplement.
  - LINKDB_CONNHANDLE_INVALID 0xFFFF, the HCI hardware-error code 0x10, and the scanner and advertiser event bits (bit 22 for advertising reports, bit 31 for insufficient memory).

Where the design notes of the project and the code disagree, the model follows the code:
- There is no scan → connect → discover state machine in the central; only its GAP handling exists.
- The write callback rejects the speed-update and turn-update UUIDs instead of applying deltas.
- A value write must be exactly one byte, not the characteristic's declared length.

## Model

| member | source | states |
|---|---|---|
| GattProfile.TableIsOneToOne | ee110b_hw6_barebot_server/Application/barebot_gatt_profile.h:33-57 | IDs 0-4 and UUIDs 0xFFF1-0xFFF5 correspond one to one. NO_CHANGE (0xFF) is no ID, and the service UUID 0xFFF0 is no characteristic's UUID. |
| GattProfile.CharOfUuid | ee110b_hw6_barebot_server/Application/barebot_gatt_profile.h:37-57 | A UUID maps to the characteristic that has it, or to none when no characteristic has it. |
| GattProfile.CharOfId | ee110b_hw6_barebot_server/Application/barebot_gatt_profile.h:39-57 | A parameter ID maps to the characteristic that has it, or to none when no characteristic has it. |
| GattProfile.Value | ee110b_hw6_barebot_server/Application/barebot_gatt_profile.h:41-57 | Thoughts, speed and turn storage has the declared lengths 32, 2 and 2. The two update values are single bytes although their characteristics declare 2. |
| GattProfile.SetFirstByte | ee110b_hw6_barebot_server/Application/barebot_gatt_profile.h:127-131 | Replacing the first stored byte of one value characteristic keeps every other characteristic's bytes and all storage sizes. |
| GattProfile.ReadAttr | ee110b_hw6_barebot_server/Application/barebot_gatt_profile.c:80-140 | A non-zero offset gives ATTR_NOT_LONG with no data, before the UUID is looked at. At offset 0 a non-16-bit type gives INVALID_HANDLE and an unlisted UUID gives ATTR_NOT_FOUND, both with no data. Success happens exactly for speed, turn, thoughts and the error UUID, and returns exactly one byte: the attribute's first byte. |
| GattProfile.ReadReturnsStoredByte | ee110b_hw6_barebot_server/Application/barebot_gatt_profile.c:103-111 | A read of speed, turn or thoughts returns the first byte held in that characteristic's storage. |
| GattProfile.WriteAttr | ee110b_hw6_barebot_server/Application/barebot_gatt_profile.c:184-282 | For speed, turn and thoughts the offset is checked first (ATTR_NOT_LONG), then the length must be exactly 1 (INVALID_VALUE_SIZE); only success changes storage, and only that characteristic's first byte. A CCC write returns the stack's status. Other 16-bit UUIDs, the update UUIDs included, give ATTR_NOT_FOUND, and a non-16-bit type gives INVALID_HANDLE. The change callback fires iff a value write succeeded and both the table and the function are registered; it then fires once, with the written characteristic's ID. |
| GattProfile.WriteThenRead | ee110b_hw6_barebot_server/Application/barebot_gatt_profile.c:206-233 | After a successful one-byte write, a read returns the written byte, and the reported change ID names the characteristic written. |
| MsgQueue.Enqueue | ee110b_hw6_barebot_client/Application/barebot_central.c:719-756 | An allocation failure gives bleMemAllocError; a queue refusal gives FAILURE; otherwise SUCCESS. The message is appended exactly on SUCCESS, and the queue is unchanged otherwise. |
| MsgQueue.EnqueueQueuesIffSuccess | glen_blinker_working/Application/blinker_peripheral.c:958-995 | The queue grows iff the status is SUCCESS, and then by exactly the new message at its tail. The three statuses are distinct. |
| MsgQueue.EnqueueAll | ee110b_hw6_barebot_server/Application/barebot_peripheral.c:863-900 | Successive successful enqueues keep FIFO order: old contents, then the new messages in order. |
| AdvName.CopyAsWritten | ee110b_hw6_barebot_client/Application/barebot_central.c:812-824 | The name copy stores min(adLen, maxLen) bytes from after the type byte and never writes past maxLen; the rest of the buffer stays zero. When the copy would read past the data it is an over-read. |
| AdvName.ScanAsWrittenBuffer | ee110b_hw6_barebot_client/Application/barebot_central.c:786-793 | Whenever the function returns without over-reading, the buffer holds maxLen bytes; without a name it is all zero. |
| AdvName.FindDeviceName | ee110b_hw6_barebot_client/Application/barebot_central.c:780-835 | The three loops as written compute the as-written walk: a zero length is consumed alone; the walk stops when the cursor reaches the last byte; the first name structure is copied; other structures are skipped by adLen after the type byte. |
| AdvName.FindNameStandard | ee110b_hw6_barebot_client/Application/barebot_central.c:780-835 | Reference search per section 11 of Vol 3, Part C of the Core Specification: the buffer is maxLen bytes long and all zero when no name is found. |
| AdvName.NameFieldIsNameStructure | ee110b_hw6_barebot_client/Application/barebot_central.c:806-830 | A name the reference parser returns is the data field of a well-formed local-name structure. That structure is reached from the start by hops over whole well-formed structures, none of them a local name. |
| AdvName.NameStructureIsNameField | ee110b_hw6_barebot_client/Application/barebot_central.c:806-830 | Conversely, the first local-name structure reached by such hops is the one the reference parser returns. |
| AdvName.FindDeviceNameCorrected | ee110b_hw6_barebot_client/Application/barebot_central.c:780-835 | The same loop shape computes exactly the reference search once five things change. Three are the Findings below: copy `adLen - 1` bytes, skip `adLen - 1` bytes past the type byte, and return FALSE at the end. Two follow the structure layout of the standard: a zero length byte ends the search, where the code consumes it alone and goes on (lines 805-807), and a structure running past the data ends the search, where the code has no such check. |
| AdvName.NameAtEndOverReads | ee110b_hw6_barebot_client/Application/barebot_central.c:815-822 | When the name structure is last in the data, the copy as written reads past the report, while the standard finds the name. |
| AdvName.CopyTakesNextLengthByte | ee110b_hw6_barebot_client/Application/barebot_central.c:815-822 | When a structure follows the name, the buffer as written holds that structure's length byte right after the name, where the standard leaves 0. |
| AdvName.BPFollowedByFlags | ee110b_hw6_barebot_client/Application/barebot_central.c:815-822 | "BP" followed by a Flags structure reads as "BP\x02" as written and as "BP" under the standard. |
| AdvName.SkipMisaligns | ee110b_hw6_barebot_client/Application/barebot_central.c:826-831 | Skipping a non-name structure lands one byte past the next length octet, while the standard lands on it. |
| AdvName.FlagsThenBPMissed | ee110b_hw6_barebot_client/Application/barebot_central.c:826-831 | Flags followed by the name "BP" is not found as written but found under the standard. |
| AdvName.EmptyDataHasNoReturnValue | ee110b_hw6_barebot_client/Application/barebot_central.c:796-835 | On empty data the function as written falls off its end with no return value; the standard says not found. |
| AdvName.LongFirstNameAgrees | ee110b_hw6_barebot_client/Application/barebot_central.c:806-824 | When the first structure is a name at least as long as the buffer, both fill the buffer with the same bytes. |
| BleEvents.TrackLink | ee110b_hw6_barebot_client/Application/barebot_central.c:569-594 | A successful link-established event stores its handle. A termination of the stored handle resets it to INVALID. Anything else leaves the handle alone. |
| BleEvents.TrackLinksProvenance | glen_blinker_working/Application/blinker_peripheral.c:566-590 | After any run of GAP events the stored handle is either the initial one, INVALID, or the handle of a successful link-established event of that run. |
| BleEvents.TrackLinksAppend | glen_blinker_working/Application/blinker_peripheral.c:566-590 | Processing a run of events and then one more equals one more step from the run's result. |
| BleEvents.EstablishThenTerminate | ee110b_hw6_barebot_server/Application/barebot_peripheral.c:559-583 | A link that is established and then terminated leaves no connection recorded, whatever was recorded before. |
| BleEvents.ForeignEventsKeepHandle | ee110b_hw6_barebot_client/Application/barebot_central.c:569-594 | A failed link attempt, or the termination of another link, leaves the stored handle unchanged. |
| CentralGap.ProcessGapMessage | ee110b_hw6_barebot_client/Application/barebot_central.c:511-604 | Init-done with a failure status does nothing. With SUCCESS it registers the scan callback, masks to advertising reports, and ends by enabling scanning and showing "Scanning...". A successful link stores the handle, disables scanning and shows "stop scan" at (1,0). A termination of the stored handle resets it to INVALID and re-enables scanning; any other termination does nothing. |
| CentralGap.ScanFollowsConnection | ee110b_hw6_barebot_client/Application/barebot_central.c:569-594 | Scanning is disabled iff a link is recorded by the event. It is re-enabled iff the stored link terminated, and then no link is recorded. |
| CentralGap.TerminationOfHandleZeroMatchesInitially | ee110b_hw6_barebot_client/Application/barebot_central.c:67 | The handle starts at 0 (no initialiser), so a termination report for handle 0 before any link restarts scanning. |
| CentralGap.RunGapTracksLinks | ee110b_hw6_barebot_client/Application/barebot_central.c:511-604 | Over any run of GAP messages the central's handle is the shared link bookkeeping's handle, so it is the initial handle, INVALID, or one the stack reported for a successful link. |
| CentralGap.ScanCb | ee110b_hw6_barebot_client/Application/barebot_central.c:667-683 | Only events with the advertising-report bit are forwarded, as BC_EVT_ADV_REPORT. The report is freed exactly when that bit is set and the enqueue fails. |
| CentralGap.ScanCbNoLeak | ee110b_hw6_barebot_client/Application/barebot_central.c:672-681 | A forwarded report structure ends up either queued at the tail or freed, never both and never neither. Its inner advertising-data buffer is not covered; see Left out. |
| CentralGap.ProcessStackMsg | ee110b_hw6_barebot_client/Application/barebot_central.c:352-386 | The handler spins iff it receives an HCI event with the hardware-error status. Otherwise it returns TRUE. GAP messages go to the GAP handler; all other messages change nothing. |
| CentralGap.RunStackTracksLinks | ee110b_hw6_barebot_client/Application/barebot_central.c:352-386 | Over any run of stack messages the task keeps running iff no hardware error arrives. Its handle is then the shared link bookkeeping's handle over the run's GAP events; GATT and other messages never touch it. |
| BarebotUI.HandleKey | ee110b_hw6_barebot_client/Application/barebot_ui.c:362-450 | A row-3 key starts by clearing the display; other rows never clear. The screen state changes only through (3,3), to CONTROL, and (3,2), to THOUGHTS. |
| BarebotUI.MenuKeys | ee110b_hw6_barebot_client/Application/barebot_ui.c:374-416 | (3,3) shows "CONTROL", reads speed then turn and writes nothing. (3,2) shows "THOUGHTS", reads thoughts once and writes nothing. |
| BarebotUI.OtherMenuRowKeysOnlyClear | ee110b_hw6_barebot_client/Application/barebot_ui.c:368-372 | Any other row-3 key only clears the display; the state is unchanged. |
| BarebotUI.ArrowWrite | ee110b_hw6_barebot_client/Application/barebot_ui.c:423-445 | Left and right write the turn update; down and up write the speed update. Left and down write -1. |
| BarebotUI.ControlArrows | ee110b_hw6_barebot_client/Application/barebot_ui.c:421-445 | On CONTROL a key writes iff it is one of the four arrow keys (0,2), (0,1), (0,0), (1,1). It then emits exactly that arrow's write and nothing else. |
| BarebotUI.NoWritesOutsideControl | ee110b_hw6_barebot_client/Application/barebot_ui.c:446-449 | Outside CONTROL (THOUGHTS, or the initial state 0) no key writes. |
| BarebotUI.AtMostOneUnitWrite | ee110b_hw6_barebot_client/Application/barebot_ui.c:425-444 | A key issues at most one write, and its delta is +1 or -1. |
| BarebotUI.ReadsWritesConcat | ee110b_hw6_barebot_client/Application/barebot_ui.c:362-450 | Helper for the handleKey lemmas, not a model of these lines: the reads and writes of two runs of actions are those of the first run followed by those of the second. |
| BarebotUI.WritesAreWriteActions | ee110b_hw6_barebot_client/Application/barebot_ui.c:362-450 | Helper for the handleKey lemmas, not a model of these lines: the writes listed for a run of actions are exactly its write actions. |
| Types.DecodeKey | ee110b_hw6_barebot_client/Application/barebot_ui.c:280 | The key word decodes as row = (uint8_t)(word >> 8) and col = word & 0xFF, which together give back the low 16 bits of the word. The haiku viewer decodes its events the same way (haiku_app.c lines 136-137). |
| Types.KeyWordRoundTrip | ee110b_hw6_barebot_client/Application/barebot_ui.c:476-482 | Decoding a key word built from (row, col) gives back (row, col). |
| Types.DecodeKeyDropsUpperBits | ee110b_hw6_barebot_client/Application/barebot_ui.c:280 | Bits 16-31 of a key word never change the (row, col) it decodes to. |
| BarebotUI.KeyPressed | ee110b_hw6_barebot_client/Application/barebot_ui.c:476-482 | The queued message is a key press carrying the key word unchanged, all 32 bits, so it decodes to the same key. |
| BarebotUI.KeyPressReachesHandleKey | ee110b_hw6_barebot_client/Application/barebot_ui.c:280 | A key press queued for (row, col) reaches handleKey as (row, col), whatever its bits 16-31 hold. |
| BarebotUI.CentralStateName | ee110b_hw6_barebot_client/Application/barebot_ui.c:300-321 | The six named central states get a title; ERROR and unknown states get none. |
| BarebotUI.ProcessUIMsg | ee110b_hw6_barebot_client/Application/barebot_ui.c:269-335 | Key presses go to handleKey. Speed and turn changes display something iff the screen is CONTROL. A central-state change clears the display and shows a title iff the state is named. Only a key press can change the screen. The data is never freed by a defined path: it is an uninitialised read iff the data word is non-zero and the event is known. |
| BarebotUI.RunUIScreens | ee110b_hw6_barebot_client/Application/barebot_ui.c:378-401 | After any run of messages the screen is the starting one, CONTROL or THOUGHTS. Without key presses it is unchanged. |
| HaikuApp.HaikuLayout | ee110b_hw5/haiku_app.h:59-86 | Every part of the four haikus lies on the 4x16 display (row < 4, col + length ≤ 16). Line 3 of each haiku is its source: "3/6/2024" at (1,4), then a non-empty author on row 2. |
| HaikuApp.DrawLine | ee110b_hw5/haiku_app.c:178-181 | Exactly four display calls, one per part, in part order, with length -1. |
| HaikuApp.ProcessEvent | ee110b_hw5/haiku_app.c:134-184 | Rows over 3 show "row error"; otherwise columns over 3 show "col error". A valid key clears the display, then draws line 3 - col of haiku row. The display is cleared iff the key is valid. |
| HaikuApp.EveryKeyDrawsOnScreen | ee110b_hw5/haiku_app.c:178-181 | Every display call any key makes lies on the display. |
| HaikuApp.ColumnZeroShowsSource | ee110b_hw5/haiku_app.c:160-163 | Column 0 of every row shows that haiku's source line: the date at (1,4), then the author on row 2. |
| HaikuApp.KeysCoverLines | ee110b_hw5/haiku_app.c:141-176 | Key (h, 3 - l) selects line l of haiku h, so every line of every haiku is reachable. |
| HaikuApp.RowCheckedFirst | ee110b_hw5/haiku_app.c:141-156 | With both row and column out of range, only "row error" is shown. |
| HaikuApp.Drain | ee110b_hw5/haiku_app.c:124-131 | Queued events are processed in FIFO order. Each is freed right after it is processed. |
| Peripheral.SystemIdLayout | glen_blinker_working/Application/blinker_peripheral.c:519-526 | The system ID is address bytes 0-2, then 0, 0, then address bytes 3-5. |
| Peripheral.SystemIdRoundTrip | ee110b_hw6_barebot_server/Application/barebot_peripheral.c:512-519 | The address can be recovered from the system ID. Every 8-byte value with zero bytes 3 and 4 is a system ID. |
| Peripheral.ProcessGapMessage | glen_blinker_working/Application/blinker_peripheral.c:503-600 | Successful init sets the system ID, then configures and enables the legacy set, then the long-range set. A successful link stores the handle and disables long range, then legacy. A termination of the stored handle resets it to INVALID and enables legacy, then long range. Failures and other events change nothing. |
| Peripheral.StartAdvertisingEnablesBoth | ee110b_hw6_barebot_server/Application/barebot_peripheral.c:508-557 | The start-up sequence enables both advertising sets. |
| Peripheral.LinkEventsKeepAdvertisingIffIdle | ee110b_hw6_barebot_server/Application/barebot_peripheral.c:559-583 | If the peripheral advertises exactly while unconnected, every link event from the stack keeps it that way. |
| Peripheral.BlinkerStartsAdvertisingIdle | glen_blinker_working/Application/blinker_peripheral.c:69 | From its INVALID initial handle, the blinker's start-up establishes "advertising iff unconnected". |
| Peripheral.BarebotTerminationOfHandleZeroMatches | ee110b_hw6_barebot_server/Application/barebot_peripheral.c:70 | The barebot's handle starts at 0, so a termination report for handle 0 before any link matches and re-enables both sets; the blinker ignores it. |
| Peripheral.ProcessStackMsg | glen_blinker_working/Application/blinker_peripheral.c:358-393 | The handler spins iff it receives an HCI event with the hardware-error status, and otherwise returns TRUE. A GATT message only has its payload freed. |
| Peripheral.RunStackKeepsAdvertisingIffIdle | ee110b_hw6_barebot_server/Application/barebot_peripheral.c:359-394 | After start-up, over any run of stack messages the task keeps running iff no hardware error arrives. It then advertises exactly while it has no connection, and its handle is the shared link bookkeeping's handle over the run's GAP events. |
| Peripheral.UpdateGreen | glen_blinker_working/Application/blinker_peripheral.c:860-878 | Nothing is queued without a connection. With one, at most the green-toggle message with byte 0 is queued, exactly when the enqueue succeeds. |
| Peripheral.NoGreenToggleAfterDisconnect | glen_blinker_working/Application/blinker_peripheral.c:579-590 | After the recorded link terminates, updateGreen queues nothing. |
| Peripheral.FreeAfterDispatch | glen_blinker_working/Application/blinker_peripheral.c:459-461 | The data is freed iff it is non-NULL and the handler returned TRUE. The outcome is undefined iff it is non-NULL and the flag was never set. |
| Peripheral.ProcessAdvEvent | glen_blinker_working/Application/blinker_peripheral.c:817-832 | The stack's buffer is freed iff the event is not insufficient-memory, and the handler always returns TRUE. |
| Peripheral.AdvCallback | ee110b_hw6_barebot_server/Application/barebot_peripheral.c:750-776 | Without the data allocation nothing happens. With it, the event (code and stack buffer) is offered to enqueueMsg, so it is queued exactly when the message allocation and the enqueue succeed. The data is freed exactly when it was allocated and enqueueMsg does not return SUCCESS, and then the queue is unchanged. |
| Peripheral.AdvCallbackNoLeak | ee110b_hw6_barebot_server/Application/barebot_peripheral.c:758-771 | Event data the callback allocated is either queued at the tail or freed, never both and never neither. |
| Peripheral.QueuedAdvEventIsReleased | ee110b_hw6_barebot_server/Application/barebot_peripheral.c:811-826 | Once dispatched, a queued advertising event's data is freed, and its stack buffer too unless there is none. |
| Peripheral.BlinkerCharChange | glen_blinker_working/Application/blinker_peripheral.c:687-720 | The red or green LED is set to the new value of the characteristic that changed; other IDs do nothing. It always returns FALSE. |
| Peripheral.BlinkerCharChangeSetsItsLed | glen_blinker_working/Application/blinker_peripheral.c:687-720 | After a change, the LED of that characteristic shows the new value and the other LED is unchanged. A change of any other characteristic changes neither. |
| Peripheral.LedsMirrorCharacteristics | glen_blinker_working/Application/blinker_peripheral.c:687-720 | After any run of changes, each LED shows the value last written to its characteristic, or its old value if that characteristic was not written. |
| Peripheral.BlinkerProcessAppMsg | glen_blinker_working/Application/blinker_peripheral.c:425-466 | An advertising event must carry data, which processAdvEvent dereferences. Char-change data is kept. Advertising-event and unknown-event data is freed iff non-NULL. A green toggle notifies handle 37 on the current connection and, with non-NULL data, reads an uninitialised flag. |
| Peripheral.StepSpeed | ee110b_hw6_barebot_server/Application/barebot_peripheral.c:690-704 | The written byte, read as int8_t, is the old speed plus the delta wrapped into int8_t; it is congruent to the old byte plus the delta modulo 256. |
| Peripheral.SpeedUpDownInverse | ee110b_hw6_barebot_server/Application/barebot_peripheral.c:690-704 | Speed up and speed down undo each other on every byte, including across the wrap. |
| Peripheral.SpeedUpWraps | ee110b_hw6_barebot_server/Application/barebot_peripheral.c:690-696 | Speeding up from 127 writes -128. |
| Peripheral.BarebotCharChange | ee110b_hw6_barebot_server/Application/barebot_peripheral.c:680-714 | SPEED_UP writes the speed plus one, as one byte; SPEED_DOWN writes it minus one; other IDs do nothing. It always returns FALSE. |
| Peripheral.BarebotProcessAppMsg | ee110b_hw6_barebot_server/Application/barebot_peripheral.c:426-459 | An advertising event must carry data, which processAdvEvent dereferences. For such messages the data is freed iff it is non-NULL and the event is not a char change, and the outcome is never undefined. Advertising events are handled by processAdvEvent; unknown events do nothing. |
| Types.AsInt8 | ee110b_hw6_barebot_server/Application/barebot_peripheral.c:683 | Reading a byte as int8_t keeps it modulo 256. |
| Types.Int8RoundTrip | ee110b_hw6_barebot_server/Application/barebot_peripheral.c:683 | Reading a byte as int8_t and storing it back as a byte is lossless in both directions. |
| Types.AsInt16 | ee110b_hw6_barebot_client/Application/barebot_ui.c:286 | The (int16_t) cast keeps the value modulo 65536 and is the identity below 0x8000. |

## Left out

- RTOS plumbing (task creation, Event_pend loops, ICall registration, Util_enqueueMsg internals): vendor kernel and concurrency. The queue is a FIFO sequence, and allocation and acceptance are parameters.
- Keypad and button debouncing: the drivers only wire clocks and interrupts, and the debounce routines are assembly that is not part of this model.
- The LCD driver and Display_printf formatting: output is recorded as display actions with their arguments.
- BLE stack internals: GapScan_*, GapAdv_*, GATT_Notification, GATT_bm_free and GATTServApp_ProcessCCCWriteReq are action labels or an opaque status.
- BP_VERIFY / BS_VERIFY failures: a failing advertising set-up call spins for ever. The model assumes every such call succeeds.
- BarebotCentral_processAppMsg: it reads an uninitialised `dealloc` and is outside the modelled core.
- BarebotUI_read and BarebotUI_write: they have no body in the firmware. A read's response value, and what a write does, are not modelled; only the action is.
- BarebotUI_centralStateChanged, _speedChanged and _turnChanged: they fill one member of the message union and leave the other bytes uninitialised. ProcessUIMsg takes the whole 32-bit data word as given and reads the byte and half-word members as its low bits (little-endian).
- The haiku viewer's KeyPressed: it enqueues without checking its allocation; the drain takes the queue as given.
- BarebotUI.KeyPressed: the status of BarebotUI_enqueueMsg is ignored, so a key press is silently lost when allocation or the enqueue fails. The member gives the message that would be queued, not whether it was queued.
- The advertising-data buffer inside a report the central's scan callback fails to queue: only the report structure is freed, so that buffer leaks. The model does not track it.
- The stack's buffer `pBuf` passed to either peripheral's advCallback when the data allocation or the enqueue fails: it is never freed there, so it leaks. The model records `pBuf` only inside queued event data and does not track it otherwise.
- BarebotProfile_GetParameter and SetParameter: their bodies are not part of this model. The speed handler is given the speed byte GetParameter yields, and the LED handler the new LED value.
- Peripheral.BarebotCharChange: GetParameter copies into a one-byte int8_t, while the speed characteristic holds two bytes. What that copy does to the stack is not modelled.
- BAREBOTPROFILE_ERROR_UUID, BAREBOTPROFILE_SPEED_UP/DOWN, BLINKERPROFILE_REDLED/GREENLED and the blinker's BP_* event codes: referenced but not defined in the firmware. They are parameters, required to differ from the other labels of their switch.
- Thoughts length: 32 on the server and 100 in the client's constants. The server's 32 is used, since only the server stores it.
- The packed ATT response structs of the central and the mis-sized union members of the barebot server header: their layout is uncertain, and nothing modelled depends on it.
- The central's characteristic discovery, synchronous read/write and name-based connection: declared or stubbed only.
- The notification handle 37 of the blinker's green toggle is recorded as given; the attribute it names is not modelled.

## Findings

| source | as written | input that shows it | evidently intended | confidence | as-written member | corrected member |
|---|---|---|---|---|---|---|
| ee110b_hw6_barebot_client/Application/barebot_central.c:816 | the name copy loop runs `adLen` times, although a structure of length `adLen` holds `adLen - 1` name bytes after its type byte | advertising data `03 09 'B' 'P' 02 01 06` with a 16-byte buffer yields "BP\x02"; a name as the last structure reads one byte past the report | copy `adLen - 1` bytes | high (not executed) | AdvName.CopyTakesNextLengthByte | AdvName.FindDeviceNameCorrected |
| ee110b_hw6_barebot_client/Application/barebot_central.c:830 | the skip advances `adLen` bytes after the type byte was already consumed, landing one byte past the next length octet | `02 01 06 03 09 'B' 'P'` (Flags, then the name "BP"): the skip lands on index 4, so the name's type byte 0x09 is read as a length and 'B' as the type; the next skip jumps past the end and the name is never found | advance `adLen - 1` bytes after the type byte | high (not executed) | AdvName.FlagsThenBPMissed | AdvName.FindDeviceNameCorrected |
| ee110b_hw6_barebot_client/Application/barebot_central.c:833-835 | when no name is found the function ends without a return statement; any caller that used the result would read an indeterminate value. The only call, at line 440, discards the result, so the defect is latent | empty advertising data | return FALSE | high (not executed) | AdvName.EmptyDataHasNoReturnValue | AdvName.FindDeviceNameCorrected |

AdvName.FindDeviceNameCorrected also makes two changes that are not claimed as defects. It ends the search at a zero length byte and at a structure running past the data, as the structure layout of the standard requires. Without them it would not equal the reference search: with only the three fixes above, `00 03 09 'B' 'P'` would yield "BP", while the reference stops at the zero length and finds nothing.
