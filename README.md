# uRATT door controller: a Dafny model

uRATT is the firmware of an RFID door controller built on an ESP32. A
main task runs the door state machine. It reads cards, checks them against
a cached access-control list (ACL), unlocks and relocks the door, and
reports access attempts over MQTT. Beside it run:

- a network task, which downloads the ACL over HTTPS, publishes status
  and performs over-the-air (OTA) updates;
- a system task, which watches external power and the battery and puts
  the board into light sleep;
- a display task with an idle screen animation;
- a beeper;
- an ST7735 LCD panel driver;
- a serial console.

This project models the core of each of these in Dafny and proves what
the code promises. Tasks that loop over mutable statics are classes with
`modifies` clauses. Each class's methods are proved against pure step
functions, and the lemmas are stated over those functions. FreeRTOS
queues are bounded mailboxes (`Base.Mailbox`). Calls into other
components, such as the door, the display, MQTT publishing and the
LEDC/GPIO drivers, are recorded as action values. Faults of the file
system, NVS, HTTP and allocator are oracle parameters. SHA-224 is an
uninterpreted function parameter.

Modules:

- `Base`: bytes, C strings, formatting, mailboxes.
- `Events`: the event and status enums shared between tasks.
- `Fs`: the SD card and SPI flash as a map of files, and the two mutexes.
- One module per modelled source file: `MainTask`, `Acl`, `Config`,
  `Https`, `NetHttps`, `NetTask`, `NetMqtt`, `SystemTask`, `DisplayTask`,
  `UiIdle`, `NetOta`, `BeepTask`, `St7735` and `Console`.

The model follows these details of the code:

- In WAIT_RFID, lost power is checked before the scan event. A valid scan
  that arrives while power is lost is dropped.
- After a grant the door relocks after 3 s.
- The ACL download installs `/sdcard/acl.txt` and writes no hash file.
  Validation checks the configured `/config/acl.csv` against
  `/config/acl.sha`.
- `OTA_STATUS_APPLYING` and `SCREEN_SLEEP` are used by the code but come
  from another revision of the headers. They are modelled as ordinary
  enum members.

## Model

| member | source | states |
|---|---|---|
| MainTask.TagStrDigits | firmware/main/main_task.c:271 | the reported tag string is exactly ten decimal digits whose value is the tag |
| MainTask.TagStrInjective | firmware/main/main_task.c:271-272 | two different tags are never reported with the same string |
| MainTask.TagStrExample | firmware/main/main_task.c:271 | tag 42 is reported as "0000000042" |
| MainTask.StepFlags | firmware/main/main_task.c:143-170 | in every state, POWER_LOSS/POWER_RESTORED set power_ok to false/true and SLEEPING/WAKING set sleeping to true/false; every other event, and no event, leaves both flags; last_state becomes the state the iteration started in |
| MainTask.TransitionKeepsFlags | firmware/main/main_task.c:172-327 | the state switch never changes power_ok or sleeping |
| MainTask.UnconditionalAdvance | firmware/main/main_task.c:173-295 | INIT, INITIAL_LOCK, START_RFID_READ and LOCK move to their fixed successor on every iteration, with the same calls whatever event or card record is present |
| MainTask.TimerGated | firmware/main/main_task.c:190-284 | WAIT_READ and UNLOCKED issue nothing and leave (to START_RFID_READ and LOCK) exactly on TIMER_EXPIRED |
| MainTask.WaitRfidPowerFirst | firmware/main/main_task.c:200-206 | in WAIT_RFID without power, whatever the event (a valid scan included), the only call is arming the 5000 ms timer and the state becomes POWER_LOST |
| MainTask.WaitRfidScans | firmware/main/main_task.c:207-226 | in WAIT_RFID with power: a valid scan goes to RFID_VALID and an invalid one to RFID_INVALID, both showing the access screen; a pre-scan beeps and stays; any other event stays and does nothing |
| MainTask.UnlockOnlyOnGrant | firmware/main/main_task.c:228-258 | an iteration unlocks the door exactly when it serves RFID_VALID with a record whose allowed flag is set |
| MainTask.ValidScanOutcome | firmware/main/main_task.c:228-258 | RFID_VALID shows the member's verdict and queues SEND_ACCESS with the record's name and flag as its last call; allowed: unlock, arm 3000 ms, UNLOCKED; denied: no unlock, arm 10000 ms, WAIT_READ |
| MainTask.InvalidScanOutcome | firmware/main/main_task.c:260-279 | RFID_INVALID queues the access error "unknown rfid tag" with the ten-digit tag string, arms 8000 ms, unlocks nothing and goes to WAIT_READ |
| MainTask.SleepPath | firmware/main/main_task.c:297-324 | POWER_LOST on timer expiry resumes if power is back, else shows the sleep screen, queues DISCONNECT and goes to SLEEP_READY; SLEEP_READY checks power before sleeping (reconnect and resume, or go to SLEEPING); SLEEPING returns to SLEEP_READY once sleeping clears |
| MainTask.TransitionLatch | firmware/main/main_task.c:182-295 | only INITIAL_LOCK and LOCK lock the door and only a grant unlocks it |
| MainTask.NoDoorCommand | firmware/main/main_task.c:172-327 | every other iteration issues no door command |
| MainTask.TransitionLatchFor | firmware/main/main_task.c:172-327 | the states each transition reaches need the latch where that transition leaves it: locked after INITIAL_LOCK and LOCK, unlocked after a grant, unchanged otherwise |
| MainTask.StepDoorSafe | firmware/main/main_task.c:139-327 | one iteration preserves the door-safety invariant: after the initial lock the door is unlocked exactly in UNLOCKED and LOCK |
| MainTask.RunDoorSafe | firmware/main/main_task.c:128-327 | every sequence of events from power-on keeps the door-safety invariant |
| MainTask.ReachedLatch | firmware/main/main_task.c:128-327 | from power-on the door is never left unlocked in a state that waits for a card, and the invalid state is never reached |
| MainTask.MainLoop.constructor | firmware/main/main_task.c:99-136 | an empty queue of depth 8, state INIT, last_state INVALID, power present, not sleeping |
| MainTask.MainLoop.PostEvent | firmware/main/main_task.c:113-119 | the event is queued at the back, and the call fails exactly when the queue is full |
| MainTask.MainLoop.TimerCallback | firmware/main/main_task.c:121-126 | the timer posts TIMER_EXPIRED at the back of the queue |
| MainTask.MainLoop.Iterate | firmware/main/main_task.c:139-327 | one loop pass takes the front event (or none) and leaves exactly the state and calls of the step function |
| Acl.HexIsAscii | firmware/main/acl.c:153-155 | the hex digits of a digest are ASCII characters (below 128), so they fit the hash buffer's bytes |
| Acl.HashTextNoNul | firmware/main/acl.c:153-193 | the hash text has no NUL, so strcmp compares all 56 digits |
| Acl.HashTextInjective | firmware/main/acl.c:153-193 | equal hash texts come from equal digests |
| Acl.StoredBuffer | firmware/main/acl.c:95-104 | the stored-hash buffer after read(fd, hash, 57) and the NUL fence is 57 bytes with a NUL at index 56 |
| Acl.StoredBufferFull | firmware/main/acl.c:95-104 | a hash file of at least 56 NUL-free bytes reads back as exactly its first 56 bytes |
| Acl.ReadStoredHash | firmware/main/acl.c:87-108 | open or read failure returns FAIL; otherwise the buffer holds the stored-buffer contents and OK is returned |
| Acl.ComputeStoredHash | firmware/main/acl.c:112-163 | the 256-byte read loop succeeds exactly when every read and digest update succeeds up to a final read of 0, and then writes the hex digest of the whole file |
| Acl.Validate | firmware/main/acl.c:165-217 | validation succeeds exactly when both files are read and the stored text equals the computed one; a rejection returns FAIL and removes each of the two files whose unlink succeeds, whatever the unlinks return, and nothing else changes |
| Acl.FailedUnlinkKeepsFile | firmware/main/acl.c:199-207 | after a rejection a file is still present exactly when it was present and its unlink failed; the other unlink is not skipped |
| Acl.AcceptsOwnDigest | firmware/main/acl.c:165-217 | a hash file that starts with the hex digest of the data file is accepted when the I/O succeeds, whatever follows and whatever the buffer held |
| Acl.AcceptsIff | firmware/main/acl.c:165-217 | for a hash file of at least 56 NUL-free bytes, acceptance is equivalent to successful I/O and those bytes being the data file's hex digest |
| Acl.RejectsChangedData | firmware/main/acl.c:165-217 | data whose digest differs from the recorded one is never accepted |
| Acl.EmptyHashFileRejected | firmware/main/acl.c:95-193 | an empty hash file over a zeroed buffer never validates |
| Acl.DataFilename | firmware/main/acl.c:75-78 | the data file name is the "acl_file" setting, default "/config/acl.csv" |
| Acl.HashFilename | firmware/main/acl.c:80-83 | the hash file name is the "acl_hash_file" setting, default "/config/acl.sha" |
| Acl.DefaultFilenames | firmware/main/acl.c:75-83 | on a store without either key, the two lookups return the default names |
| Acl.Init | firmware/main/acl.c:58-73 | without the mutex, init returns FAIL, shows nothing and changes no file; otherwise it returns OK and shows CACHED/100 when the cache validates, leaving the files alone, and ERROR/0 when it does not, after removing the cache files whose unlink succeeds |
| Config.AllocFailureReportsOk | firmware/main/config.c:92-106 | as written: with "acl_file" stored and the allocation failing, the call returns OK and leaves *str NULL |
| Config.GetStringOkIffValue | firmware/main/config.c:52-107 | corrected: OK is returned exactly when a string is handed back, and that string is the key's stored value |
| Config.PresentKey | firmware/main/config.c:64-106 | a stored key is returned as stored, with OK, and the namespace is unchanged |
| Config.MissingKeyWithDefault | firmware/main/config.c:67-106 | a missing key with a default is created with the default, which is returned with OK |
| Config.MissingKeyNoDefault | firmware/main/config.c:67-106 | a missing key without a default returns NVS_NOT_FOUND, no string and no change, whatever later step would fail |
| Config.StoreChangesOnlyByDefault | firmware/main/config.c:72-82 | the namespace changes only by adding the default for a missing key |
| Config.RepeatedLookup | firmware/main/config.c:52-107 | repeating a successful lookup returns the same value and changes nothing, whatever default the second call offers |
| Config.NvsStore.Get | firmware/main/config.c:52-107 | the code, *str and the new entries are those of the corrected lookup on the old entries |
| Config.NvsStore.constructor | firmware/main/config.c:50 | the store holds exactly the given entries of the `config` namespace |
| Https.WrittenIsBody | firmware/main/net/https.c:45-53 | when no write fails, the file receives exactly the response body |
| Https.WrittenWithinBody | firmware/main/net/https.c:45-53 | failed writes only lose bytes: the file is never longer than the body |
| Https.OnData | firmware/main/net/https.c:45-53 | a non-chunked delivery whose write succeeds is appended to the open file; a chunked one or a failed write changes nothing |
| Https.GetFile | firmware/main/net/https.c:65-105 | the file lock is held only during the call; a failed open returns FAIL with nothing written and *result untouched; otherwise the file is truncated and receives the written deliveries (nothing for a chunked response), the client's error is returned, and *result becomes the HTTP status only when that error is OK |
| Https.PostAlwaysFails | firmware/main/net/https.c:109-112 | http_post always returns FAIL |
| NetHttps.FormatPlain | firmware/main/net/net_https.c:101 | a format without `%` prints as itself |
| NetHttps.FormatSingle | firmware/main/net/net_https.c:101 | a format with one `%s` and no other `%` prints the resource in its place |
| NetHttps.AclUrl | firmware/main/net/net_https.c:94-101 | the URL fits the 256-byte buffer with its NUL and is a prefix of the formatted text |
| NetHttps.DefaultAclUrl | firmware/main/net/net_https.c:98-101 | the default format and resource give the frontdoor ACL URL in full |
| NetHttps.Non200KeepsSdcardLock | firmware/main/net/net_https.c:124-153 | as written, a 404 reply returns with the SD-card mutex still taken |
| NetHttps.FailedInstallReturnsOk | firmware/main/net/net_https.c:119-160 | as written, a failed rename after the old ACL was deleted queues "ACL failed" yet returns ESP_OK, with no ACL file left |
| NetHttps.DownloadReleasesSdcard | firmware/main/net/net_https.c:105-148 | every path of the corrected download gives back the SD-card mutex |
| NetHttps.DownloadSuccess | firmware/main/net/net_https.c:113-156 | the download succeeds exactly when the fetch, the delete of any old ACL and the rename all succeed; then the body is the ACL, the temporary file is gone and "ACL updated" is queued |
| NetHttps.DownloadReports | firmware/main/net/net_https.c:146-160 | "ACL updated" is queued exactly on success, nothing on a completed request that is not 200, and "ACL failed" on every other failure |
| NetHttps.DownloadTouchesOnlyAcl | firmware/main/net/net_https.c:113-138 | every file other than the temporary file and the ACL is unchanged |
| NetHttps.FailedInstallKeepsOldAcl | firmware/main/net/net_https.c:119-143 | a failure other than a rename after a successful delete keeps the old ACL as it was |
| NetHttps.DownloadAcl | firmware/main/net/net_https.c:90-161 | the fetch uses the formatted URL; the return code, the files, the queued commands and the SD-card mutex are the corrected outcome; the ACL and file mutexes are released |
| NetHttps.GetFile | firmware/main/net/net_https.c:164-189 | returns `http_get_file`'s code on every path, so any completed request counts as success; the file receives the streamed body |
| NetTask.HeldAppend | firmware/main/net/net_task.c:321-352 | queuing an event adds the buffers it points to to the queue's buffer count |
| NetTask.HeldFront | firmware/main/net/net_task.c:406 | the buffer count splits into the oldest event's buffers and the rest's |
| NetTask.HeldOffered | firmware/main/net/net_task.c:314-356 | a send adds the event's buffers only when the queue had room |
| NetTask.CopyBufText | firmware/main/net/net_task.c:321-355 | a buffer of `strlen + 1` bytes filled by `strncpy` holds the text and its terminator |
| NetTask.AccessErrorAsWrittenLosesTag | firmware/main/net/net_task.c:336-339 | as written, the unknown-tag report's second buffer holds "unknown rfi" instead of the tag, with no terminator |
| NetTask.AccessErrorCarriesBoth | firmware/main/net/net_task.c:335-339 | corrected, the access-error command carries the error and its detail unchanged |
| NetTask.IsOurNetifIgnoresLast | firmware/main/net/net_task.c:116-119 | the prefix compare stops one character short, so any description starting "net_tas" matches |
| NetTask.DispatchInOrder | firmware/main/net/net_task.c:406-481 | one iteration handles only the oldest command; the others stay queued in order and at most one command is added; an empty queue does nothing |
| NetTask.InitQueuesDownload | firmware/main/net/net_task.c:408-412 | INIT starts SNTP and queues the ACL download behind the waiting commands |
| NetTask.DownloadRestartsMqtt | firmware/main/net/net_task.c:424-442 | DOWNLOAD_ACL stops MQTT, runs the corrected download (`NetHttps.DownloadOutcome`), shows "updated" exactly when it returns OK or else "error", restarts MQTT, and queues the download's report |
| NetTask.AsWrittenDownloadDiffers | firmware/main/net/net_task.c:424-442 | around the download as written, a 200 reply whose rename fails would show "updated" where the model shows "error", and a 404 reply would keep the SD-card mutex where the model releases it |
| NetTask.UnhandledDoNothing | firmware/main/net/net_task.c:477-479 | the power and door report commands fall to the default case and do nothing |
| NetTask.ConnectGuards | firmware/main/net/net_task.c:269-422 | after CONNECT the interface is up and after DISCONNECT down; Wi-Fi starts only if it was stopped and stops only if it was started |
| NetTask.OnlyFetchesWrite | firmware/main/net/net_task.c:406-481 | only DOWNLOAD_ACL and WGET change files |
| NetTask.DispatchReleases | firmware/main/net/net_task.c:456-475 | handling a command frees exactly the buffers it carried, so none leak once dequeued |
| NetTask.OneReportPerMinute | firmware/main/net/net_task.c:493-497 | of 60 consecutive counted ticks only the one at a multiple of 60 queues a signal report |
| NetTask.NetBus.constructor | firmware/main/net/net_task.c:364-376 | the queue starts empty with capacity 8 and the interface down |
| NetTask.NetBus.Post | firmware/main/net/net_task.c:314-356 | the event is appended when the queue has room (else FAIL and its buffers leak); nothing else changes |
| NetTask.NetBus.Queue | firmware/main/net/net_task.c:308-315 | `net_cmd_queue` sends a buffer-less command and returns OK exactly when the queue had room |
| NetTask.NetBus.QueueAccess | firmware/main/net/net_task.c:317-329 | an allocation failure returns NO_MEM and queues nothing; otherwise the member's name and the allowed byte are sent |
| NetTask.NetBus.QueueAccessError | firmware/main/net/net_task.c:331-345 | if either allocation fails, both are freed and NO_MEM is returned; otherwise both texts are sent, copied as the corrected buffers |
| NetTask.NetBus.QueueWget | firmware/main/net/net_task.c:347-362 | if either allocation fails, both are freed and NO_MEM is returned; otherwise the URL and the file name are sent |
| NetTask.NetBus.Connect | firmware/main/net/net_task.c:269-294 | INVALID_STATE when already connected, else OK; afterwards the interface is up |
| NetTask.NetBus.Disconnect | firmware/main/net/net_task.c:296-306 | INVALID_STATE when not connected, else OK; afterwards the interface is down |
| NetTask.NetBus.Timer | firmware/main/net/net_task.c:485-499 | without an access point nothing changes; with one the RSSI is shown, a report is queued on every 60th counted tick, and the counter advances |
| NetTask.NetBus.Iterate | firmware/main/net/net_task.c:398-483 | one loop iteration, with the corrected download, leaves the queue, the interface state and the files as `Dispatch` says, frees the dequeued buffers and releases every mutex |
| NetTask.NetBus.Serve | firmware/main/net/net_task.c:406-480 | a dequeued command, with the corrected download, leaves the queue, the interface state, the files and the effects as `Handle` says and releases every mutex |
| NetTask.NetBus.DownloadCmd | firmware/main/net/net_task.c:424-442 | the DOWNLOAD_ACL case, built on the corrected `NetHttps.DownloadAcl`, has the effects and the outcome of `Handle` |
| NetTask.NetBus.WgetCmd | firmware/main/net/net_task.c:471-475 | the WGET case fetches the URL into the named file as `Handle` says |
| NetTask.NetBus.LocalCmd | firmware/main/net/net_task.c:408-479 | the cases that touch no file have the effects of `Handle` |
| NetMqtt.Topic | firmware/main/net/net_mqtt.c:82-88 | the topic fits the 128-byte buffer with its NUL and is a prefix of the formatted text |
| NetMqtt.TopicLayout | firmware/main/net/net_mqtt.c:82-88 | a status topic that fits is "ratt/status/node/", 12 lower-case hex digits that read back as the MAC, "/" and the subtopic |
| NetMqtt.QuotedInjective | firmware/main/net/net_mqtt.c:156-176 | a quoted field behind a fixed prefix is recovered from the payload |
| NetMqtt.AclUpdatedPayload | firmware/main/net/net_mqtt.c:125-146 | the ACL report fits its 128-byte buffer |
| NetMqtt.AclReportsDiffer | firmware/main/net/net_mqtt.c:135 | success and failure give `{"status":"downloaded"}` and `{"status":"failed"}`, which differ |
| NetMqtt.AccessPayload | firmware/main/net/net_mqtt.c:148-166 | the access report fits its 128-byte buffer |
| NetMqtt.AccessPayloadInjective | firmware/main/net/net_mqtt.c:156 | the member and whether access was allowed are recovered from an access report that fits |
| NetMqtt.AccessErrorPayload | firmware/main/net/net_mqtt.c:168-187 | the access-error report fits its 512-byte buffer |
| NetMqtt.AccessErrorPayloadInjective | firmware/main/net/net_mqtt.c:176 | the error text and its detail are recovered from an access-error report that fits |
| NetMqtt.PowerPayload | firmware/main/net/net_mqtt.c:259-299 | the power report fits its 128-byte buffer |
| NetMqtt.PowerNames | firmware/main/net/net_mqtt.c:266-286 | the five power states get five different names, none "unknown"; any other value reports "unknown" |
| NetMqtt.DoorPayload | firmware/main/net/net_mqtt.c:301-326 | the door report fits its 128-byte buffer |
| NetMqtt.DoorPayloadsDiffer | firmware/main/net/net_mqtt.c:309-313 | an open and a closed door give different reports |
| NetMqtt.OtaPayload | firmware/main/net/net_mqtt.c:328-367 | the OTA report fits its 128-byte buffer |
| NetMqtt.DecIntNoQuote | firmware/main/net/net_mqtt.c:355 | `%d` never prints a quote |
| NetMqtt.DecIntSign | firmware/main/net/net_mqtt.c:355 | `%d` starts with a minus exactly for negative numbers |
| NetMqtt.DecIntInjective | firmware/main/net/net_mqtt.c:355 | different numbers print differently with `%d` |
| NetMqtt.OtaPayloadInjective | firmware/main/net/net_mqtt.c:336-355 | the status and the progress are recovered from an OTA report whose progress has at most three digits |
| NetMqtt.OtaTailShort | firmware/main/net/net_mqtt.c:355 | the text after the status name is short and starts with the closing quote |
| NetMqtt.OtaNamesDistinct | firmware/main/net/net_mqtt.c:336-352 | the named OTA states have different names |
| NetMqtt.OtaNameShape | firmware/main/net/net_mqtt.c:336-352 | no OTA state name holds a quote or is longer than 11 characters |
| NetMqtt.SmallDigits | firmware/main/net/net_mqtt.c:355 | a number below 1000 has at most three digits |
| NetMqtt.BootOverrunsBuffer | firmware/main/net/net_mqtt.c:191-245 | as written, legal descriptor fields of full length make the boot report write past the 256-byte buffer, because `snprintf` is told 512 |
| NetMqtt.BootPayloadFits | firmware/main/net/net_mqtt.c:194-245 | corrected, the boot report and its NUL always fit the 256-byte buffer, and a short report is written whole |
| NetMqtt.FwSha | firmware/main/net/net_mqtt.c:236-242 | the loop writes the 32-byte image hash as 64 lower-case hex digits, two per byte in order |
| NetMqtt.FreqChannel1 | firmware/main/net/net_mqtt.c:103-107 | channel 1 reports the frequency "2.412" |
| NetMqtt.FreqChannel14 | firmware/main/net/net_mqtt.c:103-107 | channel 14 reports the frequency "2.484" |
| NetMqtt.FreqAboveTable | firmware/main/net/net_mqtt.c:107 | a channel above 16 reports "0.  0" |
| NetMqtt.WifiPayload | firmware/main/net/net_mqtt.c:90-122 | the signal report fits its 256-byte buffer |
| NetMqtt.ApTextReadsBack | firmware/main/net/net_mqtt.c:105-106 | the BSSID text is 17 characters whose hex pairs read back as the six bytes |
| NetMqtt.WifiPayloadAp | firmware/main/net/net_mqtt.c:105-106 | the signal report starts with the BSSID text |
| NetMqtt.Send | firmware/main/net/net_mqtt.c:112-358 | every report is published to the node's status topic, and "data sent" is shown exactly when the client accepts it |
| NetMqtt.DataMatchesPrefix | firmware/main/net/net_mqtt.c:402-414 | comparing over the received length makes every prefix of the ACL topic start a download, and every other prefix of the firmware topic start an update |
| NetMqtt.ShortTopicDownloads | firmware/main/net/net_mqtt.c:407-409 | the truncated topic "ratt/control/broadcast" starts an ACL download |
| NetMqtt.FirmwareTopicUpdates | firmware/main/net/net_mqtt.c:410-411 | the firmware topic posts the OTA event to the main task |
| NetMqtt.MqttClient.constructor | firmware/main/net/net_mqtt.c:428-462 | the client starts not connected |
| NetMqtt.MqttClient.Handle | firmware/main/net/net_mqtt.c:369-425 | connecting subscribes to both control topics and sets the flag, disconnecting clears it, other events leave it; the handler always returns OK |
| NetMqtt.MqttClient.Stop | firmware/main/net/net_mqtt.c:470-476 | stopping clears the flag, shows "disconnected" and returns the client's result |
| NetMqtt.HandlerShowsStatus | firmware/main/net/net_mqtt.c:369-425 | connecting subscribes to the ACL and firmware topics first; every event except the subscription notices and unknown ones ends by showing a status; only a data event queues or posts work |
| SystemTask.PowerEdgeEvents | firmware/main/system/system_task.c:148-163 | POWER_LOSS is posted exactly when the pin changes to 0 and POWER_RESTORED exactly when it changes to 1; the pass remembers the level |
| SystemTask.SleepOnlyWhenLost | firmware/main/system/system_task.c:165-204 | the board sleeps only while the power is lost, only after 30 s or more, and then restarts the loss clock at the current time |
| SystemTask.SleepOrder | firmware/main/system/system_task.c:171-204 | with the power still lost and 30 s reached, a pass posts SLEEPING, keeps the SD supply on in sleep, arms wake-up on pin 13 low and pin 35 high, enables GPIO wake-up, drops PWR_ENABLE, sleeps, raises PWR_ENABLE and posts WAKING, in that order |
| SystemTask.CountdownOnChange | firmware/main/system/system_task.c:166-206 | below 30 s the countdown `30 - lost` is shown when the elapsed time changed and nothing otherwise; the elapsed time is remembered |
| SystemTask.OtherActionsQuiet | firmware/main/system/system_task.c:144-231 | the command log and the battery half never sleep or show a countdown |
| SystemTask.PowerRepeat | firmware/main/system/system_task.c:148-207 | repeating the power half at the same time shows only the restarted countdown after a sleep, and nothing otherwise |
| SystemTask.StepPowerLocals | firmware/main/system/system_task.c:144-232 | a pass is the command log, the power half and the battery half in that order, and keeps the power locals the power half left |
| SystemTask.CountdownOncePerSecond | firmware/main/system/system_task.c:165-207 | a second pass in the same second never sleeps, and shows a countdown (of 30) only when the first one slept |
| SystemTask.LowBattLogIff | firmware/main/system/system_task.c:220-224 | the low battery is logged exactly when the pin is low and 10 s have passed since the last log; the log becomes the new reference |
| SystemTask.ShutdownIff | firmware/main/system/system_task.c:226-230 | the shutdown pin is driven exactly when the battery has been low for 60 s, as a 5 ms delay followed by the pin |
| SystemTask.ShutdownRepeats | firmware/main/system/system_task.c:210-232 | once the shutdown pin is driven, every later pass with the battery still low drives it again |
| SystemTask.CommandsOnlyLogged | firmware/main/system/system_task.c:144-146 | a received command only adds its log line in front |
| SystemTask.ReferenceKept | firmware/main/system/system_task.c:138-223 | the low-battery log reference never falls below a bound the clock has reached |
| SystemTask.LogSetsReference | firmware/main/system/system_task.c:221-224 | a pass that logs the low battery sets the reference to now |
| SystemTask.ReferenceAfterLog | firmware/main/system/system_task.c:133-233 | on a clock that does not go back, after a log at time t the reference stays at t or later |
| SystemTask.LogsTenSecondsApart | firmware/main/system/system_task.c:220-224 | on a clock that does not go back, two low-battery logs are at least 10 s apart |
| SystemTask.SystemSupervisor.constructor | firmware/main/system/system_task.c:95-130 | the queue starts empty with depth 8 and the locals have their initial values |
| SystemTask.SystemSupervisor.Iterate | firmware/main/system/system_task.c:133-233 | one pass takes the oldest command if any and leaves the locals and the actions as `Step` says |
| SystemTask.SystemSupervisor.PowerEdgeStep | firmware/main/system/system_task.c:148-163 | the edge test has the effect of `PowerEdge` |
| SystemTask.SystemSupervisor.PowerLostStep | firmware/main/system/system_task.c:165-207 | the countdown or sleep has the effect of `PowerLost` |
| SystemTask.SystemSupervisor.BatteryStep | firmware/main/system/system_task.c:109-232 | the battery half has the effect of `BatteryPhase` |
| DisplayTask.EvtBuf | firmware/main/ui/display_task.c:62-189 | the message fills exactly the 32-byte event buffer |
| DisplayTask.EvtBufContents | firmware/main/ui/display_task.c:122-189 | a message shorter than 32 characters reads back whole; a longer one is cut to 32 characters with no terminator |
| DisplayTask.ButtonPressIff | firmware/main/ui/display_task.c:263-272 | a press is sent exactly when the level changes from 1 to 0, and the level is remembered |
| DisplayTask.HeldAtBootSendsNothing | firmware/main/ui/display_task.c:249-272 | starting from level 0, a button held down sends no press |
| DisplayTask.ShowTracked | firmware/main/ui/display_task.c:306-332 | the blank, splash, idle and access screens are loaded exactly when they differ from the last one loaded, which they become; the splash is reset when loaded |
| DisplayTask.ShowIdempotent | firmware/main/ui/display_task.c:306-332 | asking for the same screen again loads nothing and changes nothing |
| DisplayTask.ShowInfoUsesActive | firmware/main/ui/display_task.c:333-338 | the info screen is loaded exactly when it is not the active screen, and is then the tracked one |
| DisplayTask.ShowUntracked | firmware/main/ui/display_task.c:306-339 | a screen without a case loads nothing and changes nothing |
| DisplayTask.AclProgressOnlyWhenDownloading | firmware/main/ui/display_task.c:289-293 | ACL_STATUS always sets the status and forwards the progress only while downloading |
| DisplayTask.OnlyShowChangesScreen | firmware/main/ui/display_task.c:279-305 | every command other than SHOW_SCREEN leaves the tracked screen and makes one call |
| DisplayTask.HeartbeatIff | firmware/main/ui/display_task.c:344-364 | the clock is refreshed exactly when a second's worth of ticks has passed on the wrapping 32-bit counter, and the refresh becomes the reference |
| DisplayTask.HeartbeatSpacing | firmware/main/ui/display_task.c:347-363 | two refreshes in a row are at least a second's worth of ticks apart |
| DisplayTask.Display.constructor | firmware/main/ui/display_task.c:226-249 | the queue starts empty, no screen is loaded, the button was last seen at 0 and the clock reference is the start tick |
| DisplayTask.Display.Post | firmware/main/ui/display_task.c:110-113 | with the display enabled the event is queued when there is room and 1 is returned, else 0; disabled, -1 and nothing is queued |
| DisplayTask.Display.WifiStatusCmd | firmware/main/ui/display_task.c:103-114 | queues the Wi-Fi status as `Post` does |
| DisplayTask.Display.NetStatusCmd | firmware/main/ui/display_task.c:116-128 | queues the network status with the text cut to the 32-byte buffer |
| DisplayTask.Display.WifiRssiCmd | firmware/main/ui/display_task.c:131-141 | queues the RSSI as `Post` does |
| DisplayTask.Display.PowerStatusCmd | firmware/main/ui/display_task.c:144-154 | queues the power status as `Post` does |
| DisplayTask.Display.AclStatusCmd | firmware/main/ui/display_task.c:157-168 | queues the ACL status and its progress as `Post` does |
| DisplayTask.Display.MqttStatusCmd | firmware/main/ui/display_task.c:171-181 | queues the MQTT status as `Post` does |
| DisplayTask.Display.AllowedMsgCmd | firmware/main/ui/display_task.c:183-195 | queues the member's text, cut to the 32-byte buffer, with the allowed byte |
| DisplayTask.Display.DoorStateCmd | firmware/main/ui/display_task.c:198-208 | queues the door state as `Post` does |
| DisplayTask.Display.ShowScreenCmd | firmware/main/ui/display_task.c:211-223 | queues the screen and its animation as `Post` does |
| DisplayTask.Display.Iterate | firmware/main/ui/display_task.c:259-365 | one pass takes the oldest command if any and leaves the tracked screen, the button level, the clock reference and the calls as `Step` says |
| DisplayTask.Display.Dispatch | firmware/main/ui/display_task.c:278-342 | the command switch has the effect of `Handle` |
| NetOta.AtoiReadsDecimal | firmware/main/net/net_ota.c:63 | `atoi` reads back a decimal number |
| NetOta.AtoiIgnoresSurroundings | firmware/main/net/net_ota.c:63 | `atoi` skips leading white space and stops at the first character that is not a digit |
| NetOta.DigitPrefixAll | firmware/main/net/net_ota.c:63 | a string of digits is read whole |
| NetOta.DigitPrefixAppend | firmware/main/net/net_ota.c:63 | the digits read stop where the digits end |
| NetOta.ContentLength | firmware/main/net/net_ota.c:43-63 | the announced length is stored as a 32-bit `size_t` |
| NetOta.PercentExact | firmware/main/net/net_ota.c:30 | without wrap-around the percentage is the exact quotient, between 0 and 100 while part of the image has arrived |
| NetOta.ChunkedImageTraps | firmware/main/net/net_ota.c:30-69 | as written, data arriving on a connection that announced no Content-Length divides by zero |
| NetOta.Report | firmware/main/net/net_ota.c:27-38 | corrected, an unknown total reports nothing and changes nothing; a known one behaves as the source |
| NetOta.HandleAgrees | firmware/main/net/net_ota.c:41-79 | the corrected handler agrees with the source on every event that does not divide by zero |
| NetOta.HandleEffects | firmware/main/net/net_ota.c:48-77 | ON_CONNECTED zeroes both lengths and keeps the last percentage; only a Content-Length header sets the total; a data event adds its length modulo 2^32; other events change nothing |
| NetOta.ReportOnChange | firmware/main/net/net_ota.c:30-37 | a percentage is shown and published exactly when it differs from the last one computed, which it then becomes |
| NetOta.RunDeduplicates | firmware/main/net/net_ota.c:27-70 | over any run of events each reported percentage differs from the one before it and from the last one computed before the run |
| NetOta.LastPercentSurvivesConnect | firmware/main/net/net_ota.c:29-56 | a new download whose first percentage equals the last one of the previous download does not report it |
| NetOta.UpdateReports | firmware/main/net/net_ota.c:105-115 | the main task hears of success exactly when the update succeeded, and of failure otherwise |
| NetOta.UpdateOrder | firmware/main/net/net_ota.c:98-115 | the start is reported at 0 first; success is published as "applying" at 100 and followed by a 500 ms pause before the main task hears; failure is published and shown as an error first |
| NetOta.Update | firmware/main/net/net_ota.c:82-116 | `net_ota_update` reports as `UpdateReports` says |
| NetOta.OtaProgress.constructor | firmware/main/net/net_ota.c:29-44 | both lengths start at 0 and the last percentage at -1 |
| NetOta.OtaProgress.ReportProgress | firmware/main/net/net_ota.c:27-38 | the percentage step has the effect of `Report` |
| NetOta.OtaProgress.HandleEvent | firmware/main/net/net_ota.c:41-79 | the event handler has the effect of the corrected `Handle` |
| BeepTask.Played | firmware/main/ui/beep_task.c:173-184 | the tones played are the table's entries before its first terminator, none of them a terminator |
| BeepTask.TablesEndOnce | firmware/main/ui/beep_task.c:54-66 | each of the nine predefined tables ends with its only terminator |
| BeepTask.PlaysAllButEnd | firmware/main/ui/beep_task.c:54-184 | a table that ends once is played whole but for its terminator |
| BeepTask.StopsAtFirstEnd | firmware/main/ui/beep_task.c:175 | playback stops at the first terminator, whatever follows it |
| BeepTask.ToneWait | firmware/main/ui/beep_task.c:178-181 | one tone waits its duration plus its fade-in, then its fade-out |
| BeepTask.PlaybackWait | firmware/main/ui/beep_task.c:175-184 | playing tones waits the sum of their durations, fade-ins and fade-outs |
| BeepTask.DoorOpenDuration | firmware/main/ui/beep_task.c:54-184 | the door-open chirp waits 206 ms in all |
| BeepTask.FadeInAbove100 | firmware/main/ui/beep_task.c:136-155 | a tone first sets its frequency; it fades in to duty 900 exactly when above 100 Hz, and always fades out to 0 |
| BeepTask.Beeper.constructor | firmware/main/ui/beep_task.c:73-134 | the queue starts empty with depth 16 and the timer at 1000 Hz |
| BeepTask.Beeper.Queue | firmware/main/ui/beep_task.c:97-102 | the table is queued and true returned exactly when the queue had room |
| BeepTask.Beeper.Play | firmware/main/ui/beep_task.c:138-184 | the loop plays the tones before the first terminator, each as start, wait, stop, wait; the timer is left at the last tone's frequency |
| BeepTask.Beeper.Iterate | firmware/main/ui/beep_task.c:167-186 | one pass takes the oldest table, if any, and plays it |
| St7735.NewPanel | firmware/main/esp_lcd_panel_st7735.c:45-105 | a panel is returned exactly on OK; a NULL argument gives INVALID_ARG and a failed allocation NO_MEM, both with no other call; OK needs BGR and 16 bits per pixel and sets MADCTL 0xC8, COLMOD 0x05 and the fields from the configuration; any other colour space or width gives NOT_SUPPORTED; a failure after the allocation resets the reset pin if there is one and frees the panel last |
| St7735.MirrorBits | firmware/main/esp_lcd_panel_st7735.c:279-288 | MX and MY follow the arguments and no other MADCTL bit changes |
| St7735.SwapBits | firmware/main/esp_lcd_panel_st7735.c:299-303 | MV follows the argument and no other MADCTL bit changes |
| St7735.MirrorSwapCommute | firmware/main/esp_lcd_panel_st7735.c:275-308 | mirroring and swapping touch disjoint bits, so their order does not matter |
| St7735.MirrorIdempotent | firmware/main/esp_lcd_panel_st7735.c:279-288 | mirroring again with the same arguments changes nothing |
| St7735.TableDelays | firmware/main/esp_lcd_panel_st7735.c:209-216 | a table walk waits 500 ms after each of its first two entries and nowhere else |
| St7735.SendsAllButEnd | firmware/main/esp_lcd_panel_st7735.c:209 | a table whose only end marker is its last entry is sent whole but for the marker |
| St7735.VendorTable | firmware/main/esp_lcd_panel_st7735.c:145-198 | the vendor table has 18 entries ending with its only end marker, and sends 17 commands, each with exactly its listed parameters |
| St7735.InitDelay | firmware/main/esp_lcd_panel_st7735.c:200-228 | initialisation makes 24 calls, waits 1.1 s in all, and ends with MADCTL, COLMOD and display on |
| St7735.WalkShape | firmware/main/esp_lcd_panel_st7735.c:205-226 | the delays and the number of calls of sleep-out, a table walk and the closing commands |
| St7735.TableLength | firmware/main/esp_lcd_panel_st7735.c:209-216 | a walk makes one call per entry plus a delay after each of the first two |
| St7735.Be16 | firmware/main/esp_lcd_panel_st7735.c:243-252 | a coordinate is sent as two bytes |
| St7735.Be16RoundTrip | firmware/main/esp_lcd_panel_st7735.c:243-252 | the two bytes read back big-endian as the coordinate modulo 2^16, and as the coordinate itself when it fits |
| St7735.DrawShiftsByGap | firmware/main/esp_lcd_panel_st7735.c:236-256 | drawing sends CASET and RASET with the gap-shifted start and end - 1, then RAMWR with the transfer length |
| St7735.TwoBytesPerPixel | firmware/main/esp_lcd_panel_st7735.c:255 | at 16 bits per pixel a frame whose product fits 32 bits sends two bytes per pixel |
| St7735.InvertCommand | firmware/main/esp_lcd_panel_st7735.c:265-270 | INVON exactly when inverting, INVOFF otherwise |
| St7735.DisplayCommand | firmware/main/esp_lcd_panel_st7735.c:322-327 | DISPOFF exactly when turning the display off, DISPON otherwise |
| St7735.Panel.constructor | firmware/main/esp_lcd_panel_st7735.c:79-82 | the panel holds the fields it was created with |
| St7735.Panel.Delete | firmware/main/esp_lcd_panel_st7735.c:107-117 | returns OK, resets the reset pin exactly when there is one, and frees the panel last |
| St7735.Panel.Reset | firmware/main/esp_lcd_panel_st7735.c:119-136 | with a reset pin, drives it active and inactive with 50 ms after each; without, sends SWRESET and waits 50 ms |
| St7735.Panel.Init | firmware/main/esp_lcd_panel_st7735.c:200-228 | returns OK after the calls of `InitCalls` with the panel's MADCTL and COLMOD |
| St7735.Panel.DrawBitmap | firmware/main/esp_lcd_panel_st7735.c:230-259 | returns OK after the calls of `DrawCalls` with the panel's gaps and pixel width |
| St7735.Panel.InvertColor | firmware/main/esp_lcd_panel_st7735.c:261-273 | returns OK after sending the inversion command alone |
| St7735.Panel.Mirror | firmware/main/esp_lcd_panel_st7735.c:275-293 | updates MADCTL as `MirrorBits` says and sends it |
| St7735.Panel.SwapXy | firmware/main/esp_lcd_panel_st7735.c:295-308 | updates MADCTL as `SwapBits` says and sends it |
| St7735.Panel.SetGap | firmware/main/esp_lcd_panel_st7735.c:310-316 | only the gaps change, and nothing is sent |
| St7735.Panel.DispOff | firmware/main/esp_lcd_panel_st7735.c:318-330 | returns OK after sending the display command alone |
| St7735.SendTable | firmware/main/esp_lcd_panel_st7735.c:208-216 | the counter loop sends each entry before the end marker with its masked parameter length, and waits after the first two |
| St7735.Create | firmware/main/esp_lcd_panel_st7735.c:45-105 | returns a fresh panel with the fields of `NewPanel` exactly when it succeeds |
| Console.ToUpper | firmware/main/console.c:161 | `toupper` moves exactly the lower-case letters to upper case |
| Console.LettersRoundTrip | firmware/main/console.c:161-183 | each level's letter names it in either case, and a character names a level exactly when its upper case is that level's letter |
| Console.FirstLetterOnly | firmware/main/console.c:160-185 | only the first character of the level counts, in either case, and the call succeeds |
| Console.SetLogSets | firmware/main/console.c:150-189 | with a tag and a level the call returns OK and sets the tag; an unknown letter prints the warning and sets ERROR; a known one sets its level |
| Console.SetLogRefuses | firmware/main/console.c:154-194 | a parse error returns 1 and sets nothing; a missing tag or level returns NOT_FOUND and sets nothing; a level is set exactly when both are present |
| Console.PollMessage | firmware/main/console.c:346-355 | an unknown command, a failing command and an internal error each leave a message; an empty line and a succeeding command leave none |
| Console.LineConsole.constructor | firmware/main/console.c:341-343 | the history starts empty |
| Console.LineConsole.Poll | firmware/main/console.c:335-360 | returns 1 when no line was read and 0 otherwise; only non-empty lines enter the history; the message is `PollMessage`'s |
| UiIdle.BootSweeping | firmware/main/ui/ui_idle.c:27-31 | the timer context starts inside the sweep invariant: counter 0, climbing, no blink |
| UiIdle.TickSweeping | firmware/main/ui/ui_idle.c:96-108 | a tick moves the counter one step in its direction and keeps it in 0..15, turning at both ends, with the blink counter in 0..16 |
| UiIdle.AclFade | firmware/main/ui/ui_idle.c:59-63 | while the ACL downloads its label's opacity is count*12+64, between 64 and 244; otherwise it is 255 |
| UiIdle.WifiVisibility | firmware/main/ui/ui_idle.c:78-86 | after an error or disconnection the Wi-Fi label is shown exactly while the counter is below 7; while connecting exactly from 8 on; otherwise always |
| UiIdle.BlinkEndsConnected | firmware/main/ui/ui_idle.c:65-73 | with traffic and a blink counter b > 0, the status stays for b-1 ticks, the counter falls by one per tick, and tick b sets the status to connected |
| UiIdle.TrafficBlinksSeventeenTicks | firmware/main/ui/ui_idle.c:65-73 | traffic on an idle blink counter keeps its status for 16 ticks and is "connected" after the 17th |
| UiIdle.RssiIcon | firmware/main/ui/ui_idle.c:252-262 | an icon is chosen exactly when the RSSI is at least -95 dBm, and it is one of the five icons 0..4 |
| UiIdle.RssiBands | firmware/main/ui/ui_idle.c:252-262 | icon k covers the 10 dB band from -95+10k up to below -85+10k, and icon 4 everything from -55 up |
| UiIdle.RssiMonotone | firmware/main/ui/ui_idle.c:252-262 | a stronger signal never gets a weaker icon |
| UiIdle.IdleScreen.constructor | firmware/main/ui/ui_idle.c:27-49 | the statics as the file initialises them, inside the sweep invariant, with no signal icon set |
| UiIdle.IdleScreen.AnimTimer | firmware/main/ui/ui_idle.c:51-109 | the opacities and the new state are those of one `Tick`, the sweep invariant is kept and the icon is untouched |
| UiIdle.IdleScreen.SetPowerStatus | firmware/main/ui/ui_idle.c:111-134 | records the power status, whatever its value, and changes nothing else |
| UiIdle.IdleScreen.SetAclStatus | firmware/main/ui/ui_idle.c:136-185 | records the ACL status and changes nothing else |
| UiIdle.IdleScreen.SetMqttStatus | firmware/main/ui/ui_idle.c:187-214 | records the MQTT status and changes nothing else |
| UiIdle.IdleScreen.SetWifiStatus | firmware/main/ui/ui_idle.c:217-246 | records the Wi-Fi status and changes nothing else |
| UiIdle.IdleScreen.SetRssi | firmware/main/ui/ui_idle.c:249-264 | the icon becomes `RssiIcon(rssi)` only while Wi-Fi is connected and the RSSI is at least -95 dBm; otherwise nothing changes |

## Left out

- FreeRTOS: queues are bounded sequences that either accept or refuse at once, so the 250 ms and 20 ms send and receive timeouts and their blocking are not modelled. Timers are armed as actions. Scheduling and concurrency between tasks are not modelled.
- Mutexes: `g_acl_mutex`, `g_sdcard_mutex` and `s_fd_mutex` are boolean flags of `Fs.Locks`. The model checks only that each path releases what it took, not mutual exclusion.
- SHA-224 and mbedtls: the digest is an uninterpreted function parameter. Its internals are a standard library, not this firmware.
- Transports: Wi-Fi and netif bring-up, the MQTT client, `esp_http_client` and TLS are foreign libraries. Their results are parameters (`Https.Exchange`, the publish acceptance flag, `esp_console_run`'s codes), and their calls are recorded actions.
- Hardware: GPIO, LEDC PWM, the sleep configuration and light sleep, and the SPI transfers of the LCD driver are recorded actions with their arguments. The `taskYIELD` after posting SLEEPING is left out: it only gives way to other tasks.
- Time: the clock (`time`, `xTaskGetTickCount`, `esp_log_timestamp`) is a parameter of each step. Tick periods are parameters, and waits are kept in milliseconds. The truncation of `ms / portTICK_PERIOD_MS` to whole ticks is not modelled.
- `strftime`, the time zone and the elapsed-time log lines are not modelled: they only format text for the screen or the log.
- Log output (`ESP_LOG*`, `printf`) is left out, except the console's messages, which are returned as values. The "Shutting down in 5 seconds" line of the system task is followed by a 5 ms delay, and the model keeps the 5 ms.
- Configuration: the strings `net_https_download_acl` and `net_ota_update` read come in as parameters (`NetTask.NetConfig`). `config_get_string` itself is modelled in `Config`.
- The OTA URL lookup and `esp_https_ota` are not modelled: the image mechanics are foreign. `NetOta.Update` takes the result of `esp_https_ota` as a parameter.
- LVGL: screen creation, styles, labels and the screens other than the idle one's state are left out. They only render.
- `arg_parse` is a parameter of `Console.SetLog` (its error count and the two strings). Linenoise's line editing and its history limits are left out: the model keeps every non-empty line.
- UiIdle.IdleScreen.SetAclStatus: statuses are the enumerations' named values, so the C setters' recording of a value that has no case cannot be expressed; every named value is recorded.
- NetMqtt.WifiPayload: requires the channel to be 1-14 or above 16. Channels 0, 15 and 16 index outside the 14-entry frequency table in the source, which is undefined behaviour that the model cannot give a value.
- St7735.SendTable: requires a table whose only end marker is last and whose length bytes stay within the 16-byte parameter arrays. The only table the driver walks meets this (`St7735.VendorTable`). Without the marker the source reads past the array.
- St7735.DrawBitmap: the gap additions are on unbounded integers. The source's `int` overflow for coordinates near 2^31 is not modelled; the transfer length's 32-bit wrap is.
- NetOta.Atoi: reads digits on unbounded integers. An overflowing `atoi` is undefined in C; the stored `size_t` is then taken modulo 2^32.
- MainTask: the calls that `main_task.c` makes with signatures of other revisions (`beep_queue` with a frequency, `display_show_screen` with one argument, `display_acl_status` with one argument in `net_task.c`) are recorded as actions, and those signatures are not reconciled.
- BeepTask: `beep_task.h` is not part of this model, so the field order of `beep_t` (`hz, msec, attack, decay`) and the value of `HZ_END` (-1) are assumptions. The ST7735 command codes and MADCTL bit positions come from ESP-IDF's `esp_lcd_panel_commands.h`, which is not part of this model either; the model names the commands and fixes the bits MV, MX and MY as bits 5, 6 and 7.
- DownloadRestartsMqtt, Iterate, Serve and DownloadCmd (`NetTask`): compose the corrected download (`NetHttps.DownloadOutcome` and `NetHttps.DownloadAcl`), not the one as written (`NetHttps.DownloadAsWritten`). As written, a failed delete or rename returns `ESP_OK`, so `net_task.c:432-434` would show "updated"; a reply other than 200 keeps `g_sdcard_mutex`. `NetTask.AsWrittenDownloadDiffers` shows both differences.
- The hash-header conditional fetch declared in `net/https.h` has no implementation in the sources and is not modelled.
- `main.c`, `spiflash.c`, `net_certs.c`, the SNTP files, `nvs_dump` and `nvs_set` are not modelled. They are start-up wiring and I/O.

## Findings

| source | as written | input that shows it | evidently intended | confidence | as-written member | corrected member |
|---|---|---|---|---|---|---|
| firmware/main/net/net_task.c:336,339 | the second buffer is sized for `err_ext` but filled from `err` | `net_cmd_queue_access_error("unknown rfid tag", "0000000042")` stores "unknown rfi" with no terminator | copy `err_ext` into the second buffer | high, not executed | NetTask.AccessErrorAsWrittenLosesTag | NetTask.AccessErrorCarriesBoth |
| firmware/main/net/net_https.c:150-153 | a reply other than 200 returns without giving back `g_sdcard_mutex` | a 404 reply to the ACL request | release the mutex on every path | high, not executed | NetHttps.Non200KeepsSdcardLock | NetHttps.DownloadReleasesSdcard |
| firmware/main/net/net_https.c:129-143,158-160 | a failed unlink or rename queues "ACL failed" but returns `r`, which is ESP_OK | HTTP 200 with the rename failing | return ESP_FAIL when the install fails | high, not executed | NetHttps.FailedInstallReturnsOk | NetHttps.DownloadSuccess |
| firmware/main/config.c:92-96,104-106 | a failed `malloc` returns the ESP_OK of the length query with `*str` NULL | a stored key with the allocation failing | return ESP_ERR_NO_MEM | medium, not executed | Config.AllocFailureReportsOk | Config.GetStringOkIffValue |
| firmware/main/net/net_ota.c:30,54-55,69 | the percentage divides by `content_length`, which stays 0 without a Content-Length header | a chunked image: ON_CONNECTED, then ON_DATA | skip the percentage while the total is unknown | high, not executed | NetOta.ChunkedImageTraps | NetOta.HandleAgrees |
| firmware/main/net/net_mqtt.c:194,244 | `snprintf` is told the 256-byte payload buffer holds 512 | descriptor fields of legal length (a 31-character project name and version, a 30-character IDF version) | pass the buffer's real size | high, not executed | NetMqtt.BootOverrunsBuffer | NetMqtt.BootPayloadFits |
