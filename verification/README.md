# Reboot manager: a verified model

`rebootnow` decides whether a requested reboot goes ahead or is deferred;
`update-prev-reboot-info` runs at boot and works out why the last reboot
happened. The two share small text files. This project models the logic under
those files in Dafny and proves what it guarantees over whole histories of a
device, for every text the files may hold. `dafny verify dfyconfig.toml`
checks all of it.

Strings are C strings: sequences of characters without the final NUL; nothing
depends on how wide a character is. Buffers are arrays where the program fills
them in place, and `Clip` is the copy of a string into a buffer.

## How the modules fit together

- `CStrings`: strstr, strchr, bounded copies, decimal numbers.
- `RecordText`, `RecordReading`, `PreviousRecord`: the printed reboot record,
  `extract_json_value`, and the two programs' readers of the record.
- `Requests`, `CronTime`, `CyclicReboot`, `CyclicRuns`: categorisation, the
  scheduled time, the class `Device` with the files `rebootnow` keeps, and the
  theorems about runs. The record on file is kept as text, so every statement
  about runs goes through the real printer and the real reader.
- `RebootInfos`, `LineScan`, `HardwareReason`, `DerivePath`, `DeriveLaws`,
  `DerivedLoop`: the fetcher's structure, its log scans, its register mapping,
  the record it derives, that record from the contents of the files, and what it
  does to the loop detection.
- `BoundedAppend`, `LegacyLog`, `LegacyLogFields`, `LegacyLogRoundTrip`: the text
  log, `parse_legacy_log` on logs of any content, and the two printers.
- `HandoverLog`: a request's record through the handover and that log.
- `PidGuard`, `BackupWait`: two interleaving protocols as state machines, one
  step per system call.
- `TreeRemoval`, `LogSync`: directory removal and log copying.

## Results that differ from what one might expect

- The loop bound needs fields that survive the record file. A quote, or a field
  longer than its buffer, makes a cause unrecognisable, and such a cause is
  never deferred (`RecognisesItself`, `QuotedSourceUnrecognised`,
  `UnfitCauseNeverDeferred`).
- Such a request can also be mistaken for another one: a text of 256 characters
  or more reads as its first 255, one with a quote as what stands before the
  quote, and the request with that shorter text is counted at once
  (`LongTextIsCounted`, `QuotedTextIsCounted`).
- The counter counts repetitions of the record on file, which a boot may have
  derived. It speaks about requests if and only if every request's record reads
  as that request or as none, and no record a boot leaves reads like a request
  (`EarnedExactly`); requests whose fields fit always meet this
  (`OrdinaryIsRegular`). Whether a file reads like a request is a test anybody can
  make: its reason is the category of its own source and custom reason
  (`CountableExactly`).
- On the derive path that happens exactly for a firmware failure found in the
  logs and, without a kernel panic, for an unrecognised register text that is
  `FIRMWARE_FAILURE` up to its first quote (`DerivedCountsExactly`,
  `FailureRegisterCounts`, `DerivedFailureIsCounted`).
- A pause of ten minutes or more always ends with the scheduled reboot; with
  nine or fewer a looping scheduled request can be held back at the first
  firing, but not on a later day (`PauseOutlastsWindow`, `ShortPauseCanHold`).
- The fetcher's 512-byte buffer drops the last field of a long record
  (`ReloadExactly`), so that a request's text reaches the next boot's log only
  below that size (`FieldsSurviveExactly`).
- The log copy does not look at the result of closing the target; bytes are
  lost exactly when the close fails to land them (`SyncLogs`, `ConservedExactly`).
- A running instance named in the PID file keeps every newcomer out
  (`HolderKeepsOut`). At most one contender ever gets the guard, and exactly one
  does in all interleavings if and only if the file names no running rebootnow,
  contender or not; a recycled pid can leave everybody out, its own process
  included (`ExactlyOneGuard`, `NobodyGetsGuard`).
- The line scan equals a search of the whole file exactly when all lines fit
  the buffer (`SearchExactlyWhenLinesFit`).
- The reason behind `HAL_SYS_Reboot` keeps the line's newline exactly when no
  parenthesis follows it and it is not clipped (`HalNewlineExactly`).
- Two branches of the hardware mapping can never be reached (`DeadBranches`).

Where documents and code disagree the model follows the code: the design
documents give a kernel panic precedence over a firmware failure
(docs/reboot-reason-fetcher/HLD.md:156-157), `classify_reboot_reason` does the
opposite.

## Model

| member | source | states |
|---|---|---|
| RecordText.ExtractJsonValue | reboot-helper/src/cyclic_reboot.c:89-104 | the caller's buffer ends up holding the clipped value behind the first `"key":"`, terminated; on failure it is untouched and -1 is returned |
| RecordText.WriteRecord | reboot-helper/src/reboot_main.c:392-401 | the successive fprintf calls print the five fields in order, one per line, inside braces; the fetcher prints the same text |
| RecordReading.ExtractIsLookup | reboot-reason-fetcher/src/bootup_reason_checker.c:36-66 | on any buffer at all, the strstr/strchr search is the lookup of a key followed by a colon among the segments between quotes |
| RecordReading.FieldRecovered | reboot-reason-fetcher/src/json.c:71-77 | of the first n characters of a quote-free printed record exactly the fields whose closing quote is among them are found, with their exact value, even if a value equals a key |
| PreviousRecord.ReadPreviousRebootInfo | reboot-helper/src/cyclic_reboot.c:106-126 | succeeds exactly when all four fields are found in the first 4095 bytes; each of the five buffers, the time stamp's included, holds its field or is as it was |
| PreviousRecord.PrintThenReadPlain | reboot-helper/src/cyclic_reboot.c:106-126 | from a printed record without quotes, of any size, the clipped fields come back if its values stay below 4017 characters, and nothing otherwise |
| PreviousRecord.PrintThenRead | reboot-helper/src/cyclic_reboot.c:106-126 | print then read returns every field exactly, for all fields without quote and NUL within the buffers |
| PreviousRecord.BytesDecideEquality | reboot-helper/src/cyclic_reboot.c:203-209 | the strcmp tests on the file's bytes decide equality of the records |
| PreviousRecord.RecognisesItself | reboot-helper/src/cyclic_reboot.c:203-209 | a request is recognised as a repetition of itself if and only if its fields fit |
| PreviousRecord.QuotedSourceUnrecognised | reboot-helper/src/cyclic_reboot.c:89-104 | a failing input: one quote in the source is enough |
| PreviousRecord.SourceAndReasonRecovered | reboot-reason-fetcher/src/json.c:71-77 | source and reason are read back, the reason up to its first quote, whatever the fields printed after it contain |
| PreviousRecord.LastFieldCutAtQuote | reboot-helper/src/cyclic_reboot.c:89-104 | a quote in the last field cuts it there; the rest of the field is never looked at |
| PreviousRecord.AlwaysReadable | reboot-helper/src/cyclic_reboot.c:89-126 | whatever quotes its fields contain, a printed record the buffer holds is readable |
| PreviousRecord.ReloadExactly | reboot-reason-fetcher/src/bootup_reason_checker.c:454-471 | for every record: through the 512-byte buffer it comes back whole if and only if its fields fit the fetcher's buffers and its last field is empty or its values stay below 433 characters; otherwise a record of fitting fields loses or clips exactly its last field |
| Requests.CheckStringValue | reboot-helper/src/reboot_main.c:89-97 | true exactly when some list entry contains the needle |
| Requests.CategoriseRequest | reboot-helper/src/reboot_main.c:299-311 | an application entry that contains the source decides first, with the maintenance override; then an operations entry, then a maintenance entry; no entry means firmware failure |
| Requests.ScheduledRequestIsOps | reboot-helper/src/reboot_main.c:54-68 | the request made by the cron entry is categorised OPS_TRIGGERED |
| Requests.TellingIsUnlisted | reboot-helper/src/reboot_main.c:47-72 | the sources the fetcher files itself, and all others with the same telling letters, are on none of the three lists |
| CronTime.ComputeCronTime | reboot-helper/src/cyclic_reboot.c:128-148 | for every valid time and any integer offset both loops end with a valid minute and hour whose minute of day is (now + 1 + offset) mod 1440 |
| CronTime.StopMinutes | reboot-helper/src/cyclic_reboot.c:173-178 | the pause is always between 1 and 1439 minutes |
| CronTime.FirstFiring | reboot-helper/src/cyclic_reboot.c:232-238 | for every clamped duration d the first firing after the current minute is exactly d + 1 minutes away |
| CyclicReboot.Device.SameAsPrevious | reboot-helper/src/cyclic_reboot.c:183-209 | the buffers and string comparisons decide whether the record on file describes this very cause |
| CyclicReboot.Device.HandleCyclicReboot | reboot-helper/src/cyclic_reboot.c:150-279 | with detection off or without the flag it proceeds and changes nothing; out of the window, at an unknown uptime or with another cause on file it proceeds and clears everything; a repetition is held in stop mode, stops the device and schedules the end of the pause from the sixth on, and is counted before |
| CyclicReboot.Device.RequestReboot | reboot-helper/src/reboot_main.c:365-433 | one request as one step: both record files hold its text, the decision is taken on the old record, and the rebootNow flag is set; with detection off it always reboots and leaves what was counted, stopped and scheduled |
| CyclicReboot.Device.Boot | reboot-reason-fetcher/src/rebootreason_main.c:252-314 | a boot hands reboot.info over as the previous record or, without one, writes the derived record |
| CyclicReboot.Device.BootWithFailedRename | reboot-reason-fetcher/src/rebootreason_main.c:287-306 | a rename that fails otherwise leaves reboot.info and records a bare time stamp |
| CyclicReboot.Device.Run | reboot-helper/src/cyclic_reboot.c:181-278 | the methods executed one after the other realise the run function the theorems speak about |
| CyclicRuns.ReachableAgrees | reboot-helper/src/cyclic_reboot.c:212-268 | in every reachable state the counter is in 0..5, stop flag, stop parameter and cron entry agree, stop means counter 5 and the rebootNow flag present, whatever detection did |
| CyclicRuns.SwitchedOffChangesNothing | reboot-helper/src/cyclic_reboot.c:155-181 | in any run whose requests have detection switched off the counter, the stop flag, the parameter and the entry stay as they were and every request reboots |
| CyclicRuns.HandoverWaits | reboot-reason-fetcher/src/rebootreason_main.c:252-306 | a request's record waits through any number of failed renames, is handed over once by the next boot, and later boots record what they derive |
| CyclicRuns.LoopBound | reboot-helper/src/cyclic_reboot.c:181-278 | from every reachable state any number of requests with one cause in the window lets exactly the first few through, at most six, and defers every later one; exactly six when the record on file is another |
| CyclicRuns.UnfitCauseNeverDeferred | reboot-helper/src/cyclic_reboot.c:203-209 | a cause that does not fit is never counted and never deferred, from any state |
| CyclicRuns.SeventhRequestHalts | reboot-helper/src/cyclic_reboot.c:218-246 | on a fresh device the seventh equal request enters stop mode |
| CyclicRuns.ScheduledExit | reboot-helper/src/cyclic_reboot.c:232-268 | in every reachable stop state the scheduled request is deferred if and only if it comes in the window and is itself the record on file; otherwise it clears stop flag, parameter, cron entry and counter |
| CyclicRuns.PauseOutlastsWindow | reboot-helper/src/cyclic_reboot.c:192-254 | with a pause of at least ten minutes, and with any pause from the second day on, the scheduled request fires outside the window and always clears everything |
| CyclicRuns.ShortPauseCanHold | reboot-helper/src/cyclic_reboot.c:210-216 | with nine minutes or fewer there is a run in which the scheduled request is held at its first firing |
| CyclicRuns.CounterIsExact | reboot-helper/src/cyclic_reboot.c:192-254 | with detection on, for every run and all texts, the counter is the number of consecutive recurrences up to five and the device is stopped exactly from the sixth on |
| CyclicRuns.CountableExactly | reboot-helper/src/cyclic_reboot.c:203-209 | a file can be taken for some request's if and only if its reason is the category of its own source and custom reason |
| CyclicRuns.CounterIsEarned | reboot-helper/src/cyclic_reboot.c:192-254 | counter k means that the last k + 1 requests had one cause and the last k came in the window, in every run whose request records read as themselves or as no request, and whose other records read as no request |
| CyclicRuns.DeferralIsEarned | reboot-helper/src/cyclic_reboot.c:210-241 | in such a run a deferred request, whatever its fields, is at least the seventh in a row with its cause, six of them in the window |
| CyclicRuns.EarnedExactly | reboot-helper/src/cyclic_reboot.c:203-254 | history soundness over all runs of a device that may see every ordinary request and any further requests, boots and failed renames holds if and only if each of these events meets that condition |
| CyclicRuns.OrdinaryIsRegular | reboot-helper/src/cyclic_reboot.c:203-209 | requests whose fields fit and failed renames always meet that condition |
| CyclicRuns.PlainUnmistakable | reboot-helper/src/cyclic_reboot.c:203-209 | a request without quotes whose source and custom reason fit reads as itself or as none if and only if its text fits its buffer or its record is too long to be read |
| CyclicRuns.LongTextIsCounted | reboot-helper/src/cyclic_reboot.c:98-103 | a text longer than its buffer makes the request with its first 255 characters count as a repetition |
| CyclicRuns.QuotedTextIsCounted | reboot-helper/src/cyclic_reboot.c:95-101 | a text with a quote makes the request with what stands before the quote count as a repetition |
| CyclicRuns.DerivedRecordBreaksLoop | reboot-helper/src/cyclic_reboot.c:247-268 | after a boot that derives a record every next request is neither counted nor deferred and clears everything if and only if the record reads like no request |
| DerivedLoop.DerivedCountsExactly | reboot-reason-fetcher/src/rebootreason_main.c:261-286 | for every register, log and device the derived record reads like a request if and only if the logs show a firmware failure or, without a panic, the unrecognised register text is FIRMWARE_FAILURE up to a quote |
| DerivedLoop.FailureRegisterCounts | reboot-reason-fetcher/src/reboot_reason_classify.c:408-418 | a register that holds FIRMWARE_FAILURE is such a content |
| DerivedLoop.DeriveBreaksLoopExactly | reboot-reason-fetcher/src/rebootreason_main.c:261-305 | a boot on the derive path breaks the loop for every next request if and only if register and logs yield no such record |
| DerivedLoop.HardResetBreaksLoop | reboot-reason-fetcher/src/rebootreason_main.c:261-305 | a derived HARD_POWER or KERNEL_PANIC record breaks the loop, for every register, log and device |
| DerivedLoop.DerivedFailureIsCounted | reboot-reason-fetcher/src/reboot_reason_classify.c:270-278 | every such content gives a run in which a request is counted although no other request had its cause; for a failure in the logs it is the request that files the derived record itself |
| PidGuard.HolderKeepsOut | reboot-helper/src/system_cleanup.c:381-397 | while the file names a running rebootnow outside the contenders, in no interleaving is it changed or anybody granted |
| PidGuard.HolderRefusesAll | reboot-helper/src/system_cleanup.c:348-407 | in such a case every interleaving that gives each contender eight calls ends with all of them refused |
| PidGuard.AtMostOneGuard | reboot-helper/src/system_cleanup.c:348-407 | whatever the file said before, in no interleaving of any number of contenders do two get the guard, the file names the one that did, and it did not name a running instance outside |
| PidGuard.TakeoverCompletes | reboot-helper/src/system_cleanup.c:348-407 | with a file that names no running rebootnow, every interleaving that gives each contender eight calls ends with exactly one guard and a file naming it |
| PidGuard.ExactlyOneGuard | reboot-helper/src/system_cleanup.c:348-407 | all interleavings that give each contender eight calls end with exactly one guard if and only if the file names no running rebootnow, contender or not |
| PidGuard.CheckDecides | reboot-helper/src/system_cleanup.c:381-399 | under the lock, with such a file, the owner check against all running rebootnow processes refuses if and only if somebody has taken over already |
| PidGuard.NobodyGetsGuard | reboot-helper/src/system_cleanup.c:382-397 | with a file that names a contender some interleaving refuses all of them: the others while the named one is alive, then the named one by itself |
| PidGuard.FileNamesPid | reboot-helper/src/system_cleanup.c:381-386 | a file that holds a pid names it, with or without a newline and whatever comes on later lines |
| BackupWait.ScanBuffer | reboot-reason-fetcher/src/rebootreason_main.c:118-128 | the scan by byte offset finds the sentinel exactly when it is among the events read |
| BackupWait.NoLostWakeUp | reboot-reason-fetcher/src/rebootreason_main.c:53-129 | in every interleaving an existing sentinel that is still waited for has its event in the queue, and a reported one was created |
| BackupWait.DetectedInTime | reboot-reason-fetcher/src/rebootreason_main.c:96-129 | a waiter at the loop that does not give up detects an existing sentinel after two successful calls for every event queued before it and two more |
| BackupWait.FoundAfterCreation | reboot-reason-fetcher/src/rebootreason_main.c:53-129 | from the start, a waiter that does not give up finds the sentinel by a check or by its event, after its creation and two successful calls for every file created up to then |
| BackupWait.WaitEnds | reboot-reason-fetcher/src/rebootreason_main.c:96-115 | the deadline and every error but that of read end the wait, and a read error loses no event |
| BackupWait.StopsForAReason | reboot-reason-fetcher/src/rebootreason_main.c:62-115 | a wait that ends without the sentinel has met its deadline or an error |
| TreeRemoval.FileSystem.RemoveDirAt | reboot-helper/src/system_cleanup.c:96-125 | of any tree and any set of failing calls exactly the entries below which nothing resists are removed, everything outside stays as it was, the targets of links included, and the result is 0 if and only if the entry is gone |
| TreeRemoval.FileSystem.ClearSubdirectory | reboot-helper/src/system_cleanup.c:127-158 | only child directories that fstatat can look at are removed, every other child stays; the result is 0 exactly when the root opens and none of those directories is left |
| TreeRemoval.SurvivalIsLocal | reboot-helper/src/system_cleanup.c:112-124 | an entry survives if and only if it resists itself or one of its children survives |
| LogSync.CopyChunks | reboot-helper/src/system_cleanup.c:209-214 | what the chunked copy writes is a prefix of the source, the whole of it if and only if no write came up short |
| LogSync.Folders.SyncLogs | reboot-helper/src/system_cleanup.c:160-227 | every file whose name ends in .log or .txt and whose paths fit is moved to the end of its namesake when the disk plays along, and otherwise copied or kept as the disk behaves; every other file is unchanged in both folders; no target loses anything, and the bytes of each file of the directory survive if and only if it was not emptied after a close that failed to land its last bytes |
| LogSync.ConservedExactly | reboot-helper/src/system_cleanup.c:195-224 | the same for one file, from the outcome of its copy |
| LineScan.SearchStringInFile | reboot-reason-fetcher/src/reboot_reason_classify.c:237-257 | succeeds exactly when some piece delivered by fgets contains the text |
| LineScan.ScanIsSearch | reboot-reason-fetcher/src/reboot_reason_classify.c:249-254 | with lines that fit the buffer the scan finds a text if and only if it occurs anywhere in the file |
| LineScan.SearchExactlyWhenLinesFit | reboot-reason-fetcher/src/reboot_reason_classify.c:249-254 | the scan finds exactly what occurs in the file, for every one-line text, if and only if all lines fit the buffer |
| LineScan.ScanIsSound | reboot-reason-fetcher/src/reboot_reason_classify.c:249-254 | whatever the lines, what the scan finds is in the file |
| LineScan.StraddledNeedleMissed | reboot-reason-fetcher/src/reboot_reason_classify.c:249-254 | one family of such misses: a text that straddles the cut of a longer line |
| LineScan.SearchPanicInFile | reboot-reason-fetcher/src/reboot_reason_classify.c:94-123 | the earliest piece with a signature and within it the lowest table index are reported, with the clipped line; none exactly when every piece is quiet |
| LineScan.PanicIsSearch | reboot-reason-fetcher/src/reboot_reason_classify.c:94-123 | with fitting lines a panic is reported if and only if some signature occurs in the file |
| LineScan.ReportIsFirst | reboot-reason-fetcher/src/reboot_reason_classify.c:94-123 | with fitting lines the report holds the first line of the whole file that shows a signature, without its newline, and of the signatures in it the first of the table; no signature occurs before that line |
| HardwareReason.MapHardwareReason | reboot-reason-fetcher/src/reboot_reason_classify.c:295-419 | the chain of tests and assignments leaves the mapping of the first table row the text hits; the other fields are untouched |
| HardwareReason.MappingIsIdempotent | reboot-reason-fetcher/src/reboot_reason_classify.c:295-419 | mapping the mapped reason gives the same three fields, for all texts, the clipped unknown ones included |
| HardwareReason.DeadBranches | reboot-reason-fetcher/src/reboot_reason_classify.c:383-392 | no text is ever first recognised by those two branches or mapped to `SCPU EJTAG` or `GEN WatchDog` |
| HardwareReason.FirstHitDecides | reboot-reason-fetcher/src/reboot_reason_classify.c:295-419 | a text is mapped by the first table row it hits and by no other, or filed as it stands |
| HardwareReason.MappingFits | reboot-reason-fetcher/src/reboot_reason_classify.c:408-418 | every mapped field fits its buffer and only an empty text leaves one empty |
| HardwareReason.RecognisedExactly | reboot-reason-fetcher/src/reboot_reason_classify.c:295-419 | a text is recognised if and only if it contains one of 25 essential texts; the other texts of the tests add nothing |
| HardwareReason.KnownReasons1 | reboot-reason-fetcher/src/reboot_reason_classify.c:298-340 | the source and text filed for each of the first seven register reasons |
| HardwareReason.KnownReasons2 | reboot-reason-fetcher/src/reboot_reason_classify.c:341-375 | the same for the next six |
| HardwareReason.KnownReasons3 | reboot-reason-fetcher/src/reboot_reason_classify.c:376-407 | the same for the last six that can be reached |
| DerivePath.DetectKernelPanic | reboot-reason-fetcher/src/reboot_reason_classify.c:186-235 | detected exactly when the platform's log panics, on BRCM only together with the oops marker; type and details are those of the earliest piece and lowest signature |
| DerivePath.CheckFirmwareFailure | reboot-reason-fetcher/src/reboot_reason_classify.c:259-293 | the findings of the two scans, the second overwriting the initiator but not the details |
| DerivePath.GetHardwareReason | reboot-reason-fetcher/src/log_parser.c:117-184 | the upper-cased first line and its first token, or UNKNOWN |
| DerivePath.ClassifyRebootReason | reboot-reason-fetcher/src/reboot_reason_classify.c:448-586 | a firmware failure decides first, then a custom reason that is there already, by its list, then a panic, then the register text or a hard power loss, with the custom reason of the platform, and a software reboot when nothing is known; the inner UNKNOWN fallback is dead code |
| DerivePath.DeriveRecord | reboot-reason-fetcher/src/rebootreason_main.c:261-286 | the calls of the derive branch in order build the derived cause under the given time stamp |
| DerivePath.DeriveIsTotal | reboot-reason-fetcher/src/rebootreason_main.c:248-286 | for every register, log and device the record has a source, a reason and a text within the buffers, an empty customReason exactly for a firmware failure, and is never the UNKNOWN fallback |
| DeriveLaws.FailureRecord | reboot-reason-fetcher/src/reboot_reason_classify.c:259-293 | from the log files alone: which record ten reboots in a row or a modem crash give, with the initiator of the last finding and the text of the first |
| DeriveLaws.PanicRecord | reboot-reason-fetcher/src/reboot_reason_classify.c:186-235 | from the log files alone: without a failure, a kernel panic gives the kernel's record |
| DeriveLaws.NoRegisterRecord | reboot-reason-fetcher/src/log_parser.c:117-141 | without either finding, on another platform or with a missing or blank register the record is that of a hard power loss |
| DeriveLaws.RegisterRecord | reboot-reason-fetcher/src/reboot_reason_classify.c:508-533 | without either finding, on BRCM source, reason and text are those of the upper-cased first token of the register's first line, and the custom reason is the whole line in capital letters behind its prefix, cut to the buffer |
| DeriveLaws.EmptyLineRecord | reboot-reason-fetcher/src/reboot_reason_classify.c:563-577 | a register file that starts with an empty line counts as a software reboot |
| DeriveLaws.EveryRegister | reboot-reason-fetcher/src/log_parser.c:155-184 | every other register file has such a line, capitals and token |
| BoundedAppend.UpdateRebootLog | reboot-helper/src/reboot_main.c:172-203 | the text is appended as far as it fits, the buffer is terminated and the count is its length; full buffers and formatting errors included |
| BoundedAppend.AppendsRefineConcat | reboot-helper/src/reboot_main.c:172-203 | any sequence of appends comes to the first min(total, size - 1) characters of the concatenation |
| BoundedAppend.AppendAll | reboot-helper/src/reboot_main.c:172-203 | after any sequence of appends the buffer itself holds those characters, terminated once anything was appended, and the count is their number; without an append it is untouched |
| BoundedAppend.FormatReasonLine | reboot-helper/src/reboot_main.c:323-332 | the three appends of main leave what fits of the whole reason line |
| LegacyLog.GetVal | reboot-reason-fetcher/src/bootup_reason_checker.c:228-241 | the buffer holds the value without leading blanks and trailing white space, clipped |
| LegacyLog.ParseLegacyLog | reboot-reason-fetcher/src/bootup_reason_checker.c:243-324 | result code and structure are those of the parse of the fgets lines; a failure leaves the structure alone |
| LegacyLogFields.FailsExactly | reboot-reason-fetcher/src/bootup_reason_checker.c:300-321 | the parse fails if and only if no line has any marker; one field is enough |
| LegacyLogFields.RawLogParses | reboot-reason-fetcher/src/bootup_reason_checker.c:279-314 | without lines of the fetcher each field is the value in the last line with its marker, empty without one, and the last reason line kept resolves HAL_SYS_Reboot |
| LegacyLogFields.FetchersLogParses | reboot-reason-fetcher/src/bootup_reason_checker.c:267-278 | with one to four lines of the fetcher each field is the value in the last line with its marker, and keeps the caller's value without one |
| LegacyLogFields.FourSuffice | reboot-reason-fetcher/src/bootup_reason_checker.c:296 | after the fourth line of the fetcher nothing is read any more |
| LegacyLogFields.FieldIsCore | reboot-reason-fetcher/src/bootup_reason_checker.c:228-241 | a value is what stands between the blanks in front and the white space behind, a carriage return included |
| LegacyLogFields.FieldIsCut | reboot-reason-fetcher/src/bootup_reason_checker.c:234-235 | a value too long for its buffer is cut there |
| LegacyLogFields.HalWithoutWords | reboot-reason-fetcher/src/bootup_reason_checker.c:194-208 | a reason line without a trigger changes nothing, and one without a space behind the initiator gives the initiator alone |
| LegacyLog.ResolveHalSysReboot | reboot-reason-fetcher/src/bootup_reason_checker.c:182-226 | the loops over the reason line compute the initiator and the trimmed words, or leave the raw fields |
| LegacyLogRoundTrip.PrintRebootLog | reboot-helper/src/reboot_main.c:314-346 | the log is the concatenation of the five clipped lines, and clean fields parse back from it |
| LegacyLogRoundTrip.PrintPreviousLog | reboot-reason-fetcher/src/bootup_reason_checker.c:507-511 | the log written line by line parses back to the same fields |
| LegacyLogRoundTrip.RawRoundTrip | reboot-reason-fetcher/src/bootup_reason_checker.c:266-314 | source, time, custom and other reason come back from the log rebootnow prints, for all trimmed one-line marker-free fields that fit, crash or not |
| LegacyLogRoundTrip.PreviousLogTrims | reboot-reason-fetcher/src/bootup_reason_checker.c:228-297 | from the log the fetcher prints every one-line marker-free field without leading blanks comes back without its trailing white space, behind a reason line of any length |
| LegacyLogRoundTrip.PreviousRoundTrip | reboot-reason-fetcher/src/bootup_reason_checker.c:266-297 | in particular trimmed fields come back exactly |
| LegacyLogRoundTrip.MarkerFreeTextParses | reboot-reason-fetcher/src/bootup_reason_checker.c:266-297 | a line without markers, cut into any number of pieces, changes nothing but the kept reason line |
| LegacyLogRoundTrip.PreviousLinesWin | reboot-reason-fetcher/src/bootup_reason_checker.c:300-314 | one Previous line makes every other line irrelevant |
| LegacyLogRoundTrip.HalResolves | reboot-reason-fetcher/src/bootup_reason_checker.c:182-226 | of every reason line with a trigger and a space the initiator and the text before the first parenthesis, without the blanks around it, come out, clipped to the buffers |
| LegacyLogRoundTrip.EveryHalLine | reboot-reason-fetcher/src/bootup_reason_checker.c:182-226 | every line with a trigger and a space behind it has the shape HalResolves speaks about |
| LegacyLogRoundTrip.HalNewlineExactly | reboot-reason-fetcher/src/bootup_reason_checker.c:214-225 | the newline stays in the reason if and only if no parenthesis precedes it and the reason is not clipped |
| LegacyLogRoundTrip.HalLogParses | reboot-reason-fetcher/src/bootup_reason_checker.c:300-314 | the parse of a log whose initiator is HAL_SYS_Reboot yields the real initiator and the reason words |
| HandoverLog.FieldsSurviveExactly | reboot-reason-fetcher/src/rebootreason_main.c:252-300 | the record of a request, handed over, reloaded, printed to the log and parsed at the next boot yields its fields, the text as far as it is kept; all of them if and only if the text fits the fetcher's buffer and is empty or the values stay below 433 characters |

## Left out

- Logging, telemetry markers, usage text and the maintenance flag: output or a single flag, easy members only.
- The parameter service and the cron script are foreign code: a stored boolean, an input value and an optional entry that always succeed stand for them. Failing file creation and failing counter writes are not modelled either; the counter is kept as a number, not as text.
- fork, exec, sleeping, signals, service stops and device scripts: effects on the operating system.
- A crash in the middle of a request: the file updates are not atomic, one request is one step.
- Requests that end before the decision (help, missing source, guard refused) change none of the files and are not events.
- PidGuard.AtMostOneGuard: covers the takeover of an existing file; not the creation of the file, not exits that remove it, not an unreadable command line of a live process. The processes outside the contenders stay alive meanwhile, and fdopen, ftruncate and the write under the lock succeed.
- BackupWait.NoLostWakeUp: the sentinel is not removed and the event queue does not overflow; the clock is an outcome of each call, not a number.
- TreeRemoval.FileSystem.RemoveDirAt: each listed entry is visited once and nobody else changes the tree meanwhile.
- LogSync.Folders.SyncLogs: two different path strings are two different directories, although the program compares only the strings; directory entries are regular files without read errors, and the target is opened in append mode as in the production build.
- LegacyLog.ResolveHalSysReboot: returns the two fields as values instead of writing them into the caller's buffers.
- PidGuard and BackupWait model their functions as steps of a state machine on values, so that other processes can act between any two system calls.
- parse_device_properties, log discovery, the parodus and keypress files and the flock wrappers: plumbing with easy properties.
- The shell scripts and their equivalence with the programs.
