# Verified models of the GS201 partition migration and USB services

Dafny models of the stateful parts of the device tree, with proofs that hold for every input, every run
or every reachable state.

- **Partition migration** (`convert_to_ext4.sh`), modules `Flash`, `Migration`, `MigrationSafety`,
  `MigrationFinish`, `MigrationLoss`, `Converter`. Devices are sequences of 4096-byte blocks, each with cached and durable
  contents. A run interleaves the script's commands (each may fail), background write-back, power cuts at
  every point and reboots. `Converter` is the script as a loop, tied to the state machine by a ghost trace.
- **USB data sessions** (`UsbDataSessionMonitor`), modules `DataSession`, `SessionMonitor`. The specification
  cuts the whole event history into maximal intervals; the monitor, which only clears and appends, is
  shown to upload exactly the same. The data role starts out arbitrary, since the field has no
  initialiser (`usb/usb/UsbDataSessionMonitor.h:100`).
- **Uevents and descriptors**, modules `Uevents`, `EpollFiles`. The pointer walk over a received message,
  what is done with the strings it visits, and the epoll interest list.
- **Role switches** (`Usb.cpp`), modules `RoleSwitch`, `CallbackLifecycle`, `RoleText`, `PortScan`. Any number of
  API threads and the uevent thread, three locks and a condition variable, as interleaved steps; the
  callback; the text that sysfs is written and that it answers with; the port scan.
- **Gadget function switch** (`UsbGadget.cpp`), modules `GadgetSwitch`, `InterruptScan`. A reconfiguration that
  may fail at every stage, and the scan of `/proc/interrupts`.

`Options` and `Search` are shared. `dafny verify dfyconfig.toml` checks the whole project.

## What the migration proofs assume

- A cut `dd`, or unsynced data at a power cut, leaves any mix of old and new 4096-byte blocks. Both magics lie in block 0,
  and a block is written whole.
- A power cut while `efs` is being formatted, or while it is mounted for the copy, may leave anything on `efs`;
  so may a format of `efs` that reports failure.
- Reads are faithful. Different contents have different checksums, so equal checksums mean equal contents.
- `umount`, `sync` and a successful `mke2fs` make their writes durable; a successful `mke2fs` leaves no files; a mounted f2fs
  keeps its files.
- "Files" are regular files, as at lines 124-125 of the script, with names that `xargs` passes on whole.

Four more things are not assumed but are fields of `Promises`, so that the results say which of them are needed and when:
a format of `persist` (line 140) that reports failure has left it alone; so has a zeroing of `efs` (line 170) that
reports failure before the end of the device; a power cut during the format of `persist` leaves it as it was or without its f2fs
magic; and of `efs`, block 0 is the first of the changed blocks to be written back. Nothing is asked of the order in which
`persist` is written back.

## What came out

- `MigrationLoss.SafeExactly` gives the exact condition for never losing a file: a format of `persist` must be harmless when it
  fails and recognisable when the power is cut and, if the two partitions have the same size, a failing zeroing must be
  harmless, block 0 of `efs` must be written back before the rest, and `efs` must have at least 64 MiB. On a smaller `efs`, `dd` zeroes
  everything and then reports that there is no space left, and the retry copies the zeroes over `persist`. Each missing promise
  has a run that loses the files. Partitions of different sizes need only the two promises about the format, but never finish:
  the checksums cannot match.
- A power cut during the format of `persist` can leave `persist` without a magic and the files on `efs`. Every
  later boot then exits at line 59, with a message that says the partition has not been initialised, and the migration
  never resumes (`MigrationLoss.StrandingIsReachable`). `MigrationFinish.FinishesExactly` says from which boots it can
  still be finished: those that get as far as the loop, on partitions of one size.
- Success is logged before the zeroing is durable, so a run after a success can change `efs` again
  (`MigrationLoss.RedoIsReachable`). It leaves both devices alone for good if and only if the first boot
  finds `efs` without the ext4 magic (`MigrationFinish.SettledExactly`).
- `getCurrentRoleHelper` may come back with another union tag than it was called with, and its caller reads the union
  under the old tag (`usb/usb/Usb.cpp:849-865`). `RoleText.TagIsLost` is such a call, and `RoleText.TagKeptExactly` says
  exactly when the tag is kept.
- `switchMode` treats a timed-out wait as a failure even if a partner event was handled before it got the lock back
  (`RoleSwitch.TimeoutBeatsPartner`); by `RoleSwitch.SuccessIsEarned` a call that wrote its role fails exactly if its wait timed out.
- `removeEpollFile` lets its descriptor go without closing it, so one descriptor is lost for every unbind that held one
  (`EpollFiles.UnbindLosesADescriptor`, counted in general by `EpollFiles.LedgerAddsUp`).
- What `setCurrentUsbFunctions` tells its caller is not always what it returns. A request for no functions tells SUCCESS and
  returns an error (`usb/gadget/UsbGadget.cpp:522-531`). If user space is late and the reply arrives, the caller is told
  ERROR and the call returns ok (479-487); if user space is in time and the reply is lost, the other way round, and a
  second reply is sent. `GadgetSwitch.ReplyAgainstReturn` says that there are no other cases.
- A monitor left running by an earlier call may
  still say "applied" until it is stopped, or after a teardown that failed.

## Model

| member | source | states |
|---|---|---|
| MigrationSafety.FilesSurvive | convert_to_ext4.sh:48-178 | In every state of every run, whatever fails and wherever the power is cut, all files are on `persist` as f2fs, on `efs` as ext4, or on `persist` as ext4, in the cached and in the durable contents |
| Flash.TypeIsExact | convert_to_ext4.sh:25-39 | A device is ext4 exactly by the two bytes at 0x438, and f2fs exactly if it is not ext4 and by the four bytes at 0x400 |
| Flash.ZeroedBlocks | convert_to_ext4.sh:170 | Zeroing k blocks leaves zeroes in them, byte by byte, and all others as they were |
| MigrationLoss.SafeExactly | convert_to_ext4.sh:140-174 | No run ever loses a file if and only if the setup is `Safe`: a condition on the sizes and on what is promised of the format, the zeroing and the order of write-back |
| MigrationLoss.FailedFormatLoses | convert_to_ext4.sh:69-76 | A format of `persist` that fails after changing something leads to a state in which no device holds the files, since the retry reformats `efs` |
| MigrationLoss.FailedZeroingLoses | convert_to_ext4.sh:149-174 | With equal sizes, a zeroing that fails after erasing something (always so on an `efs` under 64 MiB) leads to a state in which no device holds the files |
| MigrationLoss.CutFormatLoses | convert_to_ext4.sh:48-72 | A power cut that spoils `persist` during its format but spares the f2fs magic leads to a state in which no device holds the files, since the next boot formats `efs` |
| MigrationLoss.UnorderedWritebackLoses | convert_to_ext4.sh:149-177 | If another zeroed block of `efs` reaches the flash before block 0 and the power fails after the success message, the next boot copies the damaged `efs` over `persist`, and no device holds the files |
| MigrationLoss.StrandingIsReachable | convert_to_ext4.sh:58-61 | A power cut while `persist` is being formatted can leave it without a magic, with the files safe on `efs` |
| MigrationLoss.SuccessIsReachable | convert_to_ext4.sh:176-177 | The guarantees are not vacuous: some run gets to the success message, with `persist` rebuilt and the zeroing of `efs` not yet durable |
| MigrationLoss.RedoIsReachable | convert_to_ext4.sh:48-56 | A run that logs success, loses power before the zeroing is durable, and changes `efs` again in the next boot |
| Migration.CommandKeepsInv | convert_to_ext4.sh:70-174 | Every command, with every outcome, keeps the invariant that says for each line of the script which device holds the files and how |
| Migration.PowerCutKeepsInv | convert_to_ext4.sh:48-61 | In a safe setup, after a power cut at any command the two magics are those of one of the three phases the next boot can make sense of |
| Migration.WritebackKeepsInv | convert_to_ext4.sh:149-160 | Blocks that reach the flash on their own keep the invariant: those of `persist` in any order at any time, those of `efs` with block 0 first once it is erased |
| Migration.Reaches | convert_to_ext4.sh:63-178 | The invariant holds in every state of every run |
| MigrationSafety.BootDecodesTheRightSource | convert_to_ext4.sh:48-61 | At every boot: `persist` f2fs means it holds the files, both ext4 means `efs` holds them, `persist` alone ext4 means it holds them, and no magic on `persist` means `efs` holds them |
| MigrationSafety.CompletionIsExact | convert_to_ext4.sh:162-177 | The step that logs success leaves `persist` equal, block for block and durably, to `efs` before its erasure, with the files on it, devices of equal size, and `efs` no longer ext4 |
| MigrationSafety.ExitsForever | convert_to_ext4.sh:51-61 | Once a boot exits before the loop, every later boot does, and neither device ever changes again |
| MigrationSafety.DoneStaysDone | convert_to_ext4.sh:48-56 | The boot after a success finds `persist` with the files; either `efs` still equals it in full, or neither device is ever changed again |
| MigrationFinish.SettledExactly | convert_to_ext4.sh:48-56 | From the first boot after a success, no way of going on ever changes a device if and only if that boot finds `efs` without the ext4 magic |
| MigrationFinish.FinishesExactly | convert_to_ext4.sh:48-178 | At every boot, some way of going on, with formats that leave no files, ends in success if and only if the boot does not exit before the loop and the partitions have one size (given that an ext4 of the size of `efs` can be made and can hold the files) |
| MigrationSafety.PhaseNeverGoesBack | convert_to_ext4.sh:41-46 | The durable phase (original, files on `efs`, `efs` erased) never goes backwards in any run, over any number of reboots |
| MigrationSafety.BoundedWork | convert_to_ext4.sh:63-67 | Between two power cuts the script runs at most 132 commands, whatever is written back in the background meanwhile |
| MigrationSafety.AtMostTenIterations | convert_to_ext4.sh:63-67 | One boot enters the loop body at most ten times, with any write-back in between, and inside the loop entries made and retries left add up to ten |
| Converter.PerformGoes | convert_to_ext4.sh:72-174 | No status is passed over: a command that reports an error goes back to the loop head, one that reports a possible success goes on to the next command, and the two comparisons go on exactly if they agree |
| Converter.PerformLeaves | convert_to_ext4.sh:72-174 | What a successful command leaves on either device, block for block for the copy and the zeroing |
| Converter.Perform | convert_to_ext4.sh:72-174 | Whatever the outside decides about a command, the result is a step of the state machine |
| Converter.EveryCommandHasAnOutcome | convert_to_ext4.sh:72-174 | Conversely every step the state machine allows is the result of some outcome |
| Converter.AllWellMigrates | convert_to_ext4.sh:48-178 | A boot on an original `persist`, with partitions of one size of at least 64 MiB, images that fit and every command reporting success, ends in success after one round, with the files on `persist` and `efs` without a magic |
| Converter.AllWellCopies | convert_to_ext4.sh:149-177 | So does a boot on two ext4 devices, with the contents of `efs` on `persist` |
| Converter.AllFailing | convert_to_ext4.sh:64-76 | If every command reports an error, all retries are used up and `persist` is as it was |
| Converter.Converter.Migrate | convert_to_ext4.sh:48-178 | The script as a whole: its trace is a run, it goes round at most ten times, in a safe setup no state on the way loses the files, and if it ends in success `persist` durably holds them |
| Converter.Converter.Script | convert_to_ext4.sh:48-178 | The imperative script ends in exactly the state that the function of the outcomes gives, so the three results above are about it |
| Converter.Converter.Boot | convert_to_ext4.sh:48-63 | The decision at boot is the step `Decide`, changes no device, runs no command, and starts the loop with ten retries or exits |
| Converter.Converter.Loop | convert_to_ext4.sh:64-178 | The retry loop ends, in no more rounds than there were retries, in the state its specification gives, with every command on the trace |
| Converter.Converter.Round | convert_to_ext4.sh:65-177 | One round takes one retry, and ends after the same commands and in the same state as its specification: at the loop head or in success |
| Converter.Converter.FillEfs | convert_to_ext4.sh:71-138 | Filling `efs` passes its seven commands in order, or stops at the first failure and goes back to the loop head, in step with the rest of the round |
| SessionMonitor.MonitorRefinesHistory | usb/usb/UsbDataSessionMonitor.cpp:238-338 | For every event history, clearing and appending incrementally uploads exactly the reports of the whole-history specification |
| SessionMonitor.EventKeepsInv | usb/usb/UsbDataSessionMonitor.cpp:238-338 | Every event keeps the record invariant: lists of equal length, valid states only, timestamps in order, the open session's lists and start as the history says |
| DataSession.RoleIsExact | usb/usb/UsbDataSessionMonitor.cpp:262-278 | For every text the role is HOST, or DEVICE, exactly if the first ten characters up to a NUL are "host", or "device", and otherwise none |
| DataSession.StateIsExact | usb/usb/UsbDataSessionMonitor.cpp:243-253 | A text counts as a state exactly if its first twenty characters up to a NUL are one of the seven, line end included |
| DataSession.CStringIsTheLongest | usb/usb/UsbDataSessionMonitor.cpp:265-272 | A buffer of n characters reads as the longest prefix that fits and has no NUL, and as nothing else |
| DataSession.HostBatchIsExact | usb/usb/UsbDataSessionMonitor.cpp:165-187 | The events of a host session: one for each port with at least two states, in port order and with a clock reading each, or one from host 1 |
| DataSession.SessionsAreTheMaximalIntervals | usb/usb/UsbDataSessionMonitor.cpp:280-334 | A pair of indices is a reported session if and only if it is a maximal interval of role HOST, or of role DEVICE with the gadget bound, that has ended |
| DataSession.UploadsAreTheSessions | usb/usb/UsbDataSessionMonitor.cpp:157-201 | The uploads are one batch per session, in order, each made of that session's own events |
| DataSession.SessionsAreConserved | usb/usb/UsbDataSessionMonitor.cpp:280-334 | Sessions uploaded, plus one if a session is open, equals sessions started, plus one if one was open initially |
| DataSession.ReportsStayInTheirSession | usb/usb/UsbDataSessionMonitor.cpp:157-190 | With a clock that never runs backwards, each report holds valid states with as many timestamps, in order and within the session's start and end |
| DataSession.SessionsAreOrdered | usb/usb/UsbDataSessionMonitor.cpp:280-297 | Sessions come in order and never overlap, and the open one starts after all of them |
| SessionMonitor.ControlEventKeepsTrack | usb/usb/UsbDataSessionMonitor.cpp:280-337 | A role or bind change keeps role, bind flag, start, lists and uploads in agreement with the history |
| SessionMonitor.ControlEventKeepsOrder | usb/usb/UsbDataSessionMonitor.cpp:286-333 | The lists of the current role never hold a timestamp older than the session start |
| SessionMonitor.UsbDataSessionMonitor.HandleDataRoleEvent | usb/usb/UsbDataSessionMonitor.cpp:262-298 | The new role is what the text says, letter by letter; the event ends, starts and clears as the specification step says, and the uploads are those of the whole history |
| SessionMonitor.UsbDataSessionMonitor.UpdateUdcBindStatus | usb/usb/UsbDataSessionMonitor.cpp:300-338 | The same for a change of the gadget's binding, an unreadable file included |
| SessionMonitor.UsbDataSessionMonitor.HandleDeviceStateEvent | usb/usb/UsbDataSessionMonitor.cpp:243-260 | The same for a state event, valid or not |
| SessionMonitor.UsbDataSessionMonitor.ReportUsbDataSessionMetrics | usb/usb/UsbDataSessionMonitor.cpp:157-201 | One event per host port with more than one state, or else one from host 1; one for the device port; none in any other role |
| Uevents.VisitedIsSplitUpToEmpty | usb/usb/UsbDataSessionMonitor.cpp:351-383 | What the walk visits is the list of NUL-separated strings up to the first empty one |
| Uevents.VisitedOfMessage | usb/usb/UsbDataSessionMonitor.cpp:351-383 | Any list of non-empty strings, each followed by a NUL, is taken apart exactly |
| Uevents.SplitIsExact | usb/usb/UsbDataSessionMonitor.cpp:380-382 | The pieces of a text make up the text again with a NUL between any two |
| Uevents.PiecesHaveNoNul | usb/usb/UsbDataSessionMonitor.cpp:380-382 | No piece of a text has a NUL in it |
| Uevents.ClassifyIsExact | usb/usb/Usb.cpp:1064-1098 | What each string is taken for: a partner added, exactly if it is "add", anything but a line end, and "-partner"; a port change or an overheat report exactly by its beginning |
| Uevents.UeventBuffer.Walk | usb/usb/UsbDataSessionMonitor.cpp:340-384 | For every received length and all contents the walk ends, reads no index beyond n + 1, and visits exactly those strings; errors and full buffers are dropped untouched |
| Uevents.UeventBuffer.UeventEvent | usb/usb/Usb.cpp:1048-1104 | The same for the loop that stops after the first port change |
| Uevents.ReachedEndsAtFirstStop | usb/usb/Usb.cpp:1070-1095 | That loop goes past no port change, and stops short only at one |
| EpollFiles.EpollFiles.AddEpollFile | usb/usb/UsbDataSessionMonitor.cpp:64-85 | A descriptor that opens and registers replaces the port's previous one, which is closed; one that only opens is closed on the spot; the interest list stays exactly the descriptors held |
| EpollFiles.EpollFiles.RemoveEpollFile | usb/usb/UsbDataSessionMonitor.cpp:87-92 | The descriptor leaves the interest list and is let go without being closed, once per unbind that held one |
| EpollFiles.EpollFiles.HandleUevent | usb/usb/UsbDataSessionMonitor.cpp:355-365 | After any list of strings, with any opens and registrations failing, a port has a file exactly if its last matching "bind@" string that succeeded came after its last matching "unbind@" string, or it had one and there was none; both fields and the fate of every descriptor are those of the operations in order, and the interest list agrees |
| EpollFiles.OpIsExact | usb/usb/UsbDataSessionMonitor.cpp:357-363 | A string binds, or unbinds, a port exactly if it matches the port's expression and begins with "bind@", or "unbind@", and otherwise does nothing |
| EpollFiles.OpOfAnEvent | usb/usb/UsbDataSessionMonitor.cpp:357-363 | Whatever follows "bind@" or "unbind@" in a matching string, it binds or unbinds |
| EpollFiles.StringsDecide | usb/usb/UsbDataSessionMonitor.cpp:355-365 | The registered ports are told by the strings alone |
| EpollFiles.LedgerAddsUp | usb/usb/UsbDataSessionMonitor.cpp:64-92 | After any operations with any failures each descriptor is held by exactly one port, closed or let go; the registered ports are the specified ones; and as many were let go as there were unbinds that found their port registered |
| EpollFiles.UnbindLosesADescriptor | usb/usb/UsbDataSessionMonitor.cpp:87-92 | One bind and one unbind, both without failures, leave no port registered and one descriptor neither held nor closed |
| EpollFiles.EpollFiles.ReceiveUevent | usb/usb/UsbDataSessionMonitor.cpp:340-384 | The same from the received buffer on |
| EpollFiles.RegisteredExactly | usb/usb/UsbDataSessionMonitor.cpp:358-362 | A port is registered if and only if a successful bind came after its last unbind, or it was registered before and never unbound |
| RoleSwitch.SuccessIsEarned | usb/usb/Usb.cpp:446-480 | In every interleaving, spurious wakeups included, success means that a partner event was handled after this call cleared the flag and wrote its role; and a call that wrote its role fails only by running out of time |
| RoleSwitch.NoPartnerEventIsMissed | usb/usb/Usb.cpp:448-475 | From the write on the flag is up exactly if a partner event has been handled since, and before the first wait none can have been |
| RoleSwitch.SwitchesAreOrderly | usb/usb/Usb.cpp:603-641 | In every run of any number of threads the log takes the course of single switches, one after another: flag cleared, role written right after it, verdict, the return to dual exactly after a failure, the notification with that status; nothing of any other thread in between but partner events |
| RoleSwitch.VerdictIsCarriedOut | usb/usb/Usb.cpp:482-485 | After a failed verdict the next thing logged, partner events aside, is that thread's attempt to go back to dual; after a success it is its notification of success |
| RoleSwitch.DualBeforeNotifying | usb/usb/Usb.cpp:482-483 | No failed switch gets to its notification before it has tried to go back to dual, and no thread is done in the midst of a switch |
| RoleSwitch.OneAtATime | usb/usb/Usb.h:80-90 | No two threads notify the framework, or switch or return to dual, at the same time |
| RoleSwitch.PortTypeIsExclusive | usb/usb/Usb.cpp:451-485 | Between a role's write to `port_type` and its verdict no thread writes `port_type`: neither the worker's "dual" nor another switch |
| RoleSwitch.WorkerNeverWaitsForAWaiter | usb/usb/Usb.cpp:1064-1094 | Whenever the uevent thread is blocked, the lock is held by a thread that can run and is not waiting for a uevent |
| RoleSwitch.BlockedBehindARunner | usb/usb/Usb.cpp:603-641 | A thread is blocked exactly if another holds the lock it needs, and the holder can run, or needs a lock whose holder, a third thread, can: no cycle of waits |
| RoleSwitch.CanStepMeansStep | usb/usb/Usb.cpp:603-641 | "Can run" is exact: it holds if and only if the thread has a step |
| RoleSwitch.NextKeepsInv | usb/usb/Usb.h:80-90 | Every step of every thread keeps the locks, the flag and the log in agreement |
| RoleSwitch.SuccessIsReachable | usb/usb/Usb.cpp:472-475 | The results are not vacuous: some run ends in a successful switch |
| RoleSwitch.TimeoutBeatsPartner | usb/usb/Usb.cpp:465-470 | Some run ends in a failed switch although a partner event was handled after the write |
| RoleSwitch.FailureIsReachable | usb/usb/Usb.cpp:465-483 | Some run ends with a failed switch gone back to dual |
| RoleSwitch.TellingIsReachable | usb/usb/Usb.cpp:631-641 | Some run ends with the framework told of a success and the role lock free |
| RoleSwitch.WorkerDualIsReachable | usb/usb/Usb.cpp:1078-1093 | Some run has the uevent thread, after its query, put a port back to dual |
| CallbackLifecycle.Usb.SetCallback | usb/usb/Usb.cpp:1177-1212 | Over all sequences of calls, thread creation failing or not, one unjoined thread exists exactly while a callback is registered; one no longer wanted is told to stop and joined, a new one is not told to stop |
| RoleText.RoleRoundTrip | usb/usb/Usb.cpp:385-414 | A connected power role SOURCE or SINK, or data role HOST or DEVICE, rendered and listed in brackets among any unbracketed text, is read back as that role |
| RoleText.VerdictIsExact | usb/usb/Usb.cpp:610-625 | Whatever the file holds, a data or power role switch is reported as done if and only if its trimmed text reads as the role asked for: what follows the first opening bracket, up to the first closing one if that comes later, or all of it if either is missing |
| RoleText.VerdictOnListing | usb/usb/Usb.cpp:614-622 | With one bracketed text, of any kind, the switch is done if and only if that text is the role |
| RoleText.VerdictOnPlainText | usb/usb/Usb.cpp:614-622 | With a bracket missing, the switch is done if and only if the file is the role, but for the blanks around it |
| RoleText.TrimIsExact | usb/usb/Usb.cpp:765 | Trimming takes away the blanks around a text and nothing else |
| RoleText.RenderedExactly | usb/usb/Usb.cpp:385-403 | Which roles and modes are written as "source", "sink", "host" and "device" |
| RoleText.RoleReadIsExact | usb/usb/Usb.cpp:768-787 | Which role comes of which text, for each kind of role asked for |
| RoleText.AccessoryIsExact | usb/usb/Usb.cpp:747-758 | The mode is an audio or a debug accessory exactly if the accessory file says so |
| RoleText.StatusIsExact | usb/usb/Usb.cpp:744-788 | Exactly when reading a role ends in an error, and when in an unrecognised role |
| RoleText.NothingConnected | usb/usb/Usb.cpp:744-745 | With nothing connected the role is none of the kind asked for, and no file is read |
| RoleText.BracketedIsExtracted | usb/usb/Usb.cpp:765-766 | With one pair of brackets anywhere, trimming and extracting gives exactly what stands between them |
| RoleText.ExtractWithoutBrackets | usb/usb/Usb.cpp:405-414 | A text lacking either bracket is left as it is |
| RoleText.ExtractBetweenBrackets | usb/usb/Usb.cpp:405-414 | With brackets the wrong way round, the unsigned count wraps and everything after the opening one is kept |
| RoleText.TagKeptExactly | usb/usb/Usb.cpp:768-788 | The union keeps the tag it was asked for if and only if the text is not a role of the other kind |
| RoleText.TagIsLost | usb/usb/Usb.cpp:768-771 | A data role file that names a power role turns the data role asked for into a power role |
| RoleText.ModeAgreesWithDataRole | usb/usb/Usb.cpp:737-781 | Without an accessory, the mode read is DFP exactly when the data role read is HOST, and UFP exactly when it is DEVICE |
| PortScan.GetTypeCPortNames | usb/usb/Usb.cpp:791-817 | The ports are the links that are no partners and the prefixes of those that are; a port is connected exactly when some partner link has it as its prefix |
| PortScan.OrderDoesNotMatter | usb/usb/Usb.cpp:798-810 | Any two orders of the same directory give the same map |
| PortScan.FirstTokenIs | usb/usb/Usb.cpp:807 | The prefix of a name is what stands between its leading dashes and the next one |
| PortScan.PartnerOfAPort | usb/usb/Usb.cpp:800-808 | A port's partner entry, whatever follows, counts for that port |
| GadgetSwitch.UsbGadget.SetCurrentUsbFunctions | usb/gadget/UsbGadget.cpp:490-591 | For every request and every pattern of failures: links numbered from 0 without gap or repetition, stopping exactly at the first failure; the call itself sets "applied" only if every stage succeeded, and otherwise the flag is what a running monitor last said; one reply with the right status, and a second, an error, only after an undelivered first; the interrupt looked up once |
| GadgetSwitch.WhatDoneMeans | usb/gadget/UsbGadget.cpp:407-591 | When the gadget is pulled up at once, when the monitor is started, and what the caller is told first, in terms of what was asked for and what failed: adb, and whatever else is served from user space, goes through the monitor |
| GadgetSwitch.LinkedInFull | usb/gadget/UsbGadget.cpp:413-456 | The names linked by a call that succeeds, in order, for every vendor |
| GadgetSwitch.ReplyAgainstReturn | usb/gadget/UsbGadget.cpp:478-531 | The caller is told SUCCESS by a call that returns an error if and only if nothing was asked for or the reply that user space is up is lost, and told an error by a call that returns ok if and only if the reply that user space is late arrives |
| GadgetSwitch.UsbGadget.SetupFunctions | usb/gadget/UsbGadget.cpp:407-488 | The links follow the plan up to the first failure, the pull-up or the monitor comes only after all of them, and a notice heard during the wait decides the flag |
| GadgetSwitch.UsbGadget.LinkEverything | usb/gadget/UsbGadget.cpp:413-456 | Linking succeeds if and only if every part of it can; otherwise the links made are those up to the first failure, no fewer and no more |
| GadgetSwitch.UsbGadget.LinkVendor | usb/gadget/UsbGadget.cpp:424-445 | The vendor's links take the next numbers in the vendor's order, with "acm" first only for RNDIS |
| GadgetSwitch.PlanParts | usb/gadget/UsbGadget.cpp:413-456 | Where the generic, NCM, vendor and adb links stand in the numbering |
| InterruptScan.GetUsbGadgetIrqPath | usb/gadget/UsbGadget.cpp:79-119 | The scan ends, and gives the path of the first newline-terminated line mentioning dwc3; it fails exactly when there is none or its text before the colon is no number |
| InterruptScan.FirstIsUnique | usb/gadget/UsbGadget.cpp:89-116 | There is at most one such first line, so the path is determined |
| InterruptScan.NumberIsBeforeTheColon | usb/gadget/UsbGadget.cpp:100-106 | The number is everything before the first colon, or the whole line |
| InterruptScan.PathInFull | usb/gadget/UsbGadget.cpp:100-106 | The path for a line "number:rest" is the number between "/proc/irq/" and "/smp_affinity_list" |
| InterruptScan.MentionsExactly | usb/gadget/UsbGadget.cpp:98 | A line counts exactly if "dwc3" stands somewhere in it |

## Left out

- Converter.Converter.Migrate: reads and mounts are taken to be faithful; clean-up of mount points and the one-second sleep are not modelled.
- MigrationSafety.FilesSurvive: file metadata, links and directories are not covered, because the script compares regular files only.
- RoleSwitch.BlockedBehindARunner: covers runs without a callback being dropped, which joins the uevent thread while holding a lock; nothing is claimed about that join.
- RoleSwitch.SuccessIsEarned: a role counts as written when `fputs` reports no error; a later failure to flush is not told apart, as the code does not either.
- CallbackLifecycle.Usb.SetCallback: signalling and joining the thread are taken to succeed.
- SessionMonitor.UsbDataSessionMonitor.ReportUsbDataSessionMetrics: the statistics service is always available; the vendor event's own encoding is not part of this model.
- SessionMonitor.UsbDataSessionMonitor.HandleDataRoleEvent: a role file that fills its ten-character buffer has no terminator; the text is taken to end there.
- EpollFiles.EpollFiles.HandleUevent: descriptors are named by order of opening, which is not how the kernel numbers them; only the two host-port files are in the modelled interest list, since the others are never taken off it. Whether a string matches a port's expression is a parameter.
- GadgetSwitch.UsbGadget.SetCurrentUsbFunctions: the library's teardown, generic links, adb link and monitor are parameters, and a failure of adb other than of its link is taken to come after that link; notices of the monitor after the call has returned, interrupt affinity and accessory current limits are not modelled, and neither is the VID/PID table.
- InterruptScan.GetUsbGadgetIrqPath: the library's number syntax is a parameter, so the text is used as it stands, blanks included.
- Compliance warnings: the set of warnings is always empty in this version.
- Contaminant detection, port status details, overheat events, the dispatch loop around `epoll_wait`, the shell command and the port security table: easy cases or input and output only.
- Health, keymaster, pixelstats, powerstats, fingerprint and configuration files: thin wrappers and tables.
