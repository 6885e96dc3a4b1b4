# A model of vmnet-helper

vmnet-helper connects a virtual machine to a macOS vmnet interface: a helper
process forwards Ethernet packets between the interface and a datagram socket,
and `vmnet-run` starts a helper and a command that share a socket pair. This
project models that code in Dafny and proves what it keeps.

| file | models |
|---|---|
| `Packets.dfy` | datagrams, and in-order selections of a stream of them |
| `Endpoint.dfy` | the flat packet buffer and the two kinds of descriptor that share its iovecs |
| `HostToVm.dfy` | host to vm: bulk sends, the one-at-a-time remainder, the shared retry budget, the callback |
| `VmToHost.dfy` | vm to host: bulk and single reads, the handshake peek, the forwarding loop, whole runs |
| `SocketLock.dfy` | any number of helpers contending for one socket path |
| `Shutdown.dfy` | the helper's main loop, its forwarding thread, signals and timers |
| `Numbers.dfy`, `Getopt.dfy`, `HelperOptions.dfy`, `RunnerOptions.dfy` | number arguments, long options, both option parsers, and the argument vector printed by one for the other |
| `Descriptors.dfy` | the runner's socket pair, `dup2`, forks and closes over any descriptor table |
| `Supervision.dfy` | the runner's wait, signals and final wait |
| `ImageCache.dfy` | the test suite's image cache under exceptions and kills |
| `StatsLog.dfy` | counter deltas and the rates plotted from them |
| `Reports.dfy` | the counters while the helper runs, read by its reports at any moment |
| `Timestamp.dfy` | the printed UTC offset |
| `Wrappers.dfy` | the option datatype |

## How calls outside the repository are modelled

System calls and vmnet calls are methods with nondeterministic bodies, or steps
of a transition system, and only their contracts are used:

- `sendmsg_x()` on a non-empty tail sends at least one and at most the number of
  datagrams asked for, in order; on error it sends none. It requires the message
  length and the length of the iovec to agree, so it does not matter which of
  them the kernel reads. `write()` on a datagram socket sends all or nothing, of
  the length in the packet descriptor.
- `vmnet_read()` returns no packet longer than the slot it was offered, stores
  the packet's length both in `vm_pkt_size` and in `iov_len` (the code resets
  both before every read), returns none only when none has arrived, and requires
  every slot to be offered whole.
- `recvmsg_x()` takes at least one datagram when one is queued, cuts a datagram
  to its buffer, and reports zero only when the peer has closed. It and `read()`
  require whole slots.
- `vmnet_write()` requires packet sizes, iovec lengths and message lengths to
  agree, and on success takes the whole batch.
- `open(O_CREAT|O_EXLOCK|O_NONBLOCK)` is two steps, name lookup and lock. That
  they are one step is the explicit hypothesis `AtomicOpens`/`Linked`, and
  `SocketLock.ExclusionIffLinked` shows that exclusion needs exactly that.
- `uuid_parse()` and `inet_aton()` are parameters shared by both parsers.

## Where the code does less than one might expect

- `read()` cannot tell an empty datagram from a closed socket, so a single read
  of one ends the run as if the peer had closed
  (`VmToHost.WholeStreamIffNoEmptyDatagram`).
- The printed UTC offset loses its sign between minus one hour and minus one
  minute (`Timestamp.OffsetMeansItselfIff`).
- When a standard descriptor is closed, `vmnet-run` leaves a copy of a socket end
  in all three processes (`Descriptors.SeparatedIffStandardOpen`).
- A SIGINT during the runner's final wait can leave children unreaped
  (`Supervision.AllReapedUnlessInterrupted`, `Supervision.FinalWaitMayLeaveChildIff`).
- When `vmnet-run` is started with SIGCHLD ignored the command's status is lost
  and the exit status is 1 (`Supervision.StatusIsCommandsIff`,
  `Supervision.IgnoringChildrenLosesStatus`).
- A failure to trigger the shutdown event exits with a failure even after a signal
  has ended the main loop (`Shutdown.ExitsWithoutReturnIffTriggerFails`).
- A kill while the cached image is being created or resized leaves a file that
  later calls return as finished (`ImageCache.KillIsSafeIffBeforePublish`).
- A helper that fails between `bind()` and registering the removal of its socket
  can lose the socket while it is still exiting, from the moment its lock file is
  removed (`SocketLock.SocketIsSafeIffLockCurrent`,
  `SocketLock.ExitingHelperMayLoseItsSocket`).
- The guard of `append_helper_arg()` compares an index with a size in bytes and
  could not stop an overflow; no argument vector is long enough to need it
  (`RunnerOptions.BuildHelperArgv`, `RunnerOptions.ArgvIsShort`).

## Model

| member | source | states |
|---|---|---|
| Endpoints.Endpoint.constructor | programs/helper.c:102-151 | both descriptors of slot i share iovec i, which points at `i * max_packet_size`, and every slot lies inside the buffer, for both batch sizes; there are 16 slots when packets reach 64 KiB and 128 otherwise |
| Endpoints.SlotsDoNotOverlap | programs/helper.c:136-150 | a slot ends before any higher slot starts |
| HostToVm.VmSocket.SendMsgX | programs/socket_x.h:53-83 | the contract assumed of `sendmsg_x()` |
| HostToVm.SendBulk | programs/helper.c:860-893 | the datagrams sent in bulk are a prefix of the batch; either it is the whole batch, or the last call failed for want of buffers with the budget spent, or otherwise; the calls, failures and sleeps are counted |
| HostToVm.SendOne | programs/helper.c:901-915 | one packet leaves whole or not at all, using only what is left of the shared retry budget |
| HostToVm.SendRest | programs/helper.c:896-933 | what leaves one at a time is an in-order selection of the rest of the batch, and the drops equal the errors that no retry absorbed |
| HostToVm.WriteToVm | programs/helper.c:847-943 | each packet of the batch leaves at most once, in order and byte for byte, however it is split over the two paths; packets plus drops equal the batch, bytes are exactly those sent; drops equal the errors not absorbed by the budget of 10, less the one that ended the bulk path, so that nothing is lost exactly when that was the only one; calls and sleeps are bounded; the bulk path is taken whenever it is enabled |
| HostToVm.Vmnet.Read | programs/helper.c:818-833 | the contract assumed of `vmnet_read()`, including that every descriptor offers a whole slot |
| HostToVm.ReadFromHost | programs/helper.c:814-834 | whatever earlier batches left in the descriptors, the packets read are in the slots and described by the descriptors, in queue order |
| HostToVm.PacketsAvailable | programs/helper.c:945-959 | a callback terminates, conserves every packet, and goes on until vmnet fails or no packet is left to read, including those that arrive while it runs; `ok` is false exactly when a read failed; no counter goes down |
| HostToVm.ServeHost | programs/helper.c:945-973 | over any number of callbacks the vm receives an in-order selection of what was delivered, and packets plus drops equal the number read; when no read fails nothing that has arrived is left unread |
| HostToVm.ServeFromStart | programs/helper.c:795-973 | the same for an endpoint, socket and interface just created |
| VmToHost.ClientSocket.RecvmsgX | programs/socket_x.h:21-51 | the contract assumed of `recvmsg_x()` |
| VmToHost.ConnectSocket | programs/helper.c:739-771 | the first datagram is removed exactly when it is shorter than 64 bytes, which a 64-byte peek decides, and only a failing call stops it |
| VmToHost.ReadFromVm | programs/helper.c:978-1013 | the count, the datagrams removed and the slots filled by a bulk read or by its single-read fallback; the counters of bulk and single reads grow by exactly the calls made, and the second is made only without the first or after its failure |
| VmToHost.WriteToHost | programs/helper.c:1015-1033 | at every `vmnet_write()` packet sizes, iovec lengths and message lengths agree, and the batch handed over is the one read |
| VmToHost.ForwardFromVm | programs/helper.c:1035-1065 | the loop terminates in the state, and for the reason, of the specification of whole runs, for every script of call outcomes, and has counted every `recvmsg_x()` and `read()` |
| VmToHost.ForwardAccounts | programs/helper.c:1035-1065 | in every run the datagrams handed to vmnet are a prefix of the client's stream (cut to the buffer), nothing is skipped, and the counters count exactly the accepted ones and never go down |
| VmToHost.ServeClient | programs/helper.c:739-1065 | in socket mode what is handed to vmnet is a prefix of the client's stream without a first datagram shorter than 64 bytes, and all of it after a peer close when no datagram is empty |
| VmToHost.WholeStreamIffNoEmptyDatagram | programs/helper.c:1000-1050 | a run that ends by peer close has handed over the whole stream, for every script, exactly when the stream has no empty datagram |
| VmToHost.BulkReadsDeliverAll | programs/helper.c:982-995 | when every read is in bulk and no write fails the whole stream is delivered, empty datagrams included |
| VmToHost.StopsUnlessCallFails | programs/helper.c:1035-1065 | a run fails only when `read()` or `vmnet_write()` does; a failing bulk read is made up for |
| SocketLock.StepKeepsInv | programs/helper.c:593-699 | every step of every process, failures, exit handlers and kills included, keeps the lock invariant |
| SocketLock.ExclusionIffLinked | programs/helper.c:616-622 | once a helper has locked a file, no later run has two helpers inside exactly when the name of the lock file still led to the file it locked |
| SocketLock.Exclusion | programs/helper.c:593-699 | over every run at most one helper is between locking and removing its lock file, and a helper that has registered the removal of its socket has the path and the current lock |
| SocketLock.SocketIsSafe | programs/helper.c:632-677 | no step takes the path away from the socket of a helper that holds the current lock, except that helper's own exit handler |
| SocketLock.SocketIsSafeIffLockCurrent | programs/helper.c:593-699 | over every run of the other helpers the path stays with a helper's socket exactly when that helper holds the lock of the current lock file, whether or not its handlers are registered |
| SocketLock.BindFindsPathFree | programs/helper.c:674-685 | in every run, after the stale socket is removed `bind()` never finds the path in use |
| SocketLock.BusyMeansHeldByLive | programs/helper.c:616-622 | in every run the lock is refused only when a live process holds it |
| SocketLock.ExitRemovesBoth | programs/helper.c:593-699 | over every run, a helper that ends neither by a kill nor with a failing removal leaves no lock file once it registered its removal, and no socket if it served |
| SocketLock.StaleFilesNeverBlock | programs/helper.c:609-699 | whatever files a crash left, a new helper can start and serve when nobody holds the lock |
| SocketLock.SplitOpenAdmitsTwo | programs/helper.c:593-630 | without the atomicity of `open()` there is a run with two helpers inside |
| SocketLock.ExitingHelperMayLoseItsSocket | programs/helper.c:687-696 | a run in which a helper that failed after `bind()` loses its socket while exiting |
| Shutdown.OneShutdownOneStatus | programs/helper.c:1035-1183 | at most one shutdown event is triggered, and after the loop the status is exactly one flag |
| Shutdown.SuccessIffStoppedCleanly | programs/helper.c:1154-1219 | in every run the exit code is success exactly when `main()` returned and the first event that ended its loop was a signal or a peer close |
| Shutdown.ExitsWithoutReturnIffTriggerFails | programs/helper.c:233-244 | the process exits without returning from `main()` exactly when triggering the shutdown event failed |
| Shutdown.SignalThenFailedTrigger | programs/helper.c:233-244 | the input for which a signal ends the loop and the exit code is still failure |
| Shutdown.ReturnHasAnEnd | programs/helper.c:1160-1182 | such an event exists in every run that returns |
| Numbers.Strtol10Spells | programs/options.c:91-103 | a conversion consumes the whole argument without error exactly when the argument spells a long |
| Numbers.ParsersAcceptTheirRanges | programs/options.c:89-147 | each number parser accepts exactly the spellings of the integers in its range, so narrowing loses nothing |
| Numbers.DecimalRoundTrip | programs/options.c:89-147 | printing a number in range and parsing it gives it back |
| Numbers.StrtolOfPrinted | programs/options.c:91-103 | the print of any integer is converted to it, or clamped to a long with an error |
| Numbers.PrintedRoundTrip | programs/options.c:89-147 | of all printed integers each parser accepts exactly those in its range, no negative one among them |
| Getopt.PrintedOptionIsFound | programs/options.c:216-221 | a printed option is read back with its argument, also when the argument starts with dashes |
| Getopt.ArgumentAfterEquals | programs/options.c:216-221 | `--name=value` is read like `--name value`, and refused for a flag |
| Getopt.MalformedIsRefused | programs/options.c:274-281 | a missing argument and an unknown name are refused |
| HelperOptions.ParseOptionsLoop | programs/options.c:208-364 | over long options, the loop, the defaults, the validation and the ids compute the specification |
| HelperOptions.ParseOfPrint | programs/options.c:216-283 | printing options and parsing the tokens is the same as applying them |
| HelperOptions.AcceptedSettingsAreSound | programs/options.c:208-341 | whatever the arguments, accepted settings have one of fd and socket, numbers in range, valid addresses, and what the mode or the network demands |
| HelperOptions.SocketIsKept | programs/options.c:107-117 | a socket path of up to 103 characters is kept as it is, and a longer one refused |
| HelperOptions.AskingQuits | programs/options.c:226-273 | help, version and the list of interfaces end the parse, whatever follows |
| RunnerOptions.RunnerParseLoop | programs/run.c:272-387 | over long options, the runner's loop and checks compute the specification |
| RunnerOptions.RunnerAcceptsPrinted | programs/run.c:272-387 | the runner reads back the options printed for any record, and accepts exactly the valid records followed by a command |
| RunnerOptions.RunnerAcceptsPlainCommand | programs/run.c:272-387 | the same without `--`, when no word of the command looks like an option |
| RunnerOptions.AskingRunnerQuits | programs/run.c:288-339 | help and version end the runner's parse |
| RunnerOptions.BuildHelperArgv | programs/run.c:127-227 | the vector holds the printed words in order, stays inside its 32 slots and ends with NULL, which stands after at most 25 words |
| RunnerOptions.ArgvIsShort | programs/run.c:157-227 | at most 25 words for any record, and at most 23 for one the runner accepts |
| RunnerOptions.ArgvSpelled | programs/run.c:157-227 | the words of the vector, letter by letter |
| RunnerOptions.SocketSurvivesSudo | programs/run.c:159-170 | what sudo leaves open are descriptors up to the one the helper is told, which is its end of the socket pair |
| RunnerOptions.HelperAcceptsPrinted | programs/options.c:208-364 | for every record, valid or not, the helper accepts the printed words exactly when the runner's checks hold and the stats interval, the addresses and the ids pass the helper's own checks, and then has the settings the record asks for |
| RunnerOptions.ModeReachesHelper | programs/options.c:157-170 | which word selects which mode in the helper, and that none selects shared without a network |
| RunnerOptions.CommandLineToSettings | programs/run.c:157-387 | from any accepted command line, as far as it is spelled with whole long options, to the helper's settings |
| Descriptors.CreateSocketpair | programs/run.c:406-432 | from any table, descriptor 3 is end 0 and descriptor 4 is end 1, every other entry is accounted for, and it fails exactly when the limit is too low |
| Descriptors.StartBoth | programs/run.c:478-524 | the tables of helper, command and runner after the forks and closes |
| Descriptors.SeparatedIffStandardOpen | programs/run.c:406-524 | each process holds only its own end exactly when the standard descriptors were open, and then nothing else changed |
| Descriptors.Launch | programs/run.c:406-524 | the same for the whole sequence, and with the standard descriptors open every other entry of all three tables is unchanged |
| Supervision.ExitStatusIsJustified | programs/run.c:526-599 | in every interleaving, also with SIGCHLD ignored from the start, the exit status is the command's, or the runner's own signal, or a failure to start or to find the command's status, and no unfilled status is read |
| Supervision.StatusIsCommandsIff | programs/run.c:526-563 | when the start succeeds and no signal comes, the exit status is the command's exactly when SIGCHLD was not ignored from the start or that status is 1, which it is otherwise; the status is the command's exit code, or 128 plus its signal |
| Supervision.IgnoringChildrenLosesStatus | programs/run.c:534-538 | a run in which the command succeeds and the runner fails |
| Supervision.NeverStuck | programs/run.c:452-563 | until it has ended the runner can take a step, or waits for a child that is running |
| Supervision.AllReapedUnlessInterrupted | programs/run.c:452-468 | a runner that ends has reaped all forked children, unless `killpg()` failed or a SIGINT interrupted a wait after it |
| Supervision.FinalWaitMayLeaveChildIff | programs/run.c:452-468 | from any state of the final wait the runner can end with a child left exactly when one is unreaped, and one SIGINT suffices |
| Supervision.InterruptLeavesHelperBehind | programs/run.c:452-583 | a run in which a second SIGINT leaves the helper running |
| ImageCache.Store.CreateImage | testing/disks.py:85-104 | the try, except and finally compute the specification of one call |
| ImageCache.CallKeepsCache | testing/disks.py:85-104 | with an exception possible at every step, a kill possible during the download and any temporary files left before, the cached file is finished on return and absent otherwise, a call that is not killed leaves no temporary file, and nothing else changes |
| ImageCache.CreatedAsAsked | testing/disks.py:85-104 | a created image has the format and size asked for, when given and not empty |
| ImageCache.CallsKeepCache | testing/disks.py:85-104 | over any sequence of such calls every cached file stays finished, and without kills no new temporary file stays |
| ImageCache.KillIsSafeIffBeforePublish | testing/disks.py:91-98 | which kills can leave an unfinished file that later calls would return |
| StatsLog.DeltasTelescope | testing/stats.py:23-33 | the deltas of a log add up to last minus first, in every field, and lead from the first report to the last |
| StatsLog.ComputeRates | plot-stats:72-101 | the scan computes one record for every interval of positive duration |
| StatsLog.EveryIntervalHasItsRates | plot-stats:77-99 | each record tells its interval's bitrate, and each counter's growth per second cut to a whole number |
| StatsLog.DropsAreConserved | plot-stats:77-99 | recorded drops plus those of skipped intervals are the drops between the first and the last report |
| Reports.ReportsGrow | programs/helper.c:1099-1131 | in every interleaving of batches, turns, single additions to counters and single reads of them by reports, the reports form a log in which no counter goes down |
| Reports.DeltasNeverNegative | testing/stats.py:23-33 | so in every such run no delta between two reports is negative |
| Reports.RecordedDropsAreBounded | plot-stats:72-101 | and skipping intervals can only lose drops |
| Reports.ReportsNeverRunAhead | programs/helper.c:935-939 | a report's counters are at most what was sent, dropped, called and accepted by then |
| Reports.QuietReportIsExact | programs/helper.c:1099-1131 | a report that nothing interrupts tells each counter under its own name |
| Reports.BatchIsCounted | programs/helper.c:935-939 | any outcome of a batch can come next, and its additions lead to the counters of the whole batch |
| Reports.TurnIsCounted | programs/helper.c:1057-1059 | the same for a turn of the vm's thread |
| Timestamp.OffsetMeansItselfIff | programs/helper.c:1091-1095 | the printed offset decodes to the offset in whole minutes exactly outside (-1 h, -1 min] |
| Timestamp.FitsBuffer | programs/helper.c:1086-1096 | with a four-digit year the text is 29 characters, inside the 32-byte buffer |
| Timestamp.PartsInOrder | programs/helper.c:1086-1096 | the text is the date, a dot, three digits that mean the milliseconds, and the offset |

## Left out

- XPC, vmnet and broker calls: only the contracts listed above are used.
- Socket buffer sizes, logging, usage and version texts, privileges.
- `sendmsg_x()` returning zero: the code would call it again for ever; the contract excludes it.
- Allocation failures and failures of `atexit()` outside the lock protocol: they exit.
- HelperOptions.ParseOptionsLoop: does not model short options, abbreviations and the permutation of arguments by `getopt_long()`; the runner prints none of them.
- RunnerOptions.RunnerParseLoop: leaves out the same, so a word such as `-v` starts the command here and is an option in the source.
- RunnerOptions.CommandLineToSettings: leaves out the same, and says nothing of command lines that use them.
- Counts returned by `vmnet_write()` that are smaller than the batch: the code ignores them.
- HostToVm.WriteToVm: the C function is one body; here its two loops are methods of their own that pass the shared index and retry budget on.
- RunnerOptions.BuildHelperArgv: the chain of `if`s is cut in two methods.
- Failures before the image cache's `try`, such as creating its directory, which change no image.
- `create_disk`, `steady_state` and the plots.
