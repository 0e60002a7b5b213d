# onvif_srvd: verified model

A Dafny model of the parts of the ONVIF daemon `onvif_srvd` that carry real properties, with proofs
of those properties. `dafny verify dfyconfig.toml` checks everything.

| Part of the daemon | Modules |
|---|---|
| The PID-file singleton protocol, as a transition system of any number of processes that interleave one system call at a time and may die anywhere | `Posix`, `Singleton`, `SingletonEffects`, `SingletonInvariant`, `SingletonTheorems`, `Descriptors`, `SingletonRaces` |
| The same protocol as the imperative code of one process (`daemonize2`, `create_pid_file`, `redirect_stdio_to_devnull`, the exit handler) against a kernel object, while other processes run in between | `Daemon` |
| The command line: the meaning of an option stream, and `processing_cmd` with its one reused scratch profile proved to compute that meaning, down to the start of service | `Profiles`, `Options`, `OptionTheorems`, `OptionMeaning`, `Context`, `CommandLine` |
| Interfaces: descriptor ownership through vector copies, subnet matching, `%s` templating, hardware addresses | `Eth`, `Bits`, `Network`, `Template`, `Mac` |
| Handlers over the configuration: media lookups, lists and counts, PTZ commands, capability selection | `NameOrder`, `Media`, `Ptz`, `Capabilities` |
| Decimal text and stream extraction of integers | `Text` |

The operating system is explicit state. `Posix` and `Singleton` follow POSIX.1-2017, System
Interfaces volume: open and socket return the lowest free descriptor (section 2.14); closing any
descriptor of a file drops the locks the process has on that file, `dup2` closes its target, a
child of `fork` inherits descriptors but no locks, and exit drops all locks (chapter 3). There is one
descriptor table per process, from execution on: the sockets of `--ifs`, the PID file, the service
socket and `/dev/null` all take their numbers from it. A run is a list of events; theorems quantify over every run from every initial state, with any stale names and
contents.

## Findings

Seven properties one would expect do not hold of the code as it stands. Each is kept as the code has
it, with a proof that it fails and the exact condition under which it holds.

1. Two live processes can be past `create_pid_file` under one PID-file name, for two reasons.
   `daemon_exit_handler` unlinks the name before its process (and lock) is gone, so a second process
   can create a new file meanwhile (`SingletonRaces.UnlinkRaceHappens`). And `create_pid_file` locks
   what it has opened without looking at the name again, so a process that opened the file before the
   unlink can lock it after the first process is gone, and a third one then creates a new file: both
   serve, for as long as they like, each with its lock (`SingletonRaces.TwoServeHappens`). Both runs
   exist from every initial state. The exact condition: next to a live process past it, a
   `create_pid_file` under the same name succeeds if and only if the file it has opened, or else would
   open, is held by nobody (`SingletonRaces.SecondGetsPastIff`). What holds in every run is exclusion
   per file, and per name among the processes whose file the name still denotes; in runs without an
   unlink that is exclusion per name.
2. A serving process keeps its lock if and only if stdio redirection is off or descriptors 0 to 2
   were all open, on something other than the PID file, when `daemonize2` was entered
   (`SingletonTheorems.ServingHoldsIff`). The sockets of `--ifs` come first and fill closed numbers,
   so in terms of the execution of the program: redirection is off, or no more of 0 to 2 were closed
   than there are `--ifs` options, and none of them was the PID file (`Descriptors.SafeStdIff`). With
   0 and 1 closed and one `--ifs`, the PID file lands on 1 and `dup2` drops the lock:
   `SingletonRaces.UnsafeStdHappens` gives, from every initial state, a run without unlink in which
   such a serving process is joined by a second one on the very same file. The condition on
   descriptors is therefore part of every exclusion theorem (`SafeStd`).
3. The first `--ifs` sockets take the numbers up to 2 that were closed at execution, and `dup2` then
   puts `/dev/null` there: interface number i is on its own socket at service if and only if
   redirection is off or at most i of 0 to 2 were closed (`CommandLine.Startup`,
   `Descriptors.LowSocketIff`), and all are if and only if redirection is off or 0 to 2 were open
   (`CommandLine.AllOwnSockets`). `SingletonRaces.InterfaceLostHappens` gives the run: with only 0
   closed the daemon serves with its lock and without its interface.
4. The PID file of a lock holder need not hold its pid: with redirection off and descriptors 1 and 2
   closed at execution, one `--ifs` takes 1, the PID file takes 2, and an error message of the daemon
   goes into it (`SingletonRaces.PrintSpoils`: from every initial state, any content). The content is
   safe from the next event if and only if no live process has the file as its stdout or stderr
   (`SingletonTheorems.ContentSafeIff`), and exactly the own pid line in every run that prints nothing
   into it after the own `ftruncate`; it is enough that no process is executed with the file on 1 or 2 and that both are open
   when `daemonize2` is entered (`SingletonTheorems.CleanEntriesPrintElsewhere`).
5. The service socket comes behind the `--ifs` sockets and the PID file, and `dup2` can close it too:
   a serving process has it if and only if redirection is off or the descriptors up to 2 that were
   closed at execution are at most the interfaces plus one for a PID file (`CommandLine.Startup`,
   `Descriptors.LowServiceIff`; a run that loses it: `SingletonRaces.ServiceLostHappens`).
6. The subnet test of `getServerIpFromClientIp` compares prefixes if and only if the mask is
   contiguous (`Network.MatchesIffInSubnet`).
7. A relative PTZ move is followed by the stop command, but if no stop command is configured that is
   empty text, which the shell ignores: every such move then leaves the camera moving
   (`Ptz.OnlyContinuousLeavesMoving` gives both cases).

Also kept as in the code: the scan for the server address reads the destination-address register
for the comparison and the address register for the answer (two registers in the model), and the
list of categories in a `GetCapabilities` request is appended to by the handler.

## Model

| member | source | states |
|---|---|---|
| SingletonInvariant.InvStep | src/daemon.c:178-301 | Every system call of every process, failures, signals and death included, keeps the invariant: each lock belongs to a live process on the file it opened, and a process past create_pid_file has its lock exactly as long as no dup2 has hit a slot that was closed or on that file |
| SingletonInvariant.InvRun | src/daemon.c:263-301 | The invariant holds after every run of any number of processes |
| SingletonTheorems.ExclusionPerFile | src/daemon.c:202-245 | In every run, two live processes past create_pid_file (with safe descriptors) hold locks on different files |
| SingletonTheorems.ServingHoldsIff | src/daemon.c:178-198 | A process that returned from daemonize2 holds its PID-file lock if and only if redirection is off or descriptors 0 to 2 were open at entry on something else |
| SingletonTheorems.ServingControlsIff | src/daemon.c:188-190 | A serving process has the control socket that a descriptor had at entry of daemonize2 if and only if redirection is off or the descriptor is above 2; otherwise it is /dev/null |
| SingletonTheorems.ServingServiceIff | src/daemon.c:188-190 | The service socket took the lowest number free behind the PID file; a serving process has it there if and only if redirection is off or the number is above 2, otherwise /dev/null |
| SingletonTheorems.ControlsStay | src/daemon.c:178-198 | With redirection off or a descriptor above 2, it stays so at every later point of the process |
| Descriptors.LowSocketIff | src/eth_dev_param.cpp:82 | The socket of interface i gets a number up to 2 if and only if more than i of these were closed at execution |
| Descriptors.LowServiceIff | src/onvif_srvd.cpp:486 | The service socket gets a number up to 2 if and only if more of these were closed at execution than interfaces and PID file fill |
| Descriptors.SafeStdIff | src/daemon.c:188-194 | The condition for keeping the lock, in terms of the descriptors at execution and the number of interfaces |
| SingletonTheorems.HeldUntilExit | src/daemon.c:286-300 | Whatever all processes do, a process past create_pid_file with safe descriptors keeps the lock on the same file until it exits |
| SingletonTheorems.AtMostOnePerName | src/onvif_srvd.cpp:225-239 | In every run, processes with safe descriptors past create_pid_file under one name are the same if and only if they stand on the same file; so at most one stands on the file the name denotes, and without unlink at most one is past it at all (the condition for a second one is SecondGetsPastIff) |
| SingletonTheorems.NamesStay | src/onvif_srvd.cpp:235 | Without unlink, the name of a process that has opened its PID file keeps denoting that file |
| SingletonTheorems.OnlyTheHolderWrites | src/daemon.c:217-241 | Any event that changes the content of an existing file is an ftruncate or write by the lock holder, or a print through a stdout or stderr that is that file |
| SingletonTheorems.OnlyPastUnlinks | src/onvif_srvd.cpp:225-239 | A name is re-bound by nobody, and removed only by the exit handler of a process past create_pid_file, which (with safe descriptors) still holds its lock then |
| SingletonTheorems.BecomesPast | src/daemon.c:236-244 | The only step past create_pid_file is the complete write by a process that holds the lock |
| SingletonTheorems.PastHasWon | src/daemon.c:222-241 | Every process past create_pid_file won the lock at an earlier point of the run |
| SingletonTheorems.PidTextFits | src/daemon.c:205-237 | For every positive 64-bit pid the 32-byte buffer clips nothing and the text reads back as the pid |
| SingletonTheorems.ContentIsOwnPid | src/daemon.c:229-241 | In every run in which no print since the own ftruncate goes through a descriptor that stands on that file, the file of a lock holder past create_pid_file holds exactly the decimal text of its own pid and a newline, whatever was there before |
| SingletonTheorems.PrintCanSpoilIff | src/onvif_srvd.cpp:522-533 | A print can change a file if and only if some live process has it as its stdout or stderr |
| SingletonTheorems.ContentSafeIff | src/daemon.c:222-241 | While the lock is held, no next event of any process changes the content, if and only if no live process has the file as stdout or stderr |
| SingletonTheorems.CleanEntriesPrintElsewhere | src/daemon.c:263-287 | If no process is executed with the file on descriptors 1 or 2, and both are open at entry of daemonize2, no print of the run goes into it |
| SingletonTheorems.NameShowsOwnPid | src/daemon.c:265-287 | Without unlink, and without a print into the file since the own ftruncate, reading the PID file by name gives the post-fork pid of the lock holder past create_pid_file |
| SingletonRaces.LoserLeavesNoTrace | src/daemon.c:222-226 | A process that loses the lock and exits leaves names, contents, locks and all other processes exactly as they were |
| SingletonRaces.StartOutcome | src/daemon.c:202-245 | A create_pid_file that runs alone succeeds if and only if no live process holds the file the name denotes; stale names and contents never block it |
| SingletonRaces.LockOutcome | src/daemon.c:222-241 | Behind open the rest succeeds if and only if nobody holds the file that was opened, whatever the name denotes by then |
| SingletonRaces.GetsPastIff | src/daemon.c:217-241 | A create_pid_file, before or behind its open, succeeds without interference if and only if nobody holds the file it has opened or else would open; it then has the lock and its pid line there |
| SingletonRaces.SecondGetsPastIff | src/daemon.c:217-241 | Next to a live process past create_pid_file, a second one gets past it under the same name if and only if the file it has opened, or else would open, is held by nobody |
| SingletonRaces.UnlinkAdmitsSecond | src/onvif_srvd.cpp:235-238 | From every state in which an exit handler is about to unlink, a second process on that name gets past create_pid_file while the first is alive |
| SingletonRaces.UnlinkRaceHappens | src/onvif_srvd.cpp:225-239 | From every initial state there is a run in which a serving process is told to end, and, while it has not ended yet, a second process gets past create_pid_file under the name |
| SingletonRaces.TwoServeHappens | src/daemon.c:217-222 | From every initial state there is a run that ends with two serving processes under one name, each with safe descriptors and its lock, after the one that unlinked the name is gone |
| SingletonRaces.UnsafeStdAdmitsSecond | src/daemon.c:188-194 | A process serving without its lock lets a second one past create_pid_file on the very same file |
| SingletonRaces.UnsafeStdHappens | src/daemon.c:183-194 | From every initial state there is a run without unlink, through --ifs, create_pid_file, init and redirection to service, that ends with two live processes past create_pid_file on the same file, the first executed with descriptors 0 and 1 closed |
| SingletonRaces.InterfaceLostHappens | src/daemon.c:188-190 | From every initial state there is a run that ends with a process, executed with descriptor 0 closed, that serves with its lock and with /dev/null in place of its interface socket |
| SingletonRaces.ServiceLostHappens | src/daemon.c:188-190 | From every initial state there is a run that ends with a process, executed with descriptors 0 to 2 closed, that has /dev/null in place of its service socket |
| SingletonRaces.PrintSpoils | src/onvif_srvd.cpp:522-533 | From every initial state there is a run without unlink that ends with any given content in the PID file of a process that holds its lock, executed with descriptors 1 and 2 closed and without redirection |
| Daemon.DaemonInfo.CreatePidFile | src/daemon.c:202-245 | Returns the lowest free descriptor, on the PID file, with the lock held, or -1 with no descriptor and no lock left behind, under any interference; -1 under a name only when open, lockf, ftruncate or write has failed in the calls just made, lockf also because another process had the lock, so nothing a file left behind holds can block a start |
| Daemon.DaemonInfo.Detach | src/daemon.c:249-284 | The process that goes on is the child, or the same one without fork; there is none only when fork, setsid behind a fork, or chdir (when asked for) has failed |
| Daemon.DaemonInfo.ClaimPidFile | src/daemon.c:286-287 | Ends the process only when there is a PID-file name and a call of create_pid_file has failed |
| Daemon.DaemonInfo.Settle | src/daemon.c:290-296 | Init and redirection end the process only for an incomplete context, a refused bind, or a refused open of /dev/null when redirection is on |
| Daemon.DaemonInfo.RedirectStdioToDevnull | src/daemon.c:178-198 | On success descriptors 0 to 2 are on /dev/null and every other descriptor is as it was; on failure nothing has changed |
| Daemon.DaemonInfo.Daemonize2 | src/daemon.c:263-301 | The process that goes on is serving with the daemonized flag set and a checked context; it holds its PID file, and has each control socket and the service socket on its descriptor, exactly under the conditions on descriptors at entry; with a checked context none goes on only when fork, setsid, chdir, a call of create_pid_file, bind or the open of /dev/null has failed, each where it is asked for |
| Daemon.DaemonInfo.DaemonExitHandler | src/onvif_srvd.cpp:225-239 | Unlink is tried before exit; afterwards the process and all its locks are gone |
| Daemon.Kernel.Others | src/daemon.c:263-301 | Calls of other processes, any number of them, extend the run and do not touch this process |
| Options.LastArgMeaning | src/onvif_srvd.cpp:355-387 | The value an option contributes is the argument of its last occurrence |
| Options.SplitJoins | src/onvif_srvd.cpp:390-399 | Cutting at each --type loses nothing, and every part ends at its only --type |
| Options.SplitUnique | src/onvif_srvd.cpp:390-399 | That cut is the only one |
| OptionTheorems.AcceptedSnoc | src/onvif_srvd.cpp:257-456 | A stream is accepted one option at a time, and a --type needs a complete profile with a name not stored before |
| OptionTheorems.AcceptedSegments | src/onvif_srvd.cpp:390-399 | Joined segments are accepted if and only if each can be committed after those before it |
| OptionTheorems.CommitsIff | src/ServiceContext.cpp:196-214 | Segments can be committed in turn if and only if each is fine and complete by itself and no two share a name |
| OptionTheorems.StoredAt | src/ServiceContext.cpp:196-214 | After a commit of segments with different names every segment's profile is stored, unchanged, under its name |
| OptionTheorems.SegmentOrderIrrelevant | src/onvif_srvd.cpp:355-399 | Permuted complete segments are accepted exactly when the original is, and store the same map |
| OptionTheorems.AcceptedIsUsable | src/ServiceContext.cpp:598-713 | After every accepted stream: key equals name, name and URL not empty, 100 <= width, height < 10000, one of three encodings, time zone format in range |
| OptionMeaning.AcceptedIff | src/onvif_srvd.cpp:257-456 | A stream is accepted if and only if help, version and unknown options stand only in a daemon, every width and height is in [100, 10000), every type is JPEG, MPEG4 or H264, every time zone format is below 6, every segment has a last name and URL that are not empty, a width and a height, and no two segments have the same name |
| OptionMeaning.StoredMeaning | src/ServiceContext.cpp:583-713 | After every accepted stream each segment has its profile under its last name, with its last URL, snapshot URL, width and height, and the encoding is 0, 1 or 2 exactly as its --type says JPEG, MPEG4 or H264; nothing else is stored |
| OptionMeaning.ArgsMeaning | src/onvif_srvd.cpp:335-345 | Repeated options (--scope, --ifs) contribute each argument once, in the order of the stream |
| Profiles.StreamProfile.SetWidth | src/ServiceContext.cpp:598-615 | Accepts exactly 100 to 9999, stores that, and otherwise changes no field |
| Profiles.StreamProfile.SetType | src/ServiceContext.cpp:669-688 | Accepts exactly the texts JPEG, MPEG4 and H264 and stores 0, 1 and 2 for them; otherwise changes no field |
| Profiles.StreamProfile.IsValid | src/ServiceContext.cpp:705-713 | On fields the setters have filled, valid means usable by the media handlers |
| Context.ServiceContext.AddProfile | src/ServiceContext.cpp:196-214 | Stores a complete profile with a new name by value, refuses anything else without change, and keeps the context invariant |
| Context.ServiceContext.SetTzFormat | src/ServiceContext.cpp:135-151 | Accepts exactly the six known formats and otherwise keeps the old one |
| CommandLine.ViewSnoc | src/onvif_srvd.cpp:264-455 | One more option changes one component of the meaning; a --type stores the scratch profile and clears it |
| CommandLine.OneOption | src/onvif_srvd.cpp:266-454 | One turn of the loop, with its mutations and exits, does what one more option means, and ends the program exactly when that option is not acceptable (or an interface cannot be opened) |
| CommandLine.ProcessingCmd | src/onvif_srvd.cpp:257-456 | The run with one mutated scratch profile ends in exactly the declared meaning of the stream, or at the first option that is not acceptable with the right exit status; interface i is on control socket i, on the number that was the lowest free one; each field of the daemon, device, PTZ and time zone settings is the last argument of its own option or its default, and each stored profile is as its segment says; an --ifs ends it only for a name of 16 or more characters, a missing device or a refused socket |
| CommandLine.ViewJunkFree | src/onvif_srvd.cpp:347-373 | For streams without blank numeric arguments, acceptance and meaning do not depend on what uninitialised locals hold |
| CommandLine.CheckServiceCtx | src/onvif_srvd.cpp:460-472 | Passes exactly with at least one interface, scope and profile |
| CommandLine.Startup | src/onvif_srvd.cpp:512-515 | A process reaches service only with an accepted stream that has an --ifs, a --scope and a --type, with usable profiles; its lock, each of its interfaces and its service socket are kept exactly as redirection and the descriptors at execution decide; every setting is then the last value given or its default; and it ends before service only when the stream is not accepted, an interface cannot be opened (name of 16 or more characters, no such device, refused socket), there is no --ifs, --scope or --type, or a call of daemonize2 has failed |
| CommandLine.AllOwnSockets | src/eth_dev_param.cpp:82 | At service every interface is on its own socket if and only if redirection is off or descriptors 0 to 2 were open at execution |
| Text.SignedDecimalLine | src/daemon.c:236 | Every signed 64-bit value prints in at most 21 characters with its newline and reads back from that line |
| Text.DecimalIsExtracted | src/ServiceContext.cpp:601-603 | The decimal text of any integer is read back as the integer clamped to the range of int, by atoi as the integer, and into an unsigned as the integer modulo 2^32 with overflow clamped |
| Text.ScanReads | src/ServiceContext.cpp:601-603 | Extraction skips blanks, takes a sign or none and the digits that follow, and ignores the rest; without digits it finds no number, in blank text nothing |
| Text.NumeralUnique | src/daemon.c:236 | Printed decimal text is the one numeral of its value: digits 0 to 9 by their characters, without a leading zero |
| Eth.Net.Socket | src/eth_dev_param.cpp:82 | A control socket is a new descriptor of the process, on its lowest free number |
| Eth.EthDevParam.Open | src/eth_dev_param.cpp:72-101 | Success means a socket nobody had before, on the lowest free number, for an existing interface; failure means a name of 16 or more characters, no such device, or a refused socket; either way the previous socket of the object is closed and no other descriptor is touched |
| Eth.Session | src/eth_dev_param.cpp:54-113 | Over every sequence of open and close calls: opened exactly when there is a descriptor, and each socket the object created is its current one or closed exactly once |
| Eth.EthVector.Reallocate | src/eth_dev_param.cpp:64-68 | Growth copies every element by value and closes nothing |
| Eth.EthVector.AddInterface | src/onvif_srvd.cpp:339-345 | After each successful --ifs all interfaces in the vector are open on control sockets of their own, on pairwise different descriptors; it fails only for a name of 16 or more characters, a missing device or a refused socket |
| Bits.ShiftDoubles | src/eth_dev_param.cpp:283 | The shift of the model is multiplication by two modulo the word width |
| Bits.SwapTwice | src/eth_dev_param.cpp:279 | Byte order conversion undoes itself, at any number of octets |
| Bits.SwapAt | src/eth_dev_param.cpp:279 | Conversion puts the octets in reverse order and leaves the bits in each as they are |
| Bits.ByteOrder | src/ServiceContext.cpp:172 | On either kind of machine masking commutes with the conversion between network and host order |
| Bits.CountShifts | src/eth_dev_param.cpp:281-285 | The prefix loop ends, on words of any width, with the width minus the trailing zeros |
| Bits.PrefixCountsOnes | src/eth_dev_param.cpp:273-288 | The result equals the number of one bits if and only if the mask is contiguous, and then rebuilds the mask |
| Bits.PrefixMaskRoundTrip | src/eth_dev_param.cpp:273-288 | The loop's result inverts the map from prefix length to mask |
| Bits.PrefixDecidesIff | src/ServiceContext.cpp:172 | Masked equality is agreement on the prefix, for all addresses, if and only if the mask is contiguous |
| Network.GetMaskPrefix | src/eth_dev_param.cpp:273-288 | The prefix length of the mask register on either kind of machine, 0 when it cannot be read |
| Network.QuadShape | src/eth_dev_param.cpp:167 | Address text fits INET_ADDRSTRLEN and has only digits and dots |
| Network.QuadMeaning | src/eth_dev_param.cpp:155-172 | A text is the one printed for an address if and only if, cut at its dots, it has exactly four numerals below 256 whose values, most significant first, make up the address |
| Network.QuadDetermines | src/eth_dev_param.cpp:155-172 | Different addresses have different texts |
| Network.CutJoins | src/eth_dev_param.cpp:167 | Cutting at the dots loses nothing and leaves no dot in a part |
| Network.GetServerIpFromClientIp | src/ServiceContext.cpp:155-181 | The address of the sole interface when there is one, else of the lowest-index match, else localhost: the four numerals of the answer are the value of that address register, or the answer is what the buffer held when it cannot be read |
| Network.MatchesInHostOrder | src/ServiceContext.cpp:172 | The test on network-order words decides the same as masking host-order addresses |
| Network.MatchesIffInSubnet | src/ServiceContext.cpp:166-177 | For every client and interface address the test is membership in the CIDR subnet, if and only if the mask is contiguous |
| Network.ServerIpBySubnet | src/ServiceContext.cpp:155-181 | With contiguous masks the client is told the address of the lowest-index interface whose subnet it is in, and localhost when it is in none |
| Template.GetStreamUri | src/ServiceContext.cpp:218-231 | The URL with its first %s replaced by that answer, everything around it unchanged, or the URL itself without a %s |
| Template.ReplaceLowersCount | src/ServiceContext.cpp:224-227 | One replacement lowers the number of marks by exactly one, keeps the text on both sides, and is the identity when there is none |
| Template.ReplaceTwice | src/ServiceContext.cpp:218-231 | A second replacement changes nothing if and only if there was at most one mark |
| Template.ReplacedIff | src/ServiceContext.cpp:224-227 | The replacement keeps the text on either side of the first mark and puts the value between them, and is the only text that does |
| Template.StreamUri | src/ServiceContext.cpp:218-231 | For every URL and client, when the address of the chosen interface can be read or none is asked for: no address text completes a new %s, the count drops by one, and the call is idempotent if and only if the URL has at most one %s |
| Template.StreamUriIff | src/ServiceContext.cpp:155-231 | Whatever an uninitialised buffer holds, the count drops by exactly one, if and only if the address of the chosen interface can be read or none is asked for |
| Mac.HardwareAddress.SetHwaddr | src/eth_dev_param.cpp:403-423 | Text of 17 characters is stored through signed chars as its %x fields (blanks, signs and 0x included) modulo 256; other lengths change nothing |
| Mac.HardwareAddress.GetHwaddr | src/eth_dev_param.cpp:453-475 | The text of the six bytes, which fits the caller's 20-byte buffer, for Ethernet only |
| Mac.MacTextAt | src/eth_dev_param.cpp:453-475 | Byte i is printed on places 3i and 3i + 1, high half first, with the characters 0123456789abcdef, and a colon behind it unless it is the last |
| Mac.HexDigits | src/eth_dev_param.cpp:403-475 | Printing uses these sixteen characters, reading takes them in either case with the same values |
| Mac.ScanHexReads | src/eth_dev_param.cpp:410-413 | One field skips blanks, takes a sign or none, 0x or 0X or none, and the hexadecimal digits that follow, and leaves the rest |
| Mac.PrintThenStore | src/eth_dev_param.cpp:403-475 | For all six bytes the printed text has length 17 and is stored as the same bytes |
| Mac.StoreThenPrint | src/eth_dev_param.cpp:403-475 | Two-digit text in either case prints again as its lower-case form |
| Mac.GetGateway | src/eth_dev_param.cpp:374-398 | The gateway of the first row of the device, or none, also when a malformed row comes first |
| NameOrder.SortedUnique | src/ServiceMedia.cpp:92-95 | The iteration order of the map is the only strictly ascending list of its keys |
| NameOrder.LessMeaning | src/ServiceMedia.cpp:92-95 | The order of the names: a proper prefix first, else the first difference decides |
| Media.ListedOnceInOrder | src/ServiceMedia.cpp:82-98 | A listing holds every stored profile once, in strictly ascending order of names |
| Media.GetProfiles | src/ServiceMedia.cpp:82-98 | One response entry per stored profile, in key order, each with the name as every token, the size and type of the profile in its configurations, and a PTZ part if and only if PTZ is enabled |
| Media.GetVideoSources | src/ServiceMedia.cpp:36-54 | One video source per stored profile, in key order, with its name, width and height |
| Media.GetProfile | src/ServiceMedia.cpp:58-78 | Succeeds exactly for known tokens, with that token throughout the response and the fields of the stored profile |
| Media.GetVideoSourceConfiguration | src/ServiceMedia.cpp:206-227 | In every reachable configuration the scan finds what the map lookup finds, and leaves the field unset for unknown tokens |
| Media.GetVideoEncoderConfiguration | src/ServiceMedia.cpp:231-252 | The same for encoder configurations |
| Media.ScansAgree | src/ServiceMedia.cpp:58-252 | After every accepted option stream, for every token, lookup and both scans agree |
| Media.GetStreamUriOf | src/ServiceMedia.cpp:102-129 | Fails exactly for unknown tokens, else the profile's URL with its first %s replaced by the address of the interface that serves the client |
| Media.GetGuaranteedNumberOfVideoEncoderInstances | src/ServiceMedia.cpp:256-297 | Counts by encoding add up to the total, which is three per profile if and only if every profile has one of the three encodings |
| Media.EncoderAfter | src/ServiceMedia.cpp:231-252 | After every accepted stream the encoder configuration of a segment is JPEG, MPEG4 or H264 exactly as its --type says, with its last width and height |
| Media.InstancesAfter | src/ServiceMedia.cpp:256-297 | After every accepted stream the counts for JPEG, MPEG4 and H264 are three times the segments with that --type |
| Media.SnapshotUriCapability | src/ServiceContext.cpp:316-323 | Announced exactly when some profile has a snapshot URL |
| Media.SegmentOrderInvisible | src/ServiceMedia.cpp:82-98 | Permuting complete profile segments of an accepted stream gives an accepted stream and the same GetProfiles answer |
| Ptz.PtzService.ContinuousMove | src/ServicePTZ.cpp:287-326 | x > 0 runs the right, x < 0 the left command, then y > 0 the up, y < 0 the down command, each as configured, and nothing else; nothing for a zero or NaN axis or a missing part |
| Ptz.PtzService.RelativeMove | src/ServicePTZ.cpp:330-373 | The same commands, each with the configured stop command right behind it |
| Ptz.PtzService.GotoPreset | src/ServicePTZ.cpp:77-119 | Appends the preset command with its first %t replaced by the requested preset, or nothing when a token or the command is missing |
| Ptz.PtzService.GotoHomePosition | src/ServicePTZ.cpp:243-282 | Appends the preset command with its first %t replaced by 1, or nothing |
| Ptz.PtzService.Serve | src/ServicePTZ.cpp:287-388 | The log of any session is the concatenation of what its requests emit |
| Ptz.RelativeMoveStops | src/ServicePTZ.cpp:350-370 | In the log of any session every direction command of a RelativeMove is immediately followed by stop |
| Ptz.MovingMeaning | src/ServicePTZ.cpp:37-47 | The camera moves after a log if and only if a configured direction command has no configured stop command behind it |
| Ptz.LeftMovingIff | src/ServicePTZ.cpp:287-388 | The camera is left moving if and only if some request asked for a configured direction and, where a stop command is configured, neither it nor a later one emitted stop |
| Ptz.OnlyContinuousLeavesMoving | src/ServicePTZ.cpp:330-388 | With a stop command only an unstopped ContinuousMove leaves the camera moving; without one every effective move does |
| Capabilities.GetCapabilities | src/ServiceDevice.cpp:209-257 | The device, media and events sections are there if and only if the list is empty or holds All or their own category, the PTZ section if it is enabled besides; each carries the address of the service |
| Capabilities.OnlyTheSetMatters | src/ServiceDevice.cpp:223-252 | Order and repetition change nothing, no category means All, and PTZ is there if and only if requested and enabled |

## Left out

- The gSOAP library: XML, the accept and dispatch loop, allocation failure, the empty handlers, and the constant parts of responses.
- GetServices (src/ServiceDevice.cpp:75): its PTZ entry is guarded the opposite way from getPTZCapabilities; one branch settles it.
- get_time_zone and the date handlers: text of clock values from outside; the minutes are the offset modulo 60 seconds, so the text does not determine the offset.
- set_ip, set_mask, set_gateway and the ifconfig and route commands: shell and ioctl plumbing without logic.
- getopt: the model starts from the parsed list of options; every option that needs an argument has one, and PidFile names are taken as resolved paths.
- Blank numeric arguments leave a C++ local uninitialised: the model reads one arbitrary fixed value for it per run (the parameter junk), and every theorem holds for each such value; CommandLine.ViewJunkFree shows that it matters for blank arguments only.
- atoi beyond the range of int is undefined in C; the model lets the port be any integer there.
- File system around the PID file: links, renames, removal from outside, and reuse of a file identity after its last reference is gone; regular files that no PID-file name ever denotes count as descriptors of kind Other.
- Prints through stdout and stderr (puts, DEBUG_MSG, soap_stream_fault): when they happen and what they say is left open; such a print may put any content into a file it goes to.
- SingletonTheorems.ExclusionPerFile: stated for processes whose descriptors 0 to 2 were safe at entry, which ServingHoldsIff shows to be the exact condition.
- Daemon.DaemonInfo.Detach: umask, and what setsid and chdir change, are no part of the state; that either of them fails is an event. The forking parent counts as one of the other processes, and all it does is exit.
- Programs started by system() for PTZ commands inherit no lock, so they are not processes of the protocol.
- Daemon.DaemonInfo.DaemonExitHandler: runs after its handlers are installed, and once; the handlers are installed with an empty mask, so in the program a SIGINT can enter the handler while the one of SIGTERM runs, and unlink a second time. Before the installation, and for other signals, a signal is the event Exit, which may come anywhere.
- Error texts (str_err) are set but nothing is proved about them.
- When a system call fails is up to the system: each failure is an event (Refused, LockError, TruncateError, WriteShort) that may come at any such call. sigaction with valid signals does not fail.
- Mac.StoreThenPrint: text that is not six two-digit fields is stored as SetHwaddr says, but nothing is proved about printing it; a 0x without digits behind it is a failing field, as the C standard has it.
- Network.GetServerIpFromClientIp: reads that fail leave uninitialised locals; their contents are parameters (Leftover), the theorem about subnets asks for readable registers, and Template.StreamUriIff says exactly when the template theorem needs them.
- Ptz.PtzService.Serve: system() and usleep become log entries; infinite floats behave like large numbers, and the exit status of a command is ignored as in the source.
- Integer overflow of the encoder instance counters needs more profiles than fit in memory and is not modelled.
