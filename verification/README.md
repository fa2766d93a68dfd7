# sockets-cpp: the server's select loop, its clients, and the option parser

This project models the parts of sockets-cpp in which state is hard to follow by reading, and proves what
they promise for every input, every run and every interleaving.

**The TCP server** (`include/sockets-cpp/TcpServer.h`). `ServerMachine` is the server at lock granularity:
each action is one critical section of `m_mutex`, one socket call, one callback or one unlocked update
(`FD_SET`, the snapshot of `m_fds`), and the loop thread's actions interleave freely with `deleteClient` and
`finish` calls of other threads. Because descriptors are issued again after they are closed, every
descriptor the server opens gets an `id`, and a log records the socket calls and callbacks with it;
`ServerHistory` reads the life of one connection off that log. `ServerInvariant`, `ServerSteps` and
`ServerFinish` hold the invariant and its preservation by every action; `ServerTheorems`, `ServerHandles`,
`ServerEntries`, `ServerAgreement`, `ServerConservation`, `ServerRounds` and `ServerExit` hold what follows for
whole runs, and `ServerWitnesses` the concrete runs in which the server falls short. `TcpServer` is the class itself, with its loops and
in-place updates: `start`, `deleteClient`, `finish` and each iteration of `serverTask` are proved to be runs
of the machine, so what holds of every run holds of them.

**Its application** (`examples/serverApp.cpp`). `ServerApp` adds the mirror set, `LockOrder` the second mutex.

**The TCP client** (`include/sockets-cpp/TcpClient.h`). `ClientMachine` is the two-thread lifecycle and
`TcpClient` the class.

**The option parser** (`examples/getopt.cpp`). `OptionSyntax` is a recursive parser over the list of words,
with no hidden cursor; `Getopt` is the code, with `optind` and `optcursor` as fields, proved to report what
the recursive parser lists. What the recursive parser reports is determined, word by word, from the text of
`optstring` and the entries of the table (`OptionReports`). Round trips, bounds and the laws of long options
are stated on it (`CommandLines`, `OptionStrings`, `OptionTheorems`, `OptionTables`) and so hold of the code.

The socket layer is an environment: Socket and Accept return INVALID_SOCKET or a number that is not open,
Select reports a subset of the descriptors it is given
that lie below its `nfds`, Recv returns at most `MAX_PACKET_SIZE` bytes and fails on a
descriptor that is not open, Accept fails on a descriptor that is not listening, Close releases the
descriptor. Only descriptors opened through the object itself are considered. An object is started or
connected at most once, `finish` may be called any number of times, not from a callback.

Where the code falls short of a property, the exact condition is proved:

- `m_fds` against the table: `deleteClient` between the table insertion and `FD_SET` leaves a closed
  descriptor in `m_fds` (`ServerWitnesses.DeleteRacesWithAccept`). The two agree throughout a run if and
  only if this does not happen (`ServerAgreement.AgreementIsExact`).
- Reissued numbers: a `deleteClient` in the middle of a round can make the loop call Recv on a connection
  that was not in the table at the snapshot (`ServerWitnesses.DeleteInRoundBreaksReuse`). Whatever callers
  do, a round has served its ready descriptors safely and completely if and only if Select reported only the
  listening socket and clients, and no caller deleted a client that was ready and not yet called on
  (`ServerRounds.RoundIsExact`). Every round without a caller's deletion is safe if and only if `m_fds`
  holds no stale descriptor below `maxfds` when it begins (`ServerRounds.ReuseIsExact`). Its only-if half
  speaks of any socket layer that meets the contract above: POSIX `select` fails on a closed descriptor, so
  with `SocketCore` it concerns a number that another part of the process has opened since.
- Two connects of one handle with no release in between are possible
  (`ServerWitnesses.ConnectsNotSeparated`). They are separated if and only if the first connection was not
  deleted by a caller before its own connect callback (`ServerHandles.ConnectsAreSeparated`); a run has no
  such deletion if and only if no caller deletes a client between its insertion in the table and its connect
  callback (`ServerHandles.EarlyRun`), in particular if clients are deleted between the loop's steps.
- A server finished before it was started can still be started: the first `start` then opens a socket
  (`ServerWitnesses.LateStart`), and its loop thread exits at once because `m_stop` is never reset. Nothing
  changes after `finish` if and only if this does not happen (`ServerTheorems.FinishIsFinal`), and no callback
  follows it in any case (`ServerTheorems.FinishIsSilent`). The client has the same three results.
- `getopt_long` does not prefer an exact name: a name means its entry if and only if no other entry's name
  extends or repeats it (`OptionTables.ExactNames`; `OptionTheorems.ExactNameRefused` is a command line where it
  fails). It returns `:` for a missing argument of a long option
  whatever `optstring` begins with, unlike `getopt` (`OptionTheorems.MissingResults`). `examples/getopt.h`
  numbers `has_arg` 1, 2, 3; the model has the same values.

## Model

| member | source | states |
|---|---|---|
| `Getopt.Parser.GetOpt` | examples/getopt.cpp:50-150 | one call reports exactly the recursive parser's next step (result, optarg, optopt) and moves to the position after it, or returns -1 with optarg and optopt cleared exactly when the options have ended; opterr is 0; the cursor invariant (null, at a terminator, or inside `argv[optind]` past its first option character) is kept, so an unfinished cluster is never dropped |
| `Getopt.Parser.TakeOption` | examples/getopt.cpp:87-145 | the character under the cursor is reported as the recursive parser reports the head of the remaining text |
| `Getopt.Parser.BindArgument` | examples/getopt.cpp:100-134 | the argument is the rest of the word, else the next word unless optional; missing exactly when there is none |
| `Getopt.Parser.GetOptLong` | examples/getopt.cpp:156-228 | the same refinement for `getopt_long`, with `longindex` and the write through `flag`; a word in the middle of a cluster is never taken for a long option |
| `Getopt.ParseAllLong` | examples/getopt.cpp:156-228 | called until it returns -1, `getopt_long` reports what the recursive parser lists, up to the first report whose result is -1 (an entry with that `val`); without one, all of it, with the recursive parser's `optind`; the writes through `flag` are those of the reports |
| `Getopt.Parser.TakeLong` | examples/getopt.cpp:174-227 | a `--` word is reported as its meaning under the table demands |
| `Getopt.Parser.BindLongArgument` | examples/getopt.cpp:199-220 | result, optarg and words used for each kind of entry, with and without `=` |
| `Getopt.FindMatches` | examples/getopt.cpp:177-184 | the lookup loop counts the entries that extend the typed name; the count is 1 exactly when the name stands for one entry, which it then finds |
| `Getopt.ParseAll` | examples/serverApp.cpp:100-112 | for every argv and optstring the driver loop terminates, having read exactly what the recursive parser lists up to and including the first result at which the program exits (`?` here); without such a result, all of it, with the recursive parser's final `optind` |
| `OptionReports.DeclaredCharacter` | examples/getopt.cpp:87-145 | read off the text of `optstring`: a character followed there by no colon takes no argument, by one the attached text or else the next word, by two only attached text; a missing argument is `:` or `?` by the first character of `optstring`; and where reading goes on |
| `OptionReports.UndeclaredCharacter` | examples/getopt.cpp:136-143 | a character not in `optstring` is reported as `?`, without an argument, and the rest of the word is read on |
| `OptionReports.OptionsEnd` | examples/getopt.cpp:58-82 | the options end after the last word, at an empty word or one without a dash, at `-`, and after `--`; at no other word |
| `OptionReports.LongName` | examples/getopt.cpp:184-226 | `--name` of a uniquely meant entry returns `val`, or writes it through `flag` and returns 0, with its index; has_arg 2 takes the next word or is reported as `:`, the others take nothing |
| `OptionReports.LongNameWithValue` | examples/getopt.cpp:184-226 | `--name=value` of such an entry is `?` for has_arg 1 and has the value as argument otherwise, with the same result, index and write |
| `OptionReports.LongNameRefused` | examples/getopt.cpp:221-226 | a name that starts no entry's name, or several, is reported as `?` and takes nothing with it |
| `OptionSyntax.StepCloser` | examples/getopt.cpp:84-145 | every call that is not end-of-options lowers (words left, characters left in the word) lexicographically |
| `OptionSyntax.RunsToEnd` | examples/getopt.cpp:50-150 | calls made one after another until the end report the list, and reach the index, of the recursive parser |
| `OptionSyntax.ParseRuns` | examples/getopt.cpp:50-150 | the converse: what the recursive parser lists is a run of calls that ends |
| `CommandLines.RoundTrip` | examples/getopt.cpp:77-143 | any mix of clusters, attached, next-word and absent optional arguments, then `--` and operands, parses back to the options rendered, with `optind` at the first operand, even when arguments look like options or `--` |
| `CommandLines.RoundTripBare` | examples/getopt.cpp:67-75 | the same without `--` when no operand follows or the first is not an option word |
| `OptionStrings.DeclaredKind` | examples/getopt.cpp:96-108 | distinct declarations printed to an `optstring`, with a leading colon or without, are read back from it with their kinds |
| `OptionStrings.RoundTripText` | examples/getopt.cpp:77-143 | command lines rendered from such declarations parse back, with the printed `optstring`, to the options rendered, for `getopt` and for `getopt_long` with any table |
| `CommandLines.Unparse` | examples/getopt.cpp:77-143 | the converse from any word: a run without error reports is the rendering of the options it reported, up to where it stopped |
| `CommandLines.NoErrorsMeansRendered` | examples/getopt.cpp:50-150 | the converse for whole command lines: a parse without errors comes only from a rendering |
| `OptionTheorems.RunsBound` | examples/getopt.cpp:84-145 | at most one report per character of the words read, so at most the characters of `argv[1..]` |
| `OptionTheorems.RunsIndex` | examples/getopt.cpp:109-143 | `optind` never decreases, never passes argc + 1, and is argc + 1 exactly in runs that have reported a missing required argument, after which nothing is reported; for both entry points |
| `OptionTheorems.SameParse` | examples/getopt.cpp:50-150 | what is reported depends only on the words not yet used |
| `OptionTheorems.LongForms` | examples/getopt.cpp:176-226 | `--name=value` and `--name value` give the same reports for every value and every rest of the line, with `optind` differing by one |
| `OptionTables.LongerPrefix` | examples/getopt.cpp:175-184 | once a typed name stands for one entry, every longer prefix of its name stands for the same entry with the same value |
| `OptionTheorems.Abbreviation` | examples/getopt.cpp:175-226 | and a command line with the longer prefix gives the same reports and the same final `optind`, whatever follows |
| `OptionTables.ExactNames` | examples/getopt.cpp:177-184 | a table name stands for its entry if and only if no other entry's name extends or repeats it; otherwise it is refused |
| `OptionTheorems.ExactNameRefused` | examples/getopt.cpp:177-224 | with entries `a` and `ab` the word `--a` is reported as `?` |
| `OptionTheorems.MissingResults` | examples/getopt.cpp:122-212 | in every run a missing argument is reported as `:` for a long option, and for a short one as `:` or `?` by the first character of `optstring` |
| `ServerInvariant.InvInit` | include/sockets-cpp/TcpServer.h:513-541 | the invariant holds before `start` |
| `ServerSteps.StartStep` | include/sockets-cpp/TcpServer.h:95-189 | `start`, successful or failed after the socket was made, keeps it |
| `ServerSteps.RecvStep` | include/sockets-cpp/TcpServer.h:479-487 | Recv keeps it, also when the client was deleted since the table was read |
| `ServerSteps.AcceptStep` | include/sockets-cpp/TcpServer.h:492-495 | Accept keeps it, with any number the system may issue |
| `ServerSteps.PublishStep` | include/sockets-cpp/TcpServer.h:407-435 | the three callbacks keep it |
| `ServerSteps.DeleteStep` | include/sockets-cpp/TcpServer.h:198-211 | `deleteClient` of any handle at any moment keeps it |
| `ServerSteps.LoopDeleteStep` | include/sockets-cpp/TcpServer.h:482-484 | so does the loop's own deletion, also when a caller was faster |
| `ServerFinish.FinishStep` | include/sockets-cpp/TcpServer.h:282-293 | `finish` keeps it and leaves nothing open, in any order of the table |
| `ServerFinish.InvStep` | include/sockets-cpp/TcpServer.h:79-511 | every action of every thread keeps the invariant |
| `ServerFinish.InvRun` | include/sockets-cpp/TcpServer.h:79-511 | every run keeps it |
| `ServerHistory.CallbacksOfLife` | include/sockets-cpp/TcpServer.h:479-505 | a life in order has one connect, then data, then at most one disconnect, which comes exactly when it is over |
| `ServerHistory.BytesOfLife` | include/sockets-cpp/TcpServer.h:477-488 | and as many bytes published as received, in order, up to a chunk in hand |
| `ServerTheorems.CallbacksOfRuns` | include/sockets-cpp/TcpServer.h:468-508 | callback protocol of every connection in every run |
| `ServerTheorems.NoticesOfRuns` | include/sockets-cpp/TcpServer.h:479-505 | in every run a connection's connect is published if and only if it was accepted, and its disconnect if and only if Recv returned 0 on it, except the one the loop thread is at work on |
| `ServerTheorems.BytesOfRuns` | include/sockets-cpp/TcpServer.h:477-488 | byte conservation per connection, chunks of 1 to `MAX_PACKET_SIZE` bytes, each published under a handle last announced for that very connection |
| `ServerTheorems.TableOfRuns` | include/sockets-cpp/TcpServer.h:498-503 | every key is open, is its entry's `m_sockfd`, is valid and is not the listening socket |
| `ServerTheorems.ClosesOfRuns` | include/sockets-cpp/TcpServer.h:198-293 | nothing is closed twice or when not open; at any moment exactly the descriptors no longer held have been closed, once |
| `ServerConservation.Conservation` | include/sockets-cpp/TcpServer.h:492-503 | in every reachable state accepts = closes of clients + clients in the table + at most one accept not yet stored, and Socket calls = closes of the listener + the listener held; Socket makes the listener and Accept never does |
| `ServerTheorems.FinishIsFinal` | include/sockets-cpp/TcpServer.h:270-293 | nothing follows `finish` (no callback, no socket call, no change) if and only if no call after it is the first `start` |
| `ServerTheorems.FinishIsSilent` | include/sockets-cpp/TcpServer.h:270-293 | with such a late `start` too, sockets are opened and closed after `finish` but nobody is accepted, received from or called back |
| `ServerTheorems.FinishClosesEverything` | include/sockets-cpp/TcpServer.h:270-293 | after `finish` everything opened, by a failed `start` too, has been closed exactly once; afterwards something changes if and only if the first `start` comes then, and nobody is called back |
| `ServerWitnesses.LateStart` | include/sockets-cpp/TcpServer.h:95-189 | a concrete run: a server finished before it was started opens a socket |
| `ServerExit.JoinIsServed` | include/sockets-cpp/TcpServer.h:270-282 | from every state in which `m_stop` is set, the loop thread can exit by a bounded number of its own steps, and `finish` can then enter its critical section |
| `ServerEntries.InfoOfRuns` | include/sockets-cpp/TcpServer.h:305-315 | the address in the table is the one Accept gave for the connection now under the handle, and it is marked connected exactly if none of its Recv calls returned less than 1 |
| `ServerHandles.ConnectsAreSeparated` | include/sockets-cpp/TcpServer.h:198-211 | between two connects of a handle the first connection is released, by a disconnect or a `deleteClient`, if and only if no caller had deleted it before its connect callback |
| `ServerHandles.EarlyRun` | include/sockets-cpp/TcpServer.h:498-505 | a run has no deletion before its connection's connect callback if and only if no caller deletes a client stored and not yet announced |
| `ServerHandles.SparingSeparates` | include/sockets-cpp/TcpServer.h:498-505 | in such a run every two connects of a handle are separated by a release |
| `ServerHandles.BetweenStepsSeparates` | include/sockets-cpp/TcpServer.h:483-505 | in particular when clients are deleted between the loop's steps, as from callbacks |
| `ServerWitnesses.ConnectsNotSeparated` | include/sockets-cpp/TcpServer.h:498-505 | a concrete run with two connects of one handle and no release in between |
| `ServerAgreement.AgreeStep` | include/sockets-cpp/TcpServer.h:480-505 | an action keeps `m_fds` in agreement with the table if and only if it is not the deletion of the client stored and not yet armed |
| `ServerAgreement.AgreementIsExact` | include/sockets-cpp/TcpServer.h:498-504 | the same for every state of a whole run, in both directions |
| `ServerAgreement.FdsMatchTable` | include/sockets-cpp/TcpServer.h:183-211 | with deletions between steps, at every step boundary of a running server `m_fds` is exactly the listening socket plus the keys, and neither the listening socket nor INVALID_SOCKET is a key |
| `ServerWitnesses.DeleteRacesWithAccept` | include/sockets-cpp/TcpServer.h:498-505 | a concrete run in which they part: a closed descriptor stays in `m_fds` and its connect follows its deletion |
| `ServerRounds.ReuseSafety` | include/sockets-cpp/TcpServer.h:457-509 | in a round that nothing spoils, Accept is called only on the listening socket and Recv only on connections of the snapshot reported ready, at most once each and, by the end, exactly once, whatever numbers are reissued |
| `ServerRounds.RoundIsExact` | include/sockets-cpp/TcpServer.h:457-509 | for every round of every run and whatever callers do from the snapshot on: once the scan is over, the above holds if and only if Select reported only the listening socket and clients, and no caller deleted a client that was ready and not yet called on |
| `ServerRounds.ReuseIsExact` | include/sockets-cpp/TcpServer.h:461-468 | from a reachable state every round in which only the loop deletes clients is so if and only if `m_fds` holds no descriptor below `maxfds` that is neither the listening socket nor a client |
| `ServerRounds.AgreementIsEnough` | include/sockets-cpp/TcpServer.h:461-468 | which agreement of `m_fds` with the table ensures |
| `ServerWitnesses.DeleteInRoundBreaksReuse` | include/sockets-cpp/TcpServer.h:468-479 | a concrete round with one `deleteClient` between steps in which Recv is called on a connection that was not in the table at the snapshot |
| `TcpServer.SocketCore.Socket` | include/sockets-cpp/SocketCore.h:57-59 | the environment's Socket: -1 or a number not open, recorded either way |
| `TcpServer.SocketCore.Accept` | include/sockets-cpp/SocketCore.h:73-75 | the environment's Accept: -1 or a number not open, the latter only on the listening socket |
| `TcpServer.SocketCore.Select` | include/sockets-cpp/SocketCore.h:93-95 | the environment's Select: only descriptors it was given and below `nfds`; the call and its reply are recorded |
| `TcpServer.SocketCore.Recv` | include/sockets-cpp/SocketCore.h:97-103 | the environment's Recv: at most `MAX_PACKET_SIZE` bytes, an error on a descriptor that is not open |
| `TcpServer.SocketCore.Close` | include/sockets-cpp/SocketCore.h:85-91 | the environment's Close: the descriptor is released |
| `TcpServer.Server.constructor` | include/sockets-cpp/TcpServer.h:513-541 | a new server is the machine's initial state |
| `TcpServer.Server.Start` | include/sockets-cpp/TcpServer.h:79-189 | Socket is called exactly once unless Initialize failed; `start` succeeds exactly if it gave a descriptor and none of the five calls after it failed, and then `m_fds` is that descriptor and the loop thread is at its test; always the machine's action |
| `TcpServer.Server.DeleteClient` | include/sockets-cpp/TcpServer.h:198-211 | true exactly for a handle in the table, which is then closed, cleared from `m_fds` and erased, alone |
| `TcpServer.Server.Finish` | include/sockets-cpp/TcpServer.h:270-293 | `finish`, called at any moment: setting `m_stop`, whatever other threads do until the loop thread is joined, and the closing are one run of the machine; nothing stays open |
| `TcpServer.Server.CloseClients` | include/sockets-cpp/TcpServer.h:283-285 | the loop closes the clients' sockets one by one, in any order of the table |
| `TcpServer.Server.FindMaxFd` | include/sockets-cpp/TcpServer.h:442-448 | one more than the largest of the listening socket and the clients' sockets |
| `TcpServer.Server.GetClientInfo` | include/sockets-cpp/TcpServer.h:305-315 | the entry's data, exactly for handles in the table |
| `TcpServer.Server.SendMsg` | include/sockets-cpp/TcpServer.h:368-397 | success exactly if the whole message was taken or the socket is INVALID_SOCKET, in which case nothing is sent |
| `TcpServer.Server.SendBcast` | include/sockets-cpp/TcpServer.h:220-233 | for every order of the table: success exactly if every client took the whole message; on failure the clients sent to are a prefix of the order, all complete but the last; never vacuous through INVALID_SOCKET |
| `TcpServer.Server.SendClientMessage` | include/sockets-cpp/TcpServer.h:243-265 | an unknown handle is refused without a Send; a known one gets exactly one, on itself |
| `TcpServer.Server.DropClient` | include/sockets-cpp/TcpServer.h:482-485 | deletion, then the disconnect callback |
| `TcpServer.Server.ServeClient` | include/sockets-cpp/TcpServer.h:477-488 | the client branch is a run of the machine: one Recv, then data, disconnect or nothing |
| `TcpServer.Server.AddClient` | include/sockets-cpp/TcpServer.h:498-505 | store under the lock, arm, announce, in that order; the entry has the accepted address |
| `TcpServer.Server.ServeListener` | include/sockets-cpp/TcpServer.h:489-507 | the accept branch is a run of the machine |
| `TcpServer.Server.Turn` | include/sockets-cpp/TcpServer.h:469-508 | one descriptor of the scan is a run of the machine |
| `TcpServer.Server.ServeRound` | include/sockets-cpp/TcpServer.h:457-510 | one iteration of `serverTask` calls Select exactly once, on all of `m_fds` and with a bound just above the listening socket and all clients, and acts on its reply: it is a run of the machine that does nothing if Select reported none, and otherwise serves every ready descriptor safely and exactly once if and only if each is the listening socket or a client; the invariant and the agreement of `m_fds` are kept |
| `ServerApp.MirrorStep` | examples/serverApp.cpp:71-90 | every action keeps the mirror equal to the table's keys, but for the client being announced or the one whose end is being announced |
| `ServerApp.MirrorIsExact` | examples/serverApp.cpp:71-90 | at every step boundary of a running server the mirror is the key set of the table |
| `ServerApp.RefusalIsExact` | examples/serverApp.cpp:56-58 | in every state of a running server a mirrored handle is not in the table if and only if its client has been deleted and the disconnect is about to be published |
| `ServerApp.Application.OnClientConnect` | examples/serverApp.cpp:71-82 | inserts the handle if the server knows it |
| `ServerApp.Application.OnClientDisconnect` | examples/serverApp.cpp:84-90 | erases it |
| `ServerApp.Application.SendMsg` | examples/serverApp.cpp:49-64 | 0 broadcasts, once, to all or to a prefix complete but for its last; when the mirror is exact a send to a mirrored handle is never refused by the server, and "doesn't exist" is said exactly of handles the server does not have |
| `LockOrder.CallsAreDisciplined` | examples/serverApp.cpp:49-64 | the lock operations of every call follow the discipline: application mutex before server mutex, nothing taken twice, the table and the mirror used under their mutex, nothing held at a join |
| `LockOrder.TurnsAreDisciplined` | include/sockets-cpp/TcpServer.h:471-505 | so do the loop thread's turns with ServerApp's callbacks and any further calls these make |
| `LockOrder.NoCircularWait` | examples/serverApp.cpp:49-90 | no reachable state of any number of threads has a chain of waiting threads that closes on itself |
| `LockOrder.SomeoneCanMove` | include/sockets-cpp/TcpServer.h:270-282 | while any thread is inside a call, some thread inside one can take its next step; only a thread waiting to join may need the idle loop thread to exit |
| `LockOrder.ServerMutexIsInnermost` | include/sockets-cpp/TcpServer.h:471-505 | no callback runs and no mutex is taken by a thread that holds the server's mutex |
| `LockOrder.UsesAreGuarded` | include/sockets-cpp/TcpServer.h:199-306 | in every reachable state, what a mutex guards is about to be used only by the thread that holds it, so by one thread at a time |
| `ClientMachine.InvRun` | include/sockets-cpp/TcpClient.h:72-277 | the lifecycle invariant holds in every interleaving |
| `ClientMachine.ClientLifecycle` | include/sockets-cpp/TcpClient.h:199-277 | the callbacks are the chunks received before the first Recv below 1 and then one disconnect if there was one; no Select, Recv or Close uses a descriptor that is not open; at most one Close, never while the thread runs |
| `ClientMachine.FinishIsFinal` | include/sockets-cpp/TcpClient.h:199-210 | nothing follows `finish` if and only if no call after it is the first `connectTo` |
| `ClientMachine.LateConnect` | include/sockets-cpp/TcpClient.h:72-158 | a concrete run: a client finished before it was connected opens a socket |
| `ClientMachine.FinishIsSilent` | include/sockets-cpp/TcpClient.h:199-210 | with such a late `connectTo` too, nothing is received and nobody is called back after `finish` |
| `ClientMachine.FinishCloses` | include/sockets-cpp/TcpClient.h:199-210 | after every `finish` the descriptor, if one was ever opened, also by a failed `connectTo`, has been closed exactly once |
| `ClientMachine.JoinIsServed` | include/sockets-cpp/TcpClient.h:199-205 | from every state in which `m_stop` is set, the receive thread exits after at most two steps of its own |
| `TcpClient.Client.ConnectTo` | include/sockets-cpp/TcpClient.h:72-158 | succeeds exactly if Initialize, Socket and the four calls after it did; a socket once made is kept, also on failure; always the machine's action |
| `TcpClient.Client.Finish` | include/sockets-cpp/TcpClient.h:199-210 | `finish`, called at any moment: setting `m_stop`, whatever the receive thread does until it is joined, and the closing are one run of the machine that leaves the client finished |
| `TcpClient.Client.ReceiveTurn` | include/sockets-cpp/TcpClient.h:237-275 | one turn of the loop, for any reply and any moment at which `finish` sets the flag |
| `TcpClient.Client.ReceiveTask` | include/sockets-cpp/TcpClient.h:235-277 | for every sequence of replies: one Select per turn begun; Recv exactly in the turns whose Select reports the descriptor; exactly the callbacks its results call for; the loop is left exactly at a test with the flag set, at an empty Select with the flag set, or after a Recv below 1; and the whole is a run of the machine |
| `TcpClient.ServedSnoc` | include/sockets-cpp/TcpClient.h:249-251 | which Recv results a sequence of turns has: those of the turns whose Select reports the descriptor, in order |

## Left out

- `UdpSocket` and `AddrLookup`: the receive loop of the first is a simpler copy of the client's; the second is a thin wrapper.
- `SocketCore` beyond the environment above, the mock core, error messages, socket option values and address conversion.
- Memory-model effects of unlocked access: the copy of `m_fds` and `findMaxFd` are taken together as one atomic action, `FD_SET` after unlocking as another, and a client pointer used after unlocking as part of the Recv action; `LockOrder` speaks of the uses inside the critical sections; Send calls are not logged by the machine.
- FD_SETSIZE: descriptors are assumed to fit in the set.
- Restart of a server or client that has been started before, repeated `start` or `connectTo`, `finish` from a callback and the teardown of `ServerApp`.
- Console input and output, the `main` functions, the build.
- Null words in `argv`, `argc` below 1, and mixing `getopt` and `getopt_long` in one run.
- TcpServer.Server.ServeRound: one iteration of a loop that ends only when `m_stop` is set; the class methods run without interference, which the machine's theorems cover action by action.
- Getopt.Parser.GetOpt: option characters are taken as non-negative; where `char` is signed, a declared option byte 0xFF would return -1 and end the driver loop.
- TcpServer.Server.SendBcast: `send` gives one reply per descriptor; in the table no descriptor occurs twice.
- TcpClient.Client.ReceiveTask: any finite list of replies instead of a loop without end; `finish` may set the flag before the test or during Select, which are the points where the thread can see it.
- The client's `sendMsg`, which is the same two tests as the server's.
