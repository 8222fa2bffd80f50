# IOswitch verification model

IOswitch forwards the input devices of one computer to another over a TCP stream. This project
models its logic in Dafny 4.11 and proves what it does for every input, every run and every
interleaving of its threads. `dafny verify dfyconfig.toml` checks all of it.

| file | what it models |
|---|---|
| `Tokenizer.dfy` | the configuration scanner `load_tokens`, over its fixed line and token arrays |
| `TokenGeometry.dfy` | where tokens lie in a line, and the tokens of a text put together from parts |
| `Characters.dfy` | the scan in terms of the characters of the line alone |
| `Lookup.dfy` | `get_variable` |
| `ConfigText.dfy` | the file format: layouts, printing, round trip |
| `DaemonConfig.dfy` | `load_config`, with `atoi` |
| `Forwarding.dfy` | one connection as a state machine: devices, sender, stream, listener, virtual devices |
| `Delivery.dfy` | that events do arrive: the listener's steps, and runs that bring everything through |
| `Multiplexer.dfy` | `send_input_event`, shown to perform steps of that machine |
| `Listener.dfy` | the listener thread |
| `Commands.dfy` | the command handlers, the dispatch and accept loop, the stream slots |
| `Senders.dfy` | the main thread and all sender threads interleaved on the flag and the mutex |
| `SingleSender.dfy` | when there are two senders at once, and when the flag is set with none |
| `SenderRefinement.dfy` | the sender of `Forwarding` as a thread of `Senders` |
| `Unlock.dfy` | the key-sequence recogniser of the screen lock |
| `OldListeners.dfy`, `OldRegistry.dfy`, `OldChord.dfy` | the superseded daemon: listener slots, sender registry, held-keys detector |

How the model is built:

- The scanner keeps the C loop's indices and its `last` character. Its meaning is an automaton that
  reads one character at a time and carries the pending text itself; `LoadTokens` is proved to
  produce that automaton's tokens. `last` survives from line to line in the C code and in
  `LoadTokens`, but not in the automaton, so the proof shows that it makes no difference. What the
  automaton does is stated again in `Characters` without any of its definitions.
- The lines are what `fgets` delivers: a line longer than the buffer comes in pieces, a NUL cuts a
  line short, the last line may lack its newline. `Fits` says what the token array demands. If a
  line ends in a space that the scanner skips, the C loop steps over the terminator and reads what
  an earlier line left in the buffer; `ScanLine` and `LoadTokens` report exactly when that happens.
- In `Forwarding` and `Senders` a step is one access to shared state. A theorem about
  `After(Init(k), acts)` for every `acts` with `Runs(Init(k), acts)` holds in every reachable state
  of every interleaving.
- In `Senders` the handlers are short programs over the shared state, one instruction a step. The
  class `Commands.Server` holds the same handlers as methods. Both do what the on/off automaton says.
- The methods of `Multiplexer.Sender` advance a ghost copy of the machine of `Forwarding` with
  every statement, so that a round of the C function is a run of the machine.
- What devices, sockets and the uninitialised memory of `load_config` do are parameters.

Where the code and its documentation differ, the model follows the code: `README.md:92` calls the
list of devices `device`, the code looks up `devices`; the comment at `src/util.c:51` promises a
result 1 that `send_input_event` does not have. The `break` at `src/tokenizer/tokenizer.c:113-116`
cannot be reached, because the same test has already failed at line 98.

Promises that turn out false have their exact condition proved beside them:

- A flag that is set does not mean that a sender exists (`SendingWithoutSender`). When the flag is set
  and no sender is about to be created, the one created last is on its way out or gone exactly if one
  of its own steps failed (`SetFlagMeansSender`).
- A STOP followed by a START can leave two senders (`TwoSenders`). A run is free of that exactly if
  each sender is created after all those live at the last clearing of the flag have ended
  (`OneSenderExactly`). It is enough that each has looked at the cleared flag, or ended, before the
  flag is raised (`OneSenderAtATime`); at any raise where that is not so, the main thread alone can
  make them two (`ImpatienceAllowsTwo`).
- START while sending returns with the mutex locked. Between commands the mutex is held exactly if
  that has happened (`LockDiscipline`), and nothing recovers from it (`WedgedForEver`).
- Settings printed and loaded come back except for port 0 and an empty device list; these come back
  exactly if the fresh memory held them already (`SettingsRoundTrip`).
- A full press of the unlock keys opens the lock exactly if the keys still missing are those that
  the bind begins with, and so does a second press from where the first one ended (`FullPressOpens`).
  `README.md:100` says that it takes two; that is enough from every position if the first key does
  not recur (`TwoPressesUnlock`), and no number is enough in `RepeatedKeyNeverUnlocks`.

## Model

| member | source | states |
|---|---|---|
| Tokenizer.ChunkIsLine | src/tokenizer/tokenizer.c:31 | a read takes the text up to and with its first newline, unless the text or the buffer ends first |
| Tokenizer.OverrunExactly | src/tokenizer/tokenizer.c:36-42 | a line ends in a skipped space, which is what `ScanLine` reports, exactly if some run of skipped spaces reaches its terminator |
| Tokenizer.Fgets | src/tokenizer/tokenizer.c:31 | the buffer reads as the next line, or as the next 1023 characters of a longer one, cut at a NUL |
| Tokenizer.SkipSpaces | src/tokenizer/tokenizer.c:37-42 | skipping moves the start of the unfinished token along with the position and emits nothing; if it stops at the terminator the line ends in a skipped space, else at a character that is not to be skipped |
| Tokenizer.Classify | src/tokenizer/tokenizer.c:43-76 | the token array and the start index after a character are those of the automaton |
| Tokenizer.ScanLine | src/tokenizer/tokenizer.c:32-80 | a line adds exactly its own tokens, whatever `last` was left by the line before; the loop steps over the terminator exactly if the line ends in a skipped space |
| Tokenizer.LoadTokens | src/tokenizer/tokenizer.c:14-91 | the array holds a TOK_NONE and then the tokens of every line; nothing if the file cannot be opened; the scanner leaves a line exactly if one ends in a skipped space |
| Tokenizer.FeedConcat | src/tokenizer/tokenizer.c:36-80 | scanning one text after another is scanning their concatenation |
| TokenGeometry.Geometry | src/tokenizer/tokenizer.c:36-80 | each token is its slice of the line, ended by the delimiter of its kind, words hold no delimiter but perhaps a leading separator, and tokens follow each other without overlap |
| TokenGeometry.NoNewlineInWords | src/tokenizer/tokenizer.c:67-76 | no token of a line contains its newline |
| TokenGeometry.DelimitersKept | src/tokenizer/tokenizer.c:43-66 | every `=` yields a variable that ends at it, every brace its own token |
| Characters.ScanExactly | src/tokenizer/tokenizer.c:36-80 | the whole scan by characters: where the unfinished token starts and grows, and the one token that each closing character emits |
| Characters.SpacesSkippedExactly | src/tokenizer/tokenizer.c:37-42 | a space is skipped exactly if only spaces lie between it and a `=`, `{` or `,`, or a place up to which the line has no space and no closed token |
| Characters.SeparatorCloses | src/tokenizer/tokenizer.c:67-76 | newline, `;` and `,`, and no other character, end a value, except where only skipped spaces lie between them and the line start or the token closed before |
| Characters.ValuesEnd | src/tokenizer/tokenizer.c:43-76 | every value ends at a newline, `;` or `,` and every variable at `=`; none holds `=`, `{`, `}`, or a separator but in front |
| Characters.WordsAreTokens | src/tokenizer/tokenizer.c:43-76 | a word free of delimiters and spaces becomes one value before newline, `;` or `,`, one variable before `=`, and nothing before a brace or another character |
| Characters.SeparatorInFront | src/tokenizer/tokenizer.c:67-76 | a separator with nothing before it leads the next value |
| Characters.DoubledSeparator | src/tokenizer/tokenizer.c:67-76 | of two separators in a row the second leads the value after it |
| Characters.OneWordFile | src/tokenizer/tokenizer.c:25-83 | a file of one word has the TOK_NONE entry and that value |
| Characters.OverrunByCharacters | src/tokenizer/tokenizer.c:36-42 | the scanner leaves a line exactly if the line ends in a space that is skipped, by its characters |
| Characters.FileLineByLine | src/tokenizer/tokenizer.c:31-81 | a file is scanned in pieces that end at the first newline or after 1023 characters, each as far as its first NUL, after one TOK_NONE |
| TokenGeometry.ChunksConcat | src/tokenizer/tokenizer.c:31 | a newline-terminated text is read in the same pieces whatever follows it |
| TokenGeometry.TokensOfConcat | src/tokenizer/tokenizer.c:25-83 | the tokens of two texts are those of the first, if it ends in a newline, and then those of the second without its TOK_NONE |
| Lookup.GetVariable | src/tokenizer/tokenizer.c:93-124 | returns the values that belong to the name in file order, and NULL exactly if there are none |
| Lookup.LookupIsExact | src/tokenizer/tokenizer.c:97-118 | these are precisely the value tokens whose nearest preceding variable has the name, each once, in order |
| Lookup.LookupPartitions | src/tokenizer/tokenizer.c:97-118 | every value after the first variable is found under exactly one name |
| Lookup.LookupSkipsOrphans | src/tokenizer/tokenizer.c:97-118 | a value before the first variable is found under no name |
| ConfigText.LineScan | src/tokenizer/tokenizer.c:36-80 | a line of any allowed layout scans to its names and values |
| ConfigText.LayoutScan | src/tokenizer/tokenizer.c:31-81 | a file of any allowed layout scans to its names and values, and a lookup returns those listed under the name |
| ConfigText.LayoutIndependence | src/tokenizer/tokenizer.c:37-76 | padding, braces, line breaks and the choice of `,`, `;` or newline change no lookup |
| ConfigText.ConfigRoundTrip | README.md:67-78 | a configuration printed in the documented format reads back: the values of all definitions of a name, in order |
| ConfigText.DocumentedFormat | README.md:67-78 | what is printed is the documented format, written out for a value and a list of two |
| ConfigText.UnterminatedValueIsLost | src/tokenizer/tokenizer.c:51-66 | text before a brace with no separator, and text at the end of the file with no newline, yields no value |
| ConfigText.LayoutLoads | src/tokenizer/tokenizer.h:4-27 | a layout whose words fit the text buffers and whose tokens fit the array can be loaded |
| ConfigText.PrintedConfigLoads | src/tokenizer/tokenizer.h:4-27 | so can every printed configuration of fewer than 10000 tokens |
| DaemonConfig.LoadConfig | src/server.c:201-230 | the address is the first value of dest_ip, the port the first of dest_port modulo 65536 unless `atoi` gives 0, the names are all values of devices; what the file does not define stays as it was allocated |
| DaemonConfig.Fill | src/server.c:207-228 | the three lookups and their assignments: first address, first non-zero port modulo 65536, all device names |
| DaemonConfig.CopyNames | src/server.c:221-224 | the names of the list replace the first entries and leave the others |
| DaemonConfig.AtoiOfDecimal | src/server.c:214-216 | reading a printed number gives the number |
| DaemonConfig.AtoiReads | src/server.c:214-216 | a number is read after blanks and one sign, and whatever follows its digits is ignored |
| DaemonConfig.DigitsArePositional | src/server.c:214-216 | a further digit multiplies by ten and adds its value |
| DaemonConfig.NoNumberIsZero | src/server.c:214-216 | a text with neither digit nor sign after its blanks gives 0, so that the port is not stored |
| DaemonConfig.SettingsRoundTrip | src/server.c:201-230 | printed settings load and come back; port 0 and an empty list exactly if the memory held them, a number beyond 65535 modulo 65536 |
| DaemonConfig.LoadedFits | src/server.h:32-37 | what is stored fits the fields of the struct |
| Forwarding.Conservation | src/util.c:52-75 | in every interleaving, written, in transit and unread events together are what the device produced, in order; virtual devices show a prefix; a failure loses at most the one event read |
| Forwarding.Drained | src/server.c:384-398 | with nothing in flight and no failure, all that was read has been written |
| Forwarding.DeviceIdsInRange | src/server.c:386-390 | every packet names one of the virtual devices that were created |
| Forwarding.SenderNeverStuck | src/util.c:55-74 | a device reported ready still has an event when its turn comes, so the sender always has a step that does not fail |
| Delivery.PacketIsWritten | src/server.c:384-390 | in every reachable state a waiting listener takes the oldest packet from the stream, appends its event to the virtual device that it names, and changes nothing else |
| Delivery.StreamCanDrain | src/server.c:384-398 | from every reachable state steps of the listener alone empty the stream, and each virtual device grows by the events of its packets |
| Delivery.EverythingArrives | src/server.c:350-398 | from every reachable state with the flag set and no failure, the sender and the listener can bring all that was produced to the virtual devices |
| Delivery.EventArrives | src/server.c:350-398 | an event that a device produces in such a state can be brought to its virtual device, after all the device produced before |
| Forwarding.StreamIsRounds | src/util.c:55-74 | in every run the stream is the finished rounds one after the other and then the one under way: a finished round has one packet for each device that was ready and none for the others, and each round is in index order |
| Forwarding.Fairness | src/util.c:55-73 | over any run a device sends one packet for each round in which it was ready, up to the round under way; nobody overtakes an always ready device by more than that |
| Multiplexer.Sender.ReadEvent | src/util.c:62-66 | a read takes the oldest unread event of that device and is a step of the machine |
| Multiplexer.Sender.Visit | src/util.c:61-72 | a visit is a run of the machine: a device that is not ready changes nothing; of another the oldest event leaves the unread ones and is put on the stream, or the failure is recorded |
| Multiplexer.Sender.SendInputEvent | src/util.c:52-75 | a round is a run of the machine; it puts the oldest event of each ready device on the stream, in order, up to the first that fails, and takes just these from the unread ones; it returns 0 exactly if poll and every ready device succeed; a failed send loses only what it had read |
| Listener.Connection.Serve | src/server.c:384-398 | each virtual device receives the events of its packets in order; the connection entry is 0 at the end |
| Commands.HandlersFollowAutomaton | src/server.c:238-294 | the programs, command by command: START and RELOAD set the flag, STOP and KILL clear it, SWITCH toggles it, NONE and LIST change nothing; a sender is created exactly when the flag is set anew; START on a set flag keeps the mutex, all others give it back |
| Commands.FlagIsParity | src/server.c:238-294 | the flag after a sequence of commands: set or cleared by the last START, RELOAD, STOP or KILL, toggled by each SWITCH since, off at the beginning |
| Commands.Server.constructor | src/server.c:21-43 | a new server is off, unlocked and has no connections |
| Commands.Server.Start | src/server.c:238-258 | sets the flag, creates a sender and gives the mutex back; keeps the mutex if the flag was set; blocks if the thread held it |
| Commands.Server.Stop | src/server.c:260-265 | clears the flag and gives the mutex back, or blocks |
| Commands.Server.SwitchState | src/server.c:267-277 | toggles the flag, creates a sender exactly if it was clear, and gives the mutex back, or blocks |
| Commands.Server.Reload | src/server.c:279-289 | leaves the flag set, one sender more and the mutex free, whatever the flag was, or blocks |
| Commands.Server.Kill | src/server.c:291-294 | clears the flag and returns 1, or blocks |
| Commands.Server.Dispatch | src/server.c:143-150 | each command leaves flag, mutex and number of senders as its handler does; a command that needs the mutex blocks exactly if the thread holds it; the mutex is held between commands exactly after a START on a set flag, and before this the flag is that of the automaton |
| Commands.Server.AcceptStream | src/server.c:108-135 | up to 8 streams are accepted, a further one changes nothing; the first two get slot 0, and every later one the slot after that of its predecessor |
| Commands.Server.ListenerEnds | src/server.c:393-395 | a listener that ends changes nothing, for its entry was 0 all along |
| Commands.Server.Run | src/server.c:86-159 | of the requests served none but the last is a KILL, a failure or a command that blocks; a KILL that does not block ends the loop, a failure makes it return -1, and it looks at all peers otherwise |
| Senders.LockDiscipline | src/server.c:238-294 | in every interleaving, between commands the main thread holds the mutex exactly if a START arrived on a set flag; before that the flag is that of the automaton; no two threads hold the mutex |
| Senders.FlagCountsSwitches | src/server.c:238-294 | in every interleaving, between disciplined commands, the flag is that of the last START, RELOAD, STOP or KILL, toggled by each SWITCH since |
| Senders.KillIsLast | src/server.c:86-149 | no command is taken after a KILL |
| Senders.FlagIsProtected | src/server.c:238-294 | in every reachable state, a thread about to read or write the flag holds the mutex, so there is no race on it |
| Senders.StopDrains | src/server.c:352-368 | from any point with the flag clear until it is set again, each sender sends at most the rest of its round, or one round, and never more than the number of devices |
| Senders.SurvivesUnlessItChecks | src/server.c:363-367 | a sender that does not fail outlives a period with the flag clear exactly if it does not look at the flag in it |
| Senders.FailureIsFinal | src/server.c:358-368 | a sender whose round failed sends nothing more and leaves its loop |
| Senders.WedgedForEver | src/server.c:239-243 | after a START on a set flag no command that needs the mutex takes a step, no sender is created and each sender stops within its round |
| SingleSender.OneSenderExactly | src/server.c:238-289 | in any run there are never two live senders exactly if every sender is created after all those live at the last clearing of the flag have ended |
| SingleSender.OneSenderAtATime | src/server.c:238-289 | if every sender looks at a cleared flag or ends before the flag is raised, at most one is ever live |
| SingleSender.ImpatienceAllowsTwo | src/server.c:238-258 | wherever the flag is about to be raised too early, two live senders follow when the main thread goes on |
| SingleSender.TwoSenders | src/server.c:260-289 | START, STOP, START can leave two senders live |
| SingleSender.SetFlagMeansSender | src/server.c:308-367 | in every reachable state with the flag set and no sender about to be created, the sender created last is on its way out or gone exactly if one of its steps failed; there is no live sender only if so |
| SingleSender.SendingWithoutSender | src/server.c:308-314 | a sender that cannot connect leaves the flag set with no sender |
| SenderRefinement.ConnectionIsSenderThread | src/server.c:350-368 | every run of a connection is a run of the daemon in which the first sender thread is at the same place and has sent as much |
| SenderRefinement.ClearFlagStops | src/server.c:352-368 | so while the flag is clear the sender of a connection sends at most the rest of its round, or one more round |
| Unlock.TryUnlock | src/util.c:176-211 | a fitting key advances the position, another resets it without being looked at again, other events do nothing; the lock opens at the end of the bind |
| Unlock.RunLock | src/util.c:213-229 | the lock thread ends at the first event that completes the bind |
| Unlock.TypedSuffix | src/util.c:186-203 | the last `idx` presses are the first `idx` keys of the bind |
| Unlock.OpensOnlyForBind | src/util.c:197-199 | the lock opens only if the last presses are the whole bind |
| Unlock.FullPressOpens | src/util.c:186-203 | for every bind and position, a full press opens exactly if the missing keys are a prefix of the bind, and two exactly if that holds there or where the first press ended |
| Unlock.TwoPressesUnlock | README.md:100 | if the first key does not recur in the bind, one full press opens exactly from the start position, and two open from every position |
| Unlock.StrayFirstKeyLocksOut | src/util.c:191-196 | after a stray first key the whole bind opens the lock exactly if it is one key repeated: the recogniser is no substring search |
| Unlock.RepeatedKeyNeverUnlocks | src/util.c:191-196 | a bind a, b, a at position 1 is never opened by any number of full presses |
| OldListeners.FlagMeansOneOwner | src.old.d/ioswitchd.c:93-108 | in every interleaving a listener flag is set exactly if one running thread owns the slot, apart from the moment before its thread exists; no slot has two owners |
| OldListeners.RefusedOnlyWhenBusy | src.old.d/ioswitchd.c:94-115 | if a connection is refused, then for each of the 8 slots there was a moment in the run at which the scan stood before it and the thread recorded owned it |
| OldListeners.PassedSlotIsOwned | src.old.d/ioswitchd.c:94-112 | a slot that the scan passes is owned at that moment, a slot that it claims is owned by nobody |
| OldListeners.ConnectionIsServed | src.old.d/ioswitchd.c:93-115 | a connection that arrives in any reachable state, with no thread ending meanwhile, gets the lowest free slot; if there is none it is refused and nothing changes |
| OldListeners.EndGivesSlotBack | src.old.d/ioswitchd.c:93-108 | a listener thread that ends frees its slot and no other |
| OldListeners.ShutdownCancelsOwners | src.old.d/server.c:49-56 | shutting down cancels the current owners, all of them and nobody else |
| OldRegistry.Server.AddDevice | src.old.d/server.c:141-212 | a device gets the lowest free slot; at capacity the registry stays and the mutex remains held; entries are additions less removals |
| OldRegistry.Server.RmDevice | src.old.d/server.c:214-231 | the lowest slot with the name is freed, nothing else changes, the mutex is given back |
| OldRegistry.RemoveUndoesAdd | src.old.d/server.c:175-231 | removing the name just added restores the registry exactly if no lower slot has the name |
| OldChord.HeldIsLast | src.old.d/client.c:64-67 | the value kept for a key is that of its last event, or 0 |
| OldChord.Sender.SendInputEvent | src.old.d/client.c:43-80 | the buffer holds the last value of every bind key; returns 1 exactly if all are non-zero, and forwards the event otherwise |
| OldChord.RunSender | src.old.d/server.c:263-301 | the thread stops at the first chord, removal or error; what it forwarded are the events before the chord or the failed send |

## Left out

- Sockets, uinput and X11 calls, opening files, command line options: foreign code; their outcomes are parameters or steps.
- Byte streams: `src/server.c:386-397` does not reassemble packets that arrive in pieces; a read delivers one whole packet, and the stream keeps order and loses nothing.
- Multiplexer.Sender.SendInputEvent: a device read delivers a whole event or fails. A read of zero bytes, after which the C code would send the previous packet's event again, is not modelled.
- DaemonConfig.LoadConfig: requires the number text to lie in the range of `int`, since C leaves `atoi` undefined outside it, and the texts to fit the fixed fields they are copied into; and `Loadable`, that is `Fits` and no line that the scanner leaves.
- Tokenizer.LoadTokens: requires `Fits`, since over-long tokens and too many tokens leave the arrays of the C code; a scan that leaves a line is followed up to there, for what it then reads is not in the file.
- RELOAD with a new configuration frees a struct that senders still read; it is modelled for requests without one, the only ones that `src/ioswitchctl.c:99` sends.
- The end of a sender after its loop: joining the detached lock thread at `src/server.c:371` has no defined meaning.
- What happens after KILL: the process ends, and with it all threads.
- The dead counter and timeout branches of `try_unlock`, `src/util.c:177-185` and `src/util.c:188`.
- The old daemon's tokenizer, a near copy of the current one; its `add_device` with no `key_binds` in the configuration, which dereferences NULL.
- The tables that turn strings into keys and commands, and all printing.
