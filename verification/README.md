# Scenic and rtpmidi: what the core keeps

Scenic is a telepresence program: two peers agree by messages on a session, each runs up to six streamer processes, and
MIDI travels beside audio and video. This project models the parts of it that hold state or rearrange sequences, and
proves what they promise over every input and every run.

| file | what it models |
|---|---|
| `Sic.dfy`, `Application.dfy` | one peer of the session initiation: every message, user action, deferred call and streamer event, as functions; the `Application` and `Client` classes that carry them out |
| `SicRuns.dfy` | two peers over two first-in-first-out channels, and all their runs |
| `SessionDetails.dfy` | what each peer decides to stream from its own configuration and the other's message |
| `Supervision.dfy`, `Streamer.dfy` | the streamer manager and its processes: events and runs as functions; the `StreamerManager` and `ProcessManager` classes, which call each other back in the middle of a state change |
| `SafeKeyboard.dfy` | the repair of note batches |
| `MidiCommand.dfy` | the sort, shift and serialise pair for MIDI command lists |
| `ListCirc.dfy` | the ring of the last items and the recovery window read from it |
| `JitterBuffer.dfy` | the ordered buffer released by time |
| `PortsAllocator.dfy`, `RemoteConfig.dfy` | the port allocator, and the port clash check of the streamer process |
| `ConcurrentQueue.dfy`, `MilhouseLogger.dfy` | the condition-variable queue as threads with program counters, and the logger built on it |
| `DeviceName.dfy` | the device label and its parser |
| `Midi.dfy`, `Wrappers.dfy` | bytes, MIDI commands, `Option` and `Result` |

Code that works by changing things step by step is written as methods and classes, each proved against a function of
values; the statements about runs are lemmas about those functions. Exceptions are results: an `Outcome`, a `Result`, or
an out-parameter `ok`, `failed` or `raised`.

Where the code and its documentation or names differ, the model follows the code, gives the exact condition, and shows it
fail on an input:

- `TWO_TO_THE_32ND` is 2^33 (`py/rtpmidi/engines/midi/midi_object.py:4`), so a spread from 2^32 on fails to pack or loses
  2^33 (`MidiCommand.RoundTripsExactly`, `MidiCommand.RoundTripExample`).
- The keyboard has 127 columns and MIDI has 128 pitches; pitch 127 raises an `IndexError` (`SafeKeyboard.RaisesExactly`,
  `SafeKeyboard.RaisesExample`). A command that is neither a note-on nor a note-off stops the scan there: it stays, with
  what follows it (`SafeKeyboard.RepairStops`).
- `get_packets` with equal ends returns the whole ring, although nothing lies between them (`CircularList.WindowExactly`,
  `CircularList.EqualEndsReturnAll`). With a checkpoint that has left the ring, packets can be missing or come in excess
  (`CircularList.GoneCheckpointExactly`), and likewise with a last number that is not in it
  (`CircularList.MissingEndExactly`).
- The jitter buffer puts a duplicate of its head at the tail (`JitterBuffer.AddOrdersExactly`,
  `JitterBuffer.RepeatedHeadExample`), and compares numbers as they are, so that packets waiting on both sides of a wrap
  come back in the wrong order (`JitterBuffer.SendingOrderExactly`, `JitterBuffer.WrapExample`).
- `allocate` may return a port above its maximum when the last ports are busy rather than allocated
  (`PortsAllocator.ExceedsMaximumExactly`, `PortsAllocator.ExceedsMaximumExample`). The default maximum is 65535, and the
  streamer process takes ports up to 65000 only (`RemoteConfig.DefaultPortsRefusedExactly`).
- A message given to a client that is not connected is lost, yet it is remembered as the last one sent. So an ACCEPT or a
  REFUSE is lost when the user answers before the connection exists, or after it could not be made. The REFUSE of a failed
  check goes over a connection of its own, and is lost when that fails. When the connection for an invitation to accept at
  once fails, nothing handles the error, and the answering peer goes on negotiating. In each case the caller goes on
  waiting, nothing is in flight and nothing is due, and only the closing of its window, or a new call, ends it
  (`SicRuns.UnansweredExactly`, `SicRuns.UnansweredStays`, `SicRuns.StuckExactly`, `SicRuns.AnswersGetLost`).
- The calling window opens before the connection exists. When it is closed before that, no CANCEL leaves, the INVITE still
  does, and an ACCEPT starts a session. Closing the window prevents the session exactly when the connection existed
  (`SicRuns.ClosingPreventsExactly`). A peer left negotiating by such a call is never freed (`SicRuns.AbandonedForever`).
- A CANCEL from a contact without a name raises before the peer disconnects or closes its dialog
  (`SicRuns.RaisesExactly`).
- `_later_check` does not kill a process whose connection was reported after it was told to stop
  (`Supervision.TimerKillsExactly`, `Supervision.LateReportExample`). This needs a report delivered after the call that
  spawns the process has returned; a report from within that call is never late.

## Model

| member | source | states |
|---|---|---|
| SicRuns.NextKeepsInv | py/scenic/application.py:620-914 | every step of two peers, whatever message, click, process event or deferred call comes next, keeps the invariant of the negotiation |
| SicRuns.RunKeepsInv | py/scenic/application.py:620-923 | so does every run, through any number of negotiations in which either peer invites |
| SicRuns.BothOrNeither | py/scenic/application.py:740-822 | with no message in flight and neither manager stopping, both peers stream or neither does |
| SicRuns.OffererStartsFirst | py/scenic/application.py:816-822 | the answering peer starts only after the offering one, and each at most once per INVITE |
| SicRuns.CancelledNeverStarts | py/scenic/application.py:718-743 | after CANCEL neither peer ever starts in that negotiation, even when CANCEL crosses ACCEPT, closes the open dialog, or comes before the pre-flight check ends |
| SicRuns.CancelIsFinal | py/scenic/application.py:1173-1184 | in every run, from a CANCEL that leaves to the next INVITE, nothing starts and nobody streams, whatever messages, answers and process events come |
| SicRuns.MayStartExactly | py/scenic/application.py:620-822 | in every reachable state some further course of the negotiation starts streamers exactly when one has, or when the two configurations would start and the INVITE is on its way or being checked, or a yes can still leave or is on its way |
| SicRuns.ClosingPreventsExactly | py/scenic/application.py:1095-1121 | closing the calling window rules out a start in every further course of the negotiation exactly when the caller is connected at that moment, or the two configurations would start nothing |
| SicRuns.ByesOfASession | py/scenic/application.py:1197-1206 | a peer that started passes through STOPPED once, says BYE at most once, only after a stop of its own, and is silent only when it has the other's BYE |
| SicRuns.SomeoneSaidBye | py/scenic/application.py:824-862 | a session over on both sides saw one BYE or two, and two only when both sides stopped on their own |
| SicRuns.GoodbyesDisconnect | py/scenic/application.py:824-862 | after a session, or a call that its caller ended with BYE, once nothing is in flight, streams or is put off, neither client is connected |
| SicRuns.OkAnswersBye | py/scenic/application.py:835-838 | an OK comes only from a peer that has got the BYE, and no BYE follows it |
| SicRuns.StuckExactly | py/scenic/application.py:559-564 | with nothing in flight, no INVITE to come and no answer due, the caller counts as negotiating exactly when the call is unanswered and its window open, and the other peer only when the call is unanswered |
| SicRuns.UnansweredExactly | py/scenic/application.py:628-702 | a call becomes unanswered exactly when the user answers over no connection, the connection of an automatic acceptance fails, or that of a refusal does; only the second leaves the answering peer negotiating |
| SicRuns.UnansweredStays | py/scenic/application.py:1173-1184 | an unanswered call stays so, the same peers negotiating, through every step but the closing of the calling window and a new INVITE |
| SicRuns.AbandonedForever | py/scenic/application.py:691-697 | in an unanswered call with the window closed, an answering peer that is left negotiating stays so in every further run |
| SicRuns.AnswersGetLost | py/scenic/application.py:628-702 | from any initial state without a connection, with the window closed early or not, runs in which a yes, a no, the connection for an automatic yes, or a refusal is lost, and the peers that go on negotiating |
| SicRuns.RaisesExactly | py/scenic/application.py:718-779 | in every run a handler fails exactly on a CANCEL from a contact without a name and on an ACCEPT in time for details that cannot be gathered; no message makes a busy manager start |
| SicRuns.SessionsMirror | py/scenic/streamer.py:90-231 | in every session of every run, what one peer sends is what the other expects, and their processes pair |
| SicRuns.SideReceives | py/scenic/application.py:824-862 | BYE or OK reaching a peer that started keeps its side of the session: it sends no BYE, answers OK to BYE alone, and no longer streams after BYE |
| SicRuns.SideActs | py/scenic/application.py:1197-1206 | a stop, a process event or a deferred disconnection keeps that side too: BYE leaves at most once, after a stop of its own, and is not lost when the manager becomes STOPPED without the other's BYE |
| SicRuns.AcceptLeadsTo | py/scenic/application.py:740-779 | an ACCEPT that finds the caller waiting leads to a session and ACK exactly when the codecs are supported and both would start; else to BYE, to BYE and ACK when all is disabled, or to an error and silence |
| SicRuns.DialLeadsTo | py/scenic/application.py:1095-1120 | connected, the INVITE leaves; not connected, the call is over and the caller free |
| SicRuns.CheckLeadsTo | py/scenic/application.py:661-705 | every end of a pre-flight check: what is stored, asked, connected and sent |
| SicRuns.ConnectionLeadsTo | py/scenic/application.py:691-696 | the answering peer is connected exactly when the connection was made, and then only an automatic acceptance says something |
| SicRuns.AnswerLeadsTo | py/scenic/application.py:640-648 | a yes or a no leaves over a connection only, which the yes keeps and the no gives up |
| SicRuns.RefusalLeadsTo | py/scenic/application.py:781-788 | a refusal ends the call, and its caller is free and still connected |
| SicRuns.CancelLeadsTo | py/scenic/application.py:718-738 | a CANCEL closes dialog and connection without a word, or neither when the contact has no name |
| SicRuns.StrangersChangeNothing | py/scenic/application.py:627-658 | a third peer that invites one in session or negotiating is refused and disturbs neither channel nor negotiation nor streamers |
| SicRuns.LateAccept | py/scenic/application.py:740-743 | an ACCEPT that crosses the CANCEL, from a dialog or from a check that ended later, finds CANCEL as the last message sent; it is the only one and starts nothing |
| Sic.StartsExactly | py/scenic/streamer.py:283-300 | starting meets no error exactly when the details can be gathered and some process has something to do |
| Sic.StartRaisesExactly | py/scenic/application.py:902-910 | with something to stream, starting fails exactly when the streamer manager refuses: busy, no details, or no process |
| Sic.MessagesFree | py/scenic/application.py:718-860 | after any message but INVITE the peer no longer negotiates, even when the handler fails |
| Sic.AnswersFree | py/scenic/application.py:1139-1193 | nor does it after an answer, a closed window, a stop or a failed check |
| Sic.LastSentByMessage | py/scenic/communication.py:153-165 | the message remembered is the last one given to the client |
| Sic.LastSentByEvent | py/scenic/communication.py:153-165 | the same for user actions and events; a refusal over its own connection is not remembered |
| Sic.StrangersAreRefused | py/scenic/application.py:627-658 | an INVITE during a session or a negotiation is answered REFUSE, if that arrives, and changes at most the memory of an old BYE |
| Sic.BusyAccept | py/scenic/application.py:773-776 | a stray ACCEPT during a session starts nothing and is not acknowledged |
| Sic.SameOutcome | py/scenic/application.py:889-910 | once both have the other's message, both peers start, both find everything disabled, or both fail |
| Sic.SeenMoves | py/scenic/streamer.py:666-764 | event by event, starts included, the manager of the negotiation model takes the state that the supervision of its processes gives; a start is followed by OneRuns at once exactly when a spawned process reports its connection within the call |
| Application.Application.OnServerReceiveCommand | py/scenic/application.py:864-885 | dispatches a message; new state, messages sent and exception are those of the peer function |
| Application.Application.HandleInvite | py/scenic/application.py:620-659 | refuses when in session or negotiating, over a connection that may fail, else starts the pre-flight check |
| Application.Application.OnPreflight | py/scenic/application.py:661-705 | becomes available and refuses over its own connection, which may fail, or connects and accepts or asks |
| Application.Application.HandleCancel | py/scenic/application.py:718-738 | raises without a name or the known reason, connection and dialog left alone; else disconnects, and the closed dialog then answers no |
| Application.Application.HandleAccept | py/scenic/application.py:740-779 | BYE after CANCEL or on a missing codec, else starts and acknowledges |
| Application.Application.HandleBye | py/scenic/application.py:824-853 | notes the BYE, stops, answers OK when connected and disconnects later |
| Application.Application.StartStreamers | py/scenic/application.py:902-910 | BYE when all is disabled, else starts the manager or raises |
| Application.Application.SendInvite | py/scenic/application.py:1070-1128 | no contact, not ready, already connected or to be connected: the state and message of each |
| Application.Application.OnConnection | py/scenic/application.py:1095-1120 | once connected INVITE or ACCEPT leaves; without a connection the inviting peer alone is freed and its window closed |
| Application.Application.SendCancelAndDisconnect | py/scenic/application.py:1173-1184 | CANCEL leaves only over an existing connection |
| Application.Application.OnStreamerDies | py/scenic/streamer.py:680-694 | the end of a process stops the manager, and the end of the last one makes it STOPPED and says BYE unless one was received |
| Application.Application.OnInviteContactClicked | py/scenic/gui.py:1603-1612 | the button stops a session, is dead during a negotiation, and else does what inviting does, in all its outcomes |
| Application.Client.Send | py/scenic/communication.py:153-165 | remembers the message in any case, sends it only when connected |
| Application.Client.Connect | py/scenic/communication.py:119-151 | an existing connection is kept, with its host and port |
| Application.Client.Disconnect | py/scenic/communication.py:170-181 | drops the connection and the port, not the host |
| SessionDetails.SidesMirror | py/scenic/streamer.py:101-231 | either both peers fail to gather their details or each one's send details equal the other's receive details: enabled, port, codec, size, aspect ratio, bitrate, channels after the raw limit |
| SessionDetails.GatheredExactly | py/scenic/streamer.py:213-231 | the details exist exactly when each raw codec in use has a known channel limit on the other side |
| SessionDetails.EnabledExactly | py/scenic/streamer.py:101-205 | a medium flows exactly when one configuration sends it and the other receives it |
| SessionDetails.ReceiverDecides | py/scenic/streamer.py:135-156 | port, codec, bitrate and synchronization come from the configuration that receives |
| SessionDetails.SenderDecides | py/scenic/streamer.py:128-134 | video size and aspect ratio come from the one that sends; devices and buffers are local |
| SessionDetails.ChannelsExactly | py/scenic/streamer.py:213-231 | raw audio has the smaller of the channels wanted by its receiver and the limit of its sender, other codecs have all |
| SessionDetails.RolesExactly | py/scenic/streamer.py:288-298 | which of the six processes run, from the two configurations: audio goes with the video exactly when its receiver synchronizes them |
| SessionDetails.ProcessesPair | py/scenic/streamer.py:288-298 | each process of one peer runs exactly when its counterpart runs on the other |
| SessionDetails.DisabledTogether | py/scenic/application.py:889-900 | both peers find everything disabled or neither does, and exactly then no process would run |
| Supervision.RunKeepsInv | py/scenic/process.py:231-327 | in every run of starts, stops, connections, exits and kill timers, a process is STOPPED exactly when it is dead, a session is over exactly when it has no process, and states follow their cycle |
| Supervision.NeverIllegal | py/scenic/process.py:313-327 | of all the changes of state that an event asks of processes, starts, stops, connections and exits, none is refused, and the manager never takes a state out of turn |
| Supervision.StoppedAtLastExit | py/scenic/streamer.py:666-694 | a session becomes STOPPED exactly while handling the exit of its last live process |
| Supervision.EndGives | py/scenic/streamer.py:680-694 | what one exit leaves: every other process told to stop once, or the session over |
| Supervision.StartGives | py/scenic/streamer.py:508-525 | a start runs exactly the processes asked for, each alive and told nothing, and is RUNNING exactly when one has reported its connection |
| Supervision.StopTwice | py/scenic/process.py:254-280 | a second stop kills what the first has terminated, and a process that has ended is sent nothing |
| Supervision.EveryoneIsTold | py/scenic/streamer.py:752-764 | once stopping, each live process has been sent SIGTERM exactly once, and before that never |
| Supervision.TimerKillsExactly | py/scenic/process.py:236-252 | the timer kills a live process exactly when, in the events of the run, its connection was not reported after the session began to stop |
| Supervision.TimersExactly | py/scenic/process.py:231-305 | a kill timer is pending exactly when the run says so: armed as the session begins to stop, gone when it fired, cancelled at the end of a process unless its connection was reported late |
| Supervision.KilledExactly | py/scenic/process.py:236-252 | a process was killed exactly as often as its timer fired in time, and never otherwise |
| Supervision.LateReportExample | py/scenic/process.py:226-252 | a run after which the timer fires and kills nothing |
| Supervision.LegalCounts | py/scenic/streamer.py:740-750 | announced starts and announced stops differ only by the session in progress |
| Supervision.StoppedOncePerSession | py/scenic/streamer.py:740-750 | each started session is announced STOPPED exactly once |
| Streamer.ProcessManager.SetChildState | py/scenic/process.py:313-327 | announces, then assigns; a process told to stop inside its own STOPPED announcement still ends STOPPED |
| Streamer.ProcessManager.Stop | py/scenic/process.py:231-280 | SIGTERM and a kill timer, or SIGKILL when already stopping, and nothing for a process that has ended; no change of state is refused |
| Streamer.ProcessManager.OnProcessEnded | py/scenic/process.py:294-311 | cancels the timer of a stopping process; the whole session is then that of the End event |
| Streamer.ProcessManager.LaterCheck | py/scenic/process.py:236-252 | SIGKILL only to the child that the timer was armed for, and only while still STOPPING; the timer of an earlier child kills nothing |
| Streamer.ProcessManager.Start | py/scenic/process.py:201-229 | refused unless STOPPED; else, for a fresh or an old process, STARTING, or RUNNING when the connection is reported at once |
| Streamer.StreamerManager.OnProcessStateChanged | py/scenic/streamer.py:666-694 | first RUNNING makes the manager RUNNING; a STOPPED stops the others, and the last one ends the session |
| Streamer.StreamerManager.OneIsLeft | py/scenic/streamer.py:687-692 | true exactly when a process other than the announcing one has not STOPPED |
| Streamer.StreamerManager.Stop | py/scenic/streamer.py:752-764 | every starting or running process is told to stop, and no other |
| Streamer.StreamerManager.SetState | py/scenic/streamer.py:740-750 | error on an unchanged state; STOPPED forgets the processes |
| Streamer.StreamerManager.Start | py/scenic/streamer.py:276-525 | succeeds exactly when stopped, with details and with a process to run; creates and starts exactly the processes of the details |
| Streamer.StreamerManager.GatherConfigToStream | py/scenic/streamer.py:90-231 | fills in the details, or fails when a channel limit to report is not known |
| SafeKeyboard.RepairAlternates | py/rtpmidi/engines/midi/midi_object.py:193-267 | what is returned for a note batch alternates on every key from the keyboard it found, and the new keyboard is its replay |
| SafeKeyboard.RepairStops | py/rtpmidi/engines/midi/midi_object.py:193-267 | for any batch: the command that stops the scan stays with all that follows, but for notes swapped within their keys, what comes before alternates up to the keyboard left, and an error means that a note stopped it |
| SafeKeyboard.OutOfTurn | py/rtpmidi/engines/midi/midi_object.py:208-264 | a note out of turn gives way to the nearest opposite one of its key within 1 in time, taking its place, and is dropped when there is none |
| SafeKeyboard.InTurn | py/rtpmidi/engines/midi/midi_object.py:233-235 | a note in turn is played and toggles its key |
| Midi.StatusByte | py/rtpmidi/engines/midi/midi_object.py:204-239 | which status bytes are note-ons and note-offs, and their channel |
| SafeKeyboard.RunAlternates | py/rtpmidi/engines/midi/midi_object.py:193-267 | over any run of note batches all that was returned alternates, and the keyboard is the replay of it |
| SafeKeyboard.RepairInventsNothing | py/rtpmidi/engines/midi/midi_object.py:193-267 | any batch comes back as a sub-multiset of itself, error or not |
| SafeKeyboard.RepairKeepsGoodBatch | py/rtpmidi/engines/midi/midi_object.py:193-267 | a batch that alternates already comes back unchanged |
| SafeKeyboard.RepairIdempotent | py/rtpmidi/engines/midi/midi_object.py:193-267 | repairing a repaired batch from the same keyboard changes nothing |
| SafeKeyboard.RaisesExactly | py/rtpmidi/engines/midi/midi_object.py:155-161 | an IndexError exactly when a note of pitch 127 comes before every command that is not a note |
| SafeKeyboard.RaisesExample | py/rtpmidi/engines/midi/midi_object.py:155-161 | pitch 127 raises, whatever sounds |
| SafeKeyboard.KeysIndependent | py/rtpmidi/engines/midi/midi_object.py:163-267 | each channel and pitch is repaired as if its commands were alone in the batch |
| SafeKeyboard.RepairKeepsLongest | py/rtpmidi/engines/midi/midi_object.py:208-264 | with all times within 1, each key keeps exactly the longest alternation its note-ons and note-offs can make |
| SafeKeyboard.RepairKeepsMost | py/rtpmidi/engines/midi/midi_object.py:208-264 | with all times within 1, no alternating choice and order of a key's commands is longer than what is kept |
| SafeKeyboard.Keyboard.NoteIndex | py/rtpmidi/engines/midi/midi_object.py:163-183 | the first matching command from the index on, or -1 |
| SafeKeyboard.Keyboard.CheckOne | py/rtpmidi/engines/midi/midi_object.py:203-264 | one round of the scan: plays, swaps or deletes, all indices in bounds |
| SafeKeyboard.Keyboard.Check | py/rtpmidi/engines/midi/midi_object.py:193-267 | the swapping and deleting loop computes the repair, table included |
| MidiCommand.RoundTripsExactly | py/rtpmidi/engines/midi/midi_object.py:57-128 | decoding the encoding gives the sorted, shifted commands exactly when the times are less than 2^32 apart |
| MidiCommand.RoundTripExample | py/rtpmidi/engines/midi/midi_object.py:90-93 | two commands 2^32 apart do not round-trip |
| MidiCommand.DecodedIsSortedPermutation | py/rtpmidi/engines/midi/midi_object.py:57-128 | then the result is a permutation of the commands less the first time, ordered by channel, kind, pitch, velocity and time, in seven bytes a command |
| MidiCommand.EncodedDecodes | py/rtpmidi/engines/midi/midi_object.py:87-128 | packing succeeds exactly when each reduced time is below 2^32, and what was packed unpacks |
| MidiCommand.SortUnique | py/rtpmidi/engines/midi/midi_object.py:76-79 | the sort key is total on commands, so every correct sort gives the same list |
| MidiCommand.LeqMeans | py/rtpmidi/engines/midi/midi_object.py:76-79 | the sort compares channel, kind, pitch, velocity and time, in this order |
| MidiCommand.DecodedLayout | py/rtpmidi/engines/midi/midi_object.py:117-126 | each command is a four-byte big-endian time, then status, pitch and velocity |
| MidiCommand.EncodeFailsExactly | py/rtpmidi/engines/midi/midi_object.py:90-101 | packing fails exactly when a command comes 2^32 up to 2^33, or 3 times 2^32 and more, after the first |
| MidiCommand.EncodedArrives | py/rtpmidi/engines/midi/midi_object.py:90-103 | what is packed arrives unchanged, its time less 2^33 when that was reached |
| MidiCommand.DecodeFails | py/rtpmidi/engines/midi/midi_object.py:112-128 | decoding fails exactly when there are fewer than seven bytes a command |
| MidiCommand.TimeRoundTrip | py/rtpmidi/engines/midi/midi_object.py:101-120 | the four big-endian bytes of a time give it back |
| MidiCommand.EncodeMidiCommands | py/rtpmidi/engines/midi/midi_object.py:57-109 | the loop computes the encoding and its count, or fails exactly when it must |
| MidiCommand.DecodeMidiCommands | py/rtpmidi/engines/midi/midi_object.py:112-128 | the loop computes the decoding, or fails exactly when bytes are missing |
| CircularList.RingHoldsLast | py/rtpmidi/engines/midi/list_circ.py:12-38 | after any history the ring read from its index is exactly the last items since the latest flush, for every size |
| CircularList.InsertShifts | py/rtpmidi/engines/midi/list_circ.py:12-33 | an insertion drops the oldest item of a full ring and nothing else |
| CircularList.Window | py/rtpmidi/engines/midi/list_circ.py:60-87 | a ring whose numbers go up within one cycle of 2^16, gaps allowed, returns the packets after checkpoint up to act_seq, each once; in order when the numbers wrap, else rotated at the seam |
| CircularList.RecoveryWindow | py/rtpmidi/engines/midi/list_circ.py:46-87 | the same for the ring that any history of numbered packets and flushes has filled |
| CircularList.WindowExactly | py/rtpmidi/engines/midi/list_circ.py:70-78 | the packets returned are those of the window exactly when the two ends differ |
| CircularList.EqualEndsReturnAll | py/rtpmidi/engines/midi/list_circ.py:70-78 | with equal ends every packet of the ring comes back, each once |
| CircularList.GoneCheckpoint | py/rtpmidi/engines/midi/list_circ.py:65-78 | what comes back then: on a wrap, the part of the list up to act_seq, without what is before the seam or with what is newer |
| CircularList.GoneCheckpointExactly | py/rtpmidi/engines/midi/list_circ.py:60-87 | with a checkpoint that has left the ring, exactly the packets up to act_seq come back exactly when the numbers do not wrap in between or the seam is at an end of the list |
| CircularList.MissingEndExactly | py/rtpmidi/engines/midi/list_circ.py:65-78 | with act_seq not in the ring, exactly the later packets sent before it come back exactly when the numbers do not wrap in between or the last of them is the last of the list |
| CircularList.BothMissing | py/rtpmidi/engines/midi/list_circ.py:65-84 | with neither number in the list, a wrap gives all of it, and else the packets with numbers between come back |
| CircularList.ListCirc.ToList | py/rtpmidi/engines/midi/list_circ.py:12-33 | the object makes the insertion of the ring function |
| CircularList.FindPacket | py/rtpmidi/engines/midi/list_circ.py:49-58 | index of the first packet with the number, or -1 |
| CircularList.GetPackets | py/rtpmidi/engines/midi/list_circ.py:60-87 | the slices and the filtering loop compute the packets of the window function |
| JitterBuffer.Conserved | py/rtpmidi/protocols/rtp/jitter_buffer.py:19-73 | in every run each packet that arrived is buffered or was returned, as many times as it arrived |
| JitterBuffer.BufferOrdered | py/rtpmidi/protocols/rtp/jitter_buffer.py:19-45 | with fresh numbers the buffer is strictly ordered after every run |
| JitterBuffer.InOrderExactly | py/rtpmidi/protocols/rtp/jitter_buffer.py:57-73 | all that was returned and buffered is strictly increasing exactly when nothing arrived after a greater number was returned |
| JitterBuffer.SendingOrderExactly | py/rtpmidi/protocols/rtp/jitter_buffer.py:19-73 | over one cycle of numbers, what was returned and buffered is in sending order exactly when every arrival found nothing returned that was sent later and nothing buffered across the wrap |
| JitterBuffer.WrapExample | py/rtpmidi/protocols/rtp/jitter_buffer.py:25-31 | 65535 and 0 come back in the opposite order |
| JitterBuffer.AddOrdersExactly | py/rtpmidi/protocols/rtp/jitter_buffer.py:33-43 | with repeated numbers, order is lost exactly when the head is repeated before a later number |
| JitterBuffer.RepeatedHeadExample | py/rtpmidi/protocols/rtp/jitter_buffer.py:36-43 | a repeated head that lands behind a greater number |
| JitterBuffer.AddKeeps | py/rtpmidi/protocols/rtp/jitter_buffer.py:33-43 | an addition adds one entry and loses none |
| JitterBuffer.AddedAt | py/rtpmidi/protocols/rtp/jitter_buffer.py:25-43 | where an entry goes in an ordered buffer: between its neighbours, before the one it repeats, behind all when that is the head |
| JitterBuffer.JitterBuffer.Add | py/rtpmidi/protocols/rtp/jitter_buffer.py:19-45 | the search loop and the insertion compute the function that the lemmas are about |
| JitterBuffer.JitterBuffer.GetPackets | py/rtpmidi/protocols/rtp/jitter_buffer.py:57-73 | removes and returns the longest prefix whose times have passed |
| JitterBuffer.JitterBuffer.HasSeq | py/rtpmidi/protocols/rtp/jitter_buffer.py:48-55 | true exactly for a buffered number |
| PortsAllocator.AllocateExactly | py/scenic/ports.py:75-94 | the least free grid port, unless an allocated port below it is the last within the maximum: then, and only then, the error |
| PortsAllocator.FailsExactly | py/scenic/ports.py:81-85 | the error comes exactly when all ports up to some allocated one, less than an increment under the maximum, are taken |
| PortsAllocator.AllocateWithinMaximum | py/scenic/ports.py:75-94 | the least free grid port up to the maximum is returned when there is one, and an error means there is none |
| PortsAllocator.ExceedsMaximumExactly | py/scenic/ports.py:81-92 | a port above the maximum is returned exactly when every grid port up to it is allocated or busy and the walk meets no allocated port from which it would step past it |
| PortsAllocator.ExceedsMaximumExample | py/scenic/ports.py:81-92 | a port above the maximum, with concrete settings |
| PortsAllocator.LivePorts | py/scenic/ports.py:75-103 | through any run, live ports are distinct, on the grid, and those remembered |
| PortsAllocator.FreeExists | py/scenic/ports.py:81-92 | with finitely many taken ports there is always a least free grid port |
| PortsAllocator.PortsAllocator.Allocate | py/scenic/ports.py:75-94 | the nested loops end and compute the walk |
| PortsAllocator.PortsAllocator.Free | py/scenic/ports.py:96-103 | forgets the port, or fails on one that is not allocated |
| PortsAllocator.PortsAllocator.AllocateMany | py/scenic/ports.py:114-122 | distinct new ports, or an error that keeps those already taken |
| PortsAllocator.PortsAllocator.FreeMany | py/scenic/ports.py:124-130 | succeeds exactly for distinct allocated values |
| PortsAllocator.PortsAllocator.AllocateThenFree | py/scenic/ports.py:114-130 | freeing what was just allocated never fails and restores the allocator |
| RemoteConfig.RunKeepsInv | src/gst/remote_config.cpp:54-87 | through any run of checks, failed ones included, and cleanups, the used ports are the disjoint union of the live footprints |
| RemoteConfig.AcceptsExactly | src/gst/remote_config.cpp:65-87 | a port is accepted exactly when it is in range and at a distance other than 0, 1, 4, 5, 8, 9 from every live port |
| RemoteConfig.ClashExactly | src/gst/remote_config.h:52-55 | two four-port footprints meet exactly at those distances |
| RemoteConfig.AllocatedPortsNeverClash | py/scenic/ports.py:41-45 | a new port of an allocator with a step of at least 10 is accepted exactly when it is in range |
| RemoteConfig.DefaultPortsRefusedExactly | src/gst/remote_config.cpp:65-69 | of the ports of the default allocator exactly those above 65000 are refused, and there are such ports below its maximum |
| RemoteConfig.RemoteConfig.CheckPorts | src/gst/remote_config.cpp:65-87 | accepts and inserts all four ports, or throws and inserts none |
| RemoteConfig.RemoteConfig.CleanupPorts | src/gst/remote_config.cpp:54-60 | erases the footprint and nothing else |
| ConcurrentQueue.RunKeepsInv | src/include/concurrent_queue.h:26-63 | every interleaving of pushers and poppers, with spurious wake-ups, keeps order, mutual exclusion, non-empty pops and a credit for each item while a thread is blocked |
| ConcurrentQueue.QueueIsSafe | src/include/concurrent_queue.h:26-63 | popped then queued items are the pushed ones in order, no pop meets an empty queue, and no thread stays blocked on an item without a pending notify or a woken thread |
| ConcurrentQueue.NoDeadlock | src/include/concurrent_queue.h:26-63 | in every interleaving, while a thread is inside a call and not blocked for want of an item, some thread can go on by itself |
| ConcurrentQueue.PopsGiveUpExactly | src/include/concurrent_queue.h:40-59 | a try_pop returns nothing, and a waiting pop blocks, exactly when it saw an empty queue |
| ConcurrentQueue.TakesTheOldest | src/include/concurrent_queue.h:48-62 | what a pop returns is the oldest item pushed and not popped |
| ConcurrentQueue.NotifyKeepsInv | src/include/concurrent_queue.h:26-32 | notifying after the unlock loses no wake-up |
| ConcurrentQueue.SharedQueue.Take | src/include/concurrent_queue.h:60-61 | the front that is read and popped exists |
| ConcurrentQueue.SharedQueue.Test | src/include/concurrent_queue.h:55-59 | one test of the waiting loop, giving the mutex up when the queue is empty |
| ConcurrentQueue.SharedQueue.NotifyOne | src/include/concurrent_queue.h:31 | wakes a blocked thread when there is one |
| MilhouseLogger.LogRunKeepsInv | src/main/milhouse_logger.cpp:65-95 | every interleaving keeps the queue safe, and what was popped is what was written, the sentinel and what is in hand |
| MilhouseLogger.WrittenIsPrefix | src/main/milhouse_logger.cpp:80-95 | what was written is, in order, the beginning of what was pushed, without the sentinel |
| MilhouseLogger.WrittenAtTheEnd | src/main/milhouse_logger.cpp:80-95 | once done, exactly what was pushed before the first sentinel |
| MilhouseLogger.AllWrittenExactly | src/main/milhouse_logger.cpp:65-77 | every accepted message pushed before the sentinel of the destructor is written, in order, exactly when none of them equals the sentinel |
| MilhouseLogger.PushedExactly | src/main/milhouse_logger.cpp:73-77 | every message has been pushed, or is about to be, exactly as often as it was logged at a level that reaches that of the logger |
| MilhouseLogger.JoinIsNeverStuck | src/main/milhouse_logger.cpp:65-70 | after the sentinel of the destructor, and until the print thread ends, some thread can always go on |
| DeviceName.RoundTripsExactly | py/scenic/application.py:158-185 | a label gives back name and identifier exactly when the name is stripped, with any parentheses, and the identifier has none |
| DeviceName.ParseAtLast | py/scenic/application.py:182-185 | the last opening parenthesis is the one that counts |
| DeviceName.JoinSplit | py/scenic/application.py:182-184 | joining the pieces of a split gives the text back |
| DeviceName.FormatLayout | py/scenic/application.py:158-171 | the label is the name, a space and the identifier in parentheses |

## Left out

- GStreamer pipelines, GTK windows, device and tool output parsers, sockets, files: calls into libraries outside the repository. Their results are parameters (`check`, `made`, `supported`, `named`, `told`, `sync`, `busy`).
- The IDLE message, which only changes the last message sent while connected.
- Overlapping negotiations, third peers that find a peer free, lost connections and application shutdown: messages carry no session identity. Each negotiation of `SicRuns` begins with idle peers and empty channels. The pre-flight check of the caller is over when it begins, and a refusal that reaches the caller is in its channel at once.
- `send_invite` without a selected contact leaves the peer negotiating until some message clears the flag; `Application.SendInvite` states it, and no run of `SicRuns` begins that way.
- Ports of a session at the application level: several refusal and error paths do not free what the pre-flight check allocated. Conservation is stated for the allocator alone.
- The entries of the session details that are decided locally and never compared or acted upon here (sinks, buffers, display, window title, source of the audio), and the text form of the capture size.
- Python's `sic_sender` is a truth value, and the wire is the sequence of messages that left; TCP delivers them in order.
- Command lines, log lines, statistics and error texts of the streamer processes, and the lines of `ProcessIO`, which arbitrary chunks repeat or join.
- Errors of the operating system on spawning or signalling, other than a signal to a process that has ended; the kill timer of a process object that its manager has forgotten.
- Aliasing of the list given to `check`: it is changed in place by the source and returned as a value here.
- The lock of the jitter buffer and its unsynchronised `has_seq`: methods are atomic here.
- `wait_and_pop` and the print loop need not end, so they are steps of a thread on values; `SharedQueue` has each step as a method. `empty` is not modelled, and the queue holds strings, as its one use does.
- The set of busy ports does not change during one call of `allocate`.
- `header` and `parse_header` of the MIDI command section: a short bit-field check with a constant B bit.
- `DelayCirc` and `MidiTimeCirc`: averages and spreads over the ring.
- `SharedVideoBuffer`, packet-loss accounting and session numbering of the RTP bins: half of each protocol is not in the repository.
