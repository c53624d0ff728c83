# Verified model of the event engine

A Dafny model of the protocol cores of a camera event engine, and proofs about
it. The parts are independent; each is one or more modules.

- **Sparkplug B session** (`SparkplugHost`, `SparkplugNode`, `SparkplugSession`,
  `SparkplugRuns`, `SparkplugGuarantees`, `SparkplugWills`, `SparkplugConservation`,
  `SparkplugReplay`, `SparkplugAnswers`, `SparkplugHistory`).
  The edge node is a class whose methods are proved equal to functions on its state;
  the validating host of the command line tool is another. Both are composed with an
  MQTT worker and a broker that drops, refuses, crashes and delivers wills, and the
  theorems hold after every run.
- **Flashing ports** (`FlashTable`, `FlashRhythm`, `FlashProtocol`, `FlashSafety`,
  `FlashTrace`, `FlashEnds`, `FlashProgress`). Starters, enders and workers are threads
  over a shared table; every section under the lock is one step and requests are in
  flight between steps.
- **Timed outputs** (`TimedOutputs`, `TimedOutputRuns`, `PulseLevels`). The table of
  pending restores, and every run of overlapping pulses over it.
- **Protobuf** (`ProtobufWire`, `ProtobufMetric`, `ProtobufDecode`,
  `ProtobufPayload`, `ProtobufBytes`), **JSON** (`Json`, `JsonText`, `JsonReading`,
  `JsonRoundTrip`, `JsonParser`, `JsonPrinter`), **child lists** (`JsonList`,
  `JsonCopy`). Encoders, decoders, parser and printer are loops over buffers, proved
  against functions on byte sequences about which the round trips are stated. The
  lists are linked nodes in the heap.
- **MQTT** (`MqttWire`, `MqttInflight`, `MqttResends`, `MqttSubscriptions`,
  `MqttOwners`). Packets and framing, QoS 1 resending, the subscription table.
- **Rule gate** (`RateGate`, `RateDecision`) and **Modbus over a serial line**
  (`ModbusCrc`, `CrcDivision`, `ModbusReplies`).

A method that works in place is proved equal to a function on its state. What such a
function must do is stated apart from it, by the requirement it serves: the CRC as a
division of polynomials, the parser by the grammar of RFC 8259, the gate by the log of
executions, a run by what was asked of it.

`Prelude` and `Bytes` hold shared vocabulary.

A device or broker request is an operation that may fail; a clock is a value that
each step is given; a file write is atomic. A session's failed send is final for
that session: its publishes have a budget that succeeds and a budget that arrives,
fixed when the session opens.

Some promises turned out to need a condition, which the theorems state exactly:

- The validating host's list of problems does not stay empty on every run. A
  session that is accepted after an earlier one was born, and dies before its own
  NBIRTH arrives, leaves a will whose bdSeq the host cannot match
  (`UnbornSessionIsFlagged`); this is the only way, provided wills are delivered
  before the next NBIRTH (`HostQuietExactlyWithoutOrphans`).
- A printed JSON tree is read back exactly up to 1000 levels (`RoundTrip`); a tree
  one level deeper is not (`TooDeepIsNotReadBack`).
- Every JSON text is read as the tree it denotes, up to 1000 levels and with numbers of
  at most 63 bytes (`EveryTextIsRead`); strings are C strings, so one with \u0000 is read
  up to it. Of a longer integer the first 63 bytes are taken as the number
  (`LongNumberIsCut`).
- A published topic is read back exactly up to 65535 bytes (`PublishReadBack`); one
  of 65536 bytes arrives empty (`LongTopicArrivesEmpty`).
- A release undoes a subscribe exactly for filters up to 255 bytes
  (`ReleaseUndoesSubscribe`). A longer one is stored cut and is not released under
  its own name (`LongFilterIsLeft`); releasing its first 255 bytes drops it
  (`CutNameReleases`).
- An acknowledgement releases its own publish exactly while no earlier slot holds the
  same identifier (`AckReleasesExactly`); on a run with 65535 allocations between two
  tracked publishes it releases the other one (`AckReleasesAnother`).
- A Modbus reply with one byte changed is sure to be refused exactly when the byte is
  neither the function code nor the byte count (`RefusedExactlyOffTheHeader`): those
  two say where reading may stop (`DamagedFunctionPasses`, `DamagedCountPasses`). It
  passes exactly when a front of it that is long enough is itself a frame from the
  same address (`DamagedReplyPassesExactly`).
- Adding an item to a child list yields a list exactly when the item is not in it yet
  and, behind a list that is not empty, its own next is null: the functions do not
  look (`Append`, `Insert`).

Verify everything with `dafny verify dfyconfig.toml`.

## Model

| member | source | states |
|---|---|---|
| SparkplugHost.NodeState.CheckSequence | tools/sparkplug_host.py:189-202 | the sequence check in place: its whole effect on the host's state is the one `CheckSeq` describes, for every kind of message and with or without a number |
| SparkplugHost.NodeState.ResolveMetric | tools/sparkplug_host.py:204-219 | declares and looks up aliases in place, flags an undeclared one, and returns the name |
| SparkplugHost.NodeState.ShowMessage | tools/sparkplug_host.py:221-258 | a whole message checked in place is the fold of header and metric checks |
| SparkplugHost.HeaderFlagged | tools/sparkplug_host.py:189-202 | the header check flags a message exactly when it breaks birth-before-data, seq 0 at NBIRTH, +1 modulo 256 after it, or no seq on NDEATH |
| SparkplugHost.MetricsFlagged | tools/sparkplug_host.py:227-258 | the metrics of a message are flagged exactly when one of them names an undeclared alias or an NDEATH names a bdSeq other than the birth's |
| SparkplugHost.FlagsExactlyViolations | tools/sparkplug_host.py:176-258 | the problems list grows on a message if and only if the message breaks one of the requirements stated without the checking code |
| SparkplugHistory.AcceptedExactly | tools/sparkplug_host.py:176-258 | over a whole conversation the problems list stays empty if and only if every message is right after those before it: numbers count up from 0 at the last NBIRTH, aliases were named since then, data comes only once a node is born, and a death names the bdSeq of the birth |
| SparkplugHistory.KeptIsHeard | tools/sparkplug_host.py:176-258 | what the validator keeps is what the messages so far establish: the names since the last NBIRTH, the bdSeq of the last birth, and whether there was one |
| SparkplugSession.EdgeNode.TakeSeq | app/engine/sparkplug.c:203-207 | seq counts modulo 256, the wrap written out |
| SparkplugSession.EdgeNode.PublishBirth | app/engine/sparkplug.c:246-297 | the birth certificates built and sent in place: NBIRTH with seq 0 and bdSeq, DBIRTH with every definition and its last value, and the birth flag |
| SparkplugSession.EdgeNode.FlushHistory | app/engine/sparkplug.c:300-330 | the ring is replayed oldest first as historical metrics; it is emptied only when the send succeeded |
| SparkplugSession.EdgeNode.BufferSample | app/engine/sparkplug.c:333-345 | the 256-slot ring refines a bounded queue that drops its oldest sample when full |
| SparkplugSession.EdgeNode.OnDeviceEvent | app/engine/sparkplug.c:602-652 | an event updates values, and is published live or buffered |
| SparkplugSession.EdgeNode.RulePublish | app/engine/sparkplug.c:654-704 | a rule's metrics update values, and are published live or buffered; unknown names are skipped |
| SparkplugSession.EdgeNode.OnPreconnect | app/engine/sparkplug.c:455-471 | bdSeq is advanced and persisted before the will is registered with it |
| SparkplugSession.EdgeNode.OnConnected | app/engine/sparkplug.c:473-481 | a session that is up gets a birth, and the replay of buffered samples once the birth is out |
| SparkplugSession.EdgeNode.OnDisconnected | app/engine/sparkplug.c:483-487 | a lost session ends the birth; buffered samples and values stay |
| SparkplugSession.EdgeNode.OnHostState | app/engine/sparkplug.c:540-559 | a primary host that goes offline mutes the node; one that is online gets a birth, and the replay when it was away |
| SparkplugSession.EdgeNode.Cleanup | app/engine/sparkplug.c:896-916 | graceful shutdown publishes the NDEATH itself |
| SparkplugRuns.NodeBirthArrives | app/engine/sparkplug.c:246-279 | an NBIRTH that arrives makes the host's table, sequence number and bdSeq those of the node, without a new problem |
| SparkplugRuns.DeviceBirthArrives | app/engine/sparkplug.c:280-297 | a DBIRTH that arrives declares every definition and shows every value, without a new problem |
| SparkplugRuns.DeathArrives | app/engine/sparkplug.c:227-243 | an NDEATH is accepted exactly when its bdSeq is the birth's or no birth was seen |
| SparkplugRuns.NextKeeps | app/engine/sparkplug.c:452-488 | every step of node, worker, broker and host keeps the invariant of the composed system |
| SparkplugRuns.RunKeeps | app/engine/sparkplug.c:452-488 | the invariant holds after every run of connects, drops, crashes at any step, rebirths, host state changes, samples and shutdowns |
| SparkplugGuarantees.HostQuietExactlyWithoutOrphans | app/engine/sparkplug.c:203-354 | with each will delivered before the next NBIRTH, the validating host's problems list is empty after a run if and only if no will was delivered of a session whose own NBIRTH never reached a host that had seen an earlier one |
| SparkplugGuarantees.UnbornSessionIsFlagged | app/engine/sparkplug.c:452-471 | a concrete run on which the list does not stay empty: a session that dies before its NBIRTH |
| SparkplugGuarantees.HostKnowsEveryValue | app/engine/sparkplug.c:246-297 | whenever the node is birthed, its session has lost nothing and its host is online, the host's view equals the device's current value of every metric |
| SparkplugGuarantees.SessionsNeverShareBdSeq | app/engine/sparkplug.c:211-243 | over every run the bdSeq of registered wills strictly increases and never passes what is persisted; the open session's will has the last one, and so has the birth the host got from it |
| SparkplugReplay.BufferIsReplayed | app/engine/sparkplug.c:473-559 | after every run: while the connection is up and has lost nothing the node is born and, unless its host is offline, holds no sample back: whatever it buffered has been replayed |
| SparkplugReplay.ReportsExactlyChanges | app/engine/sparkplug.c:602-652 | a definition reports an event if and only if the event is at its path or below it, has its field, and brings a text, kept to 255 bytes, that its value does not show yet |
| SparkplugReplay.EventSamplesChanges | app/engine/sparkplug.c:602-652 | an event is sampled exactly once for each definition it changes, in order, and for no other |
| SparkplugReplay.EventIsTakenUp | app/engine/sparkplug.c:602-652 | after an event each definition it changes shows the new text and time, and each other one what it showed before |
| SparkplugReplay.ItemSamplesDeclared | app/engine/sparkplug.c:654-704 | a rule publishes its declared items in order, the first 128 of them, each under the first definition of its name |
| SparkplugReplay.SentOrKept | app/engine/sparkplug.c:333-357 | samples go out in one message while the node is born, its host there and its link up; otherwise they go into the ring, of which the newest 256 remain, and nothing is sent |
| SparkplugReplay.BirthTells | app/engine/sparkplug.c:246-297 | a birth gives name, alias and last reading of every definition, and null where there is none |
| SparkplugReplay.NoSilentEnd | app/engine/sparkplug.c:896-916 | over every run a session ends only with its will owed to the host, or by a clean shutdown that has told a born node's host of its death |
| SparkplugAnswers.HostIsKnown | app/engine/sparkplug.c:455-559 | the node counts its host as there exactly from the start of a process or session, or from a STATE that says so, until a STATE says otherwise |
| SparkplugAnswers.BirthOnDemand | app/engine/sparkplug.c:473-590 | when a session comes up, a rebirth is commanded or the host says that it is there, a link that carries them gets the birth certificates first, and behind them at most one message with all that was held back |
| SparkplugAnswers.NoBirthUnasked | app/engine/sparkplug.c:246-297 | no other step sends a birth, or more than one message |
| SparkplugAnswers.SentKinds | app/engine/sparkplug.c:246-357 | over every run a node with a device sends DBIRTH and DDATA for it and no NDATA, one without sends NDATA only |
| SparkplugWills.BirthsNameTheirWill | app/engine/sparkplug.c:227-297 | over every run each NBIRTH and each NDEATH the node sends, arriving or not, names the bdSeq of the will registered for the session it is sent in |
| SparkplugConservation.SamplesConserved | app/engine/sparkplug.c:300-357 | conservation over every run: the samples accepted are, each counted once, those of the non-historical metrics on the wire, those of failed live publishes, those that left the buffer and those still in it; the replayed ones among those that left are exactly the historical metrics on the wire, in order, and no sample is failed when no publish of the run failed |
| SparkplugConservation.FailsExactlyWhenMissed | app/engine/sparkplug.c:348-357 | a publish of samples adds nothing to what was sent if and only if the node is not muted and its link cannot send |
| SparkplugConservation.LiveSamplesAreOnWire | app/engine/sparkplug.c:348-357 | the non-historical data on the wire over a whole run is exactly the samples taken live, in order, each once |
| SparkplugConservation.FlushOnWire | app/engine/sparkplug.c:300-330 | a replay either empties the queue and puts exactly its contents on the wire, oldest first and marked historical, or leaves queue and wire as they were; it succeeds exactly when the send can |
| SparkplugConservation.NextMoves | app/engine/sparkplug.c:300-357 | every step accounts for every sample: live ones go on the wire, buffered ones into the queue, a replay moves the whole queue, and nothing else moves |
| SparkplugConservation.EnqueueAllKeepsNewest | app/engine/sparkplug.c:333-345 | overflow drops only the oldest: what remains are the newest 256 |
| SparkplugConservation.BufferedSamplesAccounted | app/engine/sparkplug.c:300-345 | over a whole run every buffered sample is still queued or has left in order; the replayed ones are exactly the historical metrics on the wire, and a dropped one had 256 newer behind it; none is lost otherwise unless the process restarts |
| FlashTable.FlashRuns.Refresh | app/engine/actions.c:2032-2045 | re-firing the same rule on the same ports refreshes the running flash in place and starts nothing |
| FlashTable.FlashRuns.Claim | app/engine/actions.c:2052-2065 | a start takes the first free slot, busy at once, with a new generation |
| FlashTable.FlashRuns.TryEnd | app/engine/actions.c:1812-1843 | ending a run waits while a request is in flight, frees the slot otherwise |
| FlashTable.FlashRuns.TakeTurn | app/engine/actions.c:1845-1885 | a worker that wakes leaves when its run is over or being stopped, else marks it busy and advances it |
| FlashTable.FlashRuns.Land | app/engine/actions.c:2076-2105 | behind the first edge the starter hands over to a worker, leaves the run to its ender, or ends it when the edge failed |
| FlashTable.FlashRuns.Settle | app/engine/actions.c:1886-1903 | a request that came back clears busy and, when it was the last, frees the slot |
| FlashTable.RefreshKeeps | app/engine/actions.c:2032-2045 | a refresh changes neither the set of ports nor the run's well-formedness, although the port order changes |
| FlashRhythm.AdvanceCounts | app/engine/actions.c:1860-1885 | one wake-up completes at most one flash; the run ends exactly when the last one does |
| FlashRhythm.SequenceFlash | app/engine/actions.c:1845-1903 | the rhythm of a sequence flash with count c over n ports, unfolded from one advance to the next, lights them in order, round after round, each exactly c times, and ends with all off |
| FlashRhythm.TogetherFlash | app/engine/actions.c:1845-1903 | the rhythm of a together flash has exactly c on periods when the gap is not zero, one unbroken period when it is, and ends with all off |
| FlashRhythm.ApplyBody | app/engine/actions.c:1785-1807 | the two-pass loop lists the ports to switch off before the one to switch on |
| FlashRhythm.NeverTwoLit | app/engine/actions.c:1785-1807 | one request from at most one lit port: at no prefix of its port list are two lit, and afterwards exactly the wanted one is |
| FlashRhythm.RunNeverTwoLit | app/engine/actions.c:1785-1903 | at no prefix of any request of a whole sequence rhythm, first edge and closing all-off included, are two ports lit |
| FlashTrace.FlashKeepsItsRhythm | app/engine/actions.c:1831-1903 | in every interleaving, the requests logged for a counted flash that is not refreshed, stopped, limited or failed at its first edge are a front of its rhythm, and all of it once the run has left the table |
| FlashTrace.SequenceIsSent | app/engine/actions.c:1845-1903 | so when an undisturbed sequence flash has left the table, what was sent lit its ports in order, each exactly as often as its count says, and ended with all off |
| FlashTrace.TogetherIsSent | app/engine/actions.c:1845-1903 | what was sent of an undisturbed together flash has as many on periods as its count says, one when it has no gaps, and ended with all off |
| FlashTrace.SentNeverTwoLit | app/engine/actions.c:1785-1903 | in every interleaving, at no moment of any request sent for an undisturbed sequence flash are two of its ports lit |
| FlashTrace.EndlessFlashGoesRound | app/engine/actions.c:1845-1903 | the requests logged for an undisturbed flash without a count are a front of its endless rhythm: round after round through its ports, dark between them when it has a gap |
| FlashEnds.LimitEndsRun | app/engine/actions.c:1845-1903 | in every interleaving, when the worker of a run that is not being stopped finds its limit reached or its rule disabled, it begins the closing all-off; at its next step that is done, the slot is free, and nothing is sent for the run again |
| FlashEnds.StopIsObeyed | app/engine/actions.c:1845-1885 | once a run is asked to stop, at most the request already begun completes: its worker begins nothing more |
| FlashEnds.EnderEndsItsRuns | app/engine/actions.c:1906-1950 | when an ender has looked at every slot, each run that it was to end and that it found is out of the table |
| FlashEnds.NothingElseEndsARun | app/engine/actions.c:1812-1903 | a run leaves the table only by its own closing request coming back, by its failed first edge, or by an ender that is to end it |
| FlashEnds.ClosesExactlyWhenDue | app/engine/actions.c:1845-1885 | a worker's turn is a run's last if and only if its limit is reached or its count is with the flash that ends |
| FlashEnds.FireRefreshesExactly | app/engine/actions.c:2032-2045 | firing starts no new flash if and only if the same rule already runs on the same ports of the same device; the first such run takes the new settings and goes on at its position and phase |
| FlashProgress.WaitsExactlyInFlight | app/engine/actions.c:1812-1829 | an ender waits exactly while the run it waits for has a request in flight; then it goes on, and the run is gone |
| FlashProgress.NoDeadlock | app/engine/actions.c:1812-1903 | in every reachable state in which a thread is not finished some thread goes on |
| FlashProgress.StartIsHandedOn | app/engine/actions.c:2076-2105 | a first edge that comes back hands the run to a worker; one that failed frees the slot and is followed by the run's all-off |
| FlashSafety.NextKeeps | app/engine/actions.c:1831-1913 | every step of starters, enders, refreshes and workers keeps the protocol invariant |
| FlashSafety.RequestsTakeTurns | app/engine/actions.c:1831-1913 | for every interleaving, requests of one run never overlap, none begins after its closing all-off, and there is at most one closing all-off |
| FlashSafety.EndedFlashIsSwitchedOff | app/engine/actions.c:1812-1829 | a run that was started, has left the table and is owed no all-off got exactly one, and it is complete |
| FlashSafety.SlotStaysWhileInFlight | app/engine/actions.c:1812-1843 | a slot whose request is in flight is neither freed nor reassigned by any step |
| FlashSafety.LiveFlashesShareNoPort | app/engine/actions.c:1906-1922 | with starts serialised, two live runs on one host never share a port |
| TimedOutputs.PendingTable.HeldStates | app/engine/actions.c:2259-2273 | the state each port is held to is the one the first pending entry of the host recorded |
| TimedOutputs.PendingTable.Claim | app/engine/actions.c:2288-2309 | the ports are taken out of every entry of the host in place, emptied entries are freed, and the ports a camera sequence would restore are reported, no others |
| TimedOutputs.PendingTable.Add | app/engine/actions.c:2311-2343 | the restore is booked in the first free entry |
| TimedOutputRuns.Outputs.TimedOutput | app/engine/actions.c:2361-2419 | a timed action over table and devices: record, claim, cancel, set, book; with all 32 entries taken the ports are claimed and switched and nothing is booked |
| TimedOutputRuns.Outputs.TimerCallback | app/engine/actions.c:2234-2248 | the timer frees its entry and restores its ports unless the camera does |
| TimedOutputRuns.TimedRecorded | app/engine/actions.c:2361-2419 | a timed action changes, for no port, the state on record to return to, however actions overlap |
| TimedOutputRuns.TimerFiresRecorded | app/engine/actions.c:2234-2248 | nor does a timer that fires |
| TimedOutputRuns.NextKeeps | app/engine/actions.c:2203-2343 | every step keeps each port in at most one pending restore and camera sequences booked with the state they return to |
| TimedOutputRuns.PortsComeBack | app/engine/actions.c:2203-2210 | after every run of timed actions, plain settings, camera sequences and timers, the state on record for a port is the one from before the first overlapping pulse (or last set to stay), and a port no pending restore holds is in it |
| PulseLevels.TimedSets | app/engine/actions.c:2389-2406 | a timed action switches exactly its ports, each to the state asked for |
| PulseLevels.RoomExactly | app/engine/actions.c:2288-2343 | there is room for its booking if and only if an entry is free or holds none but ports of the request |
| PulseLevels.PortsShowWhatWasAsked | app/engine/actions.c:2361-2419 | at every moment of every run a port is in the state last asked for it, until the timer of its restore fires or its camera sequence ends, and from then on in its intended one |
| PulseLevels.TimedIsBooked | app/engine/actions.c:2361-2419 | a timed action is on the books for exactly its ports, each to return to its intended state: by the engine's timer for several, by a camera sequence that is under way for a single one |
| PulseLevels.EveryPulseCanEnd | app/engine/actions.c:2234-2248 | whatever holds a port, the end of its sequence and the timer of its entry leave it in its intended state and held by nothing |
| ProtobufWire.ByteBuffer.Reserve | app/engine/sparkplug_pb.c:119-128 | growing keeps the contents, makes the room, and never more than doubles what is needed |
| ProtobufWire.ByteBuffer.PutField | app/engine/sparkplug_pb.c:150-192 | a tag and its content are appended in place to what was there |
| ProtobufWire.VarintGroups | app/engine/sparkplug_pb.c:150-160 | the do-while loop writes the seven-bit groups of a 64-bit value, in at most ten bytes |
| ProtobufWire.Reader.ReadVarint | app/engine/sparkplug_pb.c:278-288 | the shifting loop reads what `Scan` denotes, at most ten bytes, cut to 64 bits, and moves the cursor by as many |
| ProtobufWire.Reader.Skip | app/engine/sparkplug_pb.c:291-304 | an ignored field moves the cursor by its size, never past the end, or fails |
| ProtobufWire.ScanVarint | app/engine/sparkplug_pb.c:150-160 | reading back a written 64-bit value gives it and stops where it ends, whatever follows |
| ProtobufWire.ReadFieldWritten | app/engine/sparkplug_pb.c:162-192 | reading back any well-formed field gives the field and its size, whatever follows |
| ProtobufMetric.EncodeMetric | app/engine/sparkplug_pb.c:237-253 | the nested encoder appends one length-delimited field holding the metric's fields in order |
| ProtobufMetric.NarrowUnique | app/engine/sparkplug_pb.c:197-210 | a narrowed integer is the one value of the datatype's range congruent to the stored one modulo its width |
| ProtobufMetric.RenderedInteger | app/engine/sparkplug_pb.c:317-330 | two's complement is undone for signed types of 8, 16, 32 and 64 bits, unsigned ones stay masked: what is shown is the narrowed value in decimal |
| ProtobufMetric.MetricRoundTrip | app/engine/sparkplug_pb.c:197-253 | decoding an encoded metric of any datatype yields its name, alias, datatype and narrowed value; only texts over 255 and 511 bytes are cut |
| ProtobufDecode.DecodeMetric | app/engine/sparkplug_pb.c:332-431 | the decoding loop over the cursor computes `MetricAt` and fails exactly where it fails |
| ProtobufDecode.UnknownFieldIgnored | app/engine/sparkplug_pb.c:422-424 | any single unknown field, however encoded, between any two fields changes nothing |
| ProtobufDecode.FieldOrderIrrelevant | app/engine/sparkplug_pb.c:332-431 | metrics with the same fields in any order decode alike and are refused alike when no slot is filled twice; they are accepted exactly when every field has its wire type |
| ProtobufPayload.Encode | app/engine/sparkplug_pb.c:255-267 | the payload encoder writes timestamp, metrics in order and the optional seq |
| ProtobufPayload.Decode | app/engine/sparkplug_pb.c:433-463 | the payload decoder makes the handler calls and returns the value `Deliver` describes, also when it fails half way |
| ProtobufPayload.PayloadRoundTrip | app/engine/sparkplug_pb.c:255-267 | decoding an encoded payload calls the handler once per metric, in order, with name, alias, datatype and narrowed value; beyond 4096 metrics the first 4096 are delivered and decoding fails |
| ProtobufPayload.ForeignFieldIgnored | app/engine/sparkplug_pb.c:445-460 | any field that is not a metric may stand between any two fields of a payload |
| ProtobufBytes.MetricFieldsAre | app/engine/sparkplug_pb.c:197-253 | a metric is written as exactly the fields it has, under the numbers of the Sparkplug B schema, no two under one number |
| ProtobufBytes.IntegerRanges | app/engine/sparkplug_pb.c:197-210 | the range of each integer datatype, by its number |
| ProtobufBytes.MetricBytes | app/engine/sparkplug_pb.c:237-253 | an example metric byte by byte |
| ProtobufBytes.PayloadBytes | app/engine/sparkplug_pb.c:255-267 | example payloads byte by byte, with and without a sequence number |
| Json.ParseValue | app/cJSON.c:1325-1377 | a parsed value is always shorter than its text: the parser makes progress on every input |
| JsonParser.ParseBuffer.SkipWhitespace | app/cJSON.c:1047-1070 | skipping moves the offset as `Skip` says, stopping on the last byte |
| JsonParser.ParseBuffer.ReadString | app/cJSON.c:781-908 | finding the closing quote and unescaping, in two passes over the buffer, compute `ParseString` |
| JsonParser.EncodeUtf8 | app/cJSON.c:755-772 | the loop over continuation bytes yields the UTF-8 encoding of the code point |
| JsonText.Utf8Reads | app/cJSON.c:723-772 | a decoder written from the bit patterns of UTF-8 reads every code point back from its encoding, which is the shortest, whatever follows |
| JsonParser.ParseBuffer.ReadArray | app/cJSON.c:1454-1549 | the array loop over offset and depth computes `ParseArray`, restores the depth, and fails where it fails |
| JsonParser.ParseBuffer.ReadObject | app/cJSON.c:1614-1729 | the object loop likewise, keys included |
| JsonParser.ParseBuffer.ParseAll | app/cJSON.c:1104-1181 | the whole parser over its buffer computes `ParseContent`, byte order mark and trailing text included |
| JsonPrinter.PrintBuffer.Ensure | app/cJSON.c:459-530 | room is made without touching the text so far |
| JsonPrinter.PrintBuffer.UpdateOffset | app/cJSON.c:533-543 | measuring the C string behind the offset moves it to the end of what was written |
| JsonPrinter.PrintBuffer.PrintStringPtr | app/cJSON.c:911-1030 | the length measured first is exact: the quoted, escaped string ends where the closing quote was placed |
| JsonPrinter.PrintBuffer.PrintAll | app/cJSON.c:1196-1261 | the printer over its growing buffer writes exactly `Print`, formatted or not, at every depth |
| JsonReading.StringReads | app/cJSON.c:660-908 | any string literal, with bytes as they are, two-character escapes, and \uXXXX in either case of digits, in surrogate pairs above 0xFFFF, is read as the UTF-8 bytes it denotes, up to a NUL |
| JsonReading.LoneSurrogateRefused | app/cJSON.c:679-722 | a surrogate that is not part of a pair makes the literal fail |
| JsonReading.LongNumberIsCut | app/cJSON.c:307-374 | of an integer of more than 63 bytes the first 63 are read as the number and the rest is left |
| JsonReading.EveryTextIsRead | app/cJSON.c:1104-1729 | every text of the grammar of RFC 8259 whose numbers have at most 63 bytes, with any blank space and with or without a byte order mark, is read as the tree it denotes if that nests at most 1000 deep, and refused otherwise |
| JsonReading.TrailingTextRefused | app/cJSON.c:1134-1143 | anything visible behind the value makes a parse fail that asks for the end |
| JsonRoundTrip.NumberBack | app/cJSON.c:309-374 | every int-range integer is read back from its decimal text, whatever ends it |
| JsonRoundTrip.StringBack | app/cJSON.c:781-1030 | every NUL-free byte string is read back from its escaped, quoted text |
| JsonRoundTrip.PrintedIsText | app/cJSON.c:1380-1843 | what is printed, formatted or not, is a text of that grammar and denotes the tree |
| JsonRoundTrip.ObjectPrintedOnLines | app/cJSON.c:1732-1843 | an example of the formatted layout byte by byte |
| JsonRoundTrip.RoundTrip | app/cJSON.c:1325-1843 | parsing the printed form gives back the same ordered tree if and only if it nests no deeper than 1000, and fails otherwise; for both forms of printing, with and without the trailing-text check |
| JsonRoundTrip.TooDeepIsNotReadBack | app/cJSON.c:1459-1462 | the tree of arrays nested 1000 deep comes back and the one nested 1001 deep does not |
| JsonList.Append | app/cJSON.c:1974-2005 | null and self are refused; otherwise the result is a list with the item last, head's prev included, if and only if the item was not in it and, behind a list that is not empty, its next was null |
| JsonList.Detach | app/cJSON.c:2205-2239 | the list loses exactly the k-th item, first, middle, last or only; the item points nowhere |
| JsonList.Insert | app/cJSON.c:2281-2313 | negative indices and null are refused; before the item at the index the result is a list with the new one in place if and only if it was not in it already, and past the end it is appended on the same condition as by Append |
| JsonList.Replace | app/cJSON.c:2315-2362 | the k-th item gives its place to the replacement, in every position, and points nowhere |
| JsonList.GetItem | app/cJSON.c:1869-1886 | walking next finds the item at the index, or none |
| JsonList.ClosesGap | app/cJSON.c:2205-2239 | bypassing links around one position make a well-formed list of the others |
| JsonList.OpensGap | app/cJSON.c:2301-2312 | links to and from a new item make a well-formed list with it in place |
| JsonList.TakesPlace | app/cJSON.c:2327-2355 | links to and from a replacement make a well-formed list with it in the old one's place |
| JsonCopy.Duplicate | app/cJSON.c:2729-2810 | a deep copy is well formed at every level, equal in value, made of new items only, no item twice; the original is untouched |
| JsonCopy.CopiedMore | app/cJSON.c:2772-2795 | linking one more copied child behind the row keeps all copies proper |
| MqttWire.PacketBuffer.Append | app/engine/mqtt_client.c:135-147 | appending keeps the bytes so far, and fails for good when the 1 MB limit would be passed |
| MqttWire.EncodeRemainingLength | app/engine/mqtt_client.c:181-190 | the do-while loop writes the groups of the length, at most four |
| MqttWire.Connection.ReceiveLoop | app/engine/mqtt_client.c:859-903 | the receive loop over a byte stream handles or drains the packets `Events` lists, and stops where the stream ends or is malformed |
| MqttWire.Connection.Drain | app/engine/mqtt_client.c:879-890 | an oversized body is taken to its last byte in buffer-sized chunks |
| MqttWire.StreamSplitsBack | app/engine/mqtt_client.c:859-903 | any concatenation of packets is split back into the same packets, oversized ones drained in full, and what follows is read from its start |
| MqttWire.BuildPublish | app/engine/mqtt_client.c:1066-1089 | a PUBLISH is built as its frame, or not at all when it passes the limit |
| MqttWire.HandlePublish | app/engine/mqtt_client.c:647-680 | the handler computes `ReadPublish`, malformed packets included |
| MqttWire.PublishReadBack | app/engine/mqtt_client.c:647-680 | a PUBLISH is read back with its topic, packet id and payload if and only if the topic has at most 65535 bytes |
| MqttWire.LongTopicArrivesEmpty | app/engine/mqtt_client.c:647-680 | a topic of 65536 bytes arrives empty, its bytes in front of the payload |
| MqttWire.PublishTravels | app/engine/mqtt_client.c:859-901 | a sent PUBLISH whose body fits the 4096 bytes of the receive buffer arrives framed and is read back whole; a larger one is drained |
| MqttWire.LengthsOnTheWire | app/engine/mqtt_client.c:181-190 | remaining lengths byte by byte, as in section 2.2.3 of MQTT 3.1.1, at both ends of each size |
| MqttWire.PublishOnTheWire | app/engine/mqtt_client.c:1066-1089 | an example PUBLISH byte by byte |
| MqttInflight.Inflight.AllocateId | app/engine/mqtt_client.c:1073-1077 | an id is handed out and the counter wraps past 0 |
| MqttInflight.Inflight.Add | app/engine/mqtt_client.c:551-577 | the first free of 64 slots keeps the packet; none free leaves it untracked |
| MqttInflight.Inflight.Acknowledge | app/engine/mqtt_client.c:585-590 | the first slot with the id is released |
| MqttInflight.Inflight.RetransmitDue | app/engine/mqtt_client.c:602-625 | one pass over the table resends or gives up each due slot, up to a failing send |
| MqttInflight.Inflight.PublishQos1 | app/engine/mqtt_client.c:1066-1100 | an id is taken, the packet built and sent, and tracked when the send succeeds; a packet over the limit or a failed send uses up the id only |
| MqttInflight.Inflight.ClearAll | app/engine/mqtt_client.c:592-599 | every used slot is released |
| MqttInflight.IdsDistinct | app/engine/mqtt_client.c:478-481 | ids are 16-bit, never 0, and two allocations share one exactly when they are a multiple of 65535 apart |
| MqttInflight.RetryKeeps | app/engine/mqtt_client.c:602-625 | a resend or a give-up keeps counter, distinctness and the record of what was sent |
| MqttInflight.RunKeeps | app/engine/mqtt_client.c:551-625 | the tracking invariant holds after every run of publishes, acknowledgements, resends and clears |
| MqttInflight.EveryPublishSentProperly | app/engine/mqtt_client.c:551-625 | over every run each publish goes out at most four times, first with DUP clear, then only as the same bytes with DUP set; the counter equals the used slots and is at most 64 |
| MqttInflight.PublishGoesOutOnce | app/engine/mqtt_client.c:1073-1097 | a publish whose send succeeds has gone out exactly once, as the frame of its topic and payload under its own identifier |
| MqttResends.PublishIsTracked | app/engine/mqtt_client.c:551-577 | a publish that goes out is kept in a slot that was free, as sent now and not resent yet, if and only if fewer than 64 are tracked; the other slots stay as they are |
| MqttResends.PassResendsExactly | app/engine/mqtt_client.c:602-625 | a pass resends exactly the publishes that have waited five seconds, with DUP set and the time anew, gives up those resent three times, stops at the first send that fails, and leaves all others alone |
| MqttResends.PassSendsExactly | app/engine/mqtt_client.c:602-625 | what a pass puts on the wire is exactly one copy of each of these, in table order |
| MqttResends.ClearForgetsAll | app/engine/mqtt_client.c:592-599 | a clear forgets every tracked publish and sends nothing |
| MqttInflight.AckReleasesExactly | app/engine/mqtt_client.c:585-590 | an acknowledgement releases exactly its publish if and only if no earlier slot was filled a multiple of 65535 allocations away |
| MqttInflight.RecentAcksAreExact | app/engine/mqtt_client.c:585-590 | so it always does while no tracked publish is older than 65535 allocations |
| MqttInflight.AckReleasesAnother | app/engine/mqtt_client.c:585-590 | on a run of a publish, 65534 other allocations and a publish, the acknowledgement of the second publish releases the first and leaves the second tracked |
| MqttSubscriptions.Subscriptions.SubscribeTo | app/engine/mqtt_client.c:1108-1134 | an owner is added in place, a new filter sent to a connected broker, a full table refused |
| MqttSubscriptions.Subscriptions.UnsubscribeFrom | app/engine/mqtt_client.c:1136-1160 | an owner is released in place; with the last one the filter is dropped by moving the last entry, and the broker told |
| MqttSubscriptions.Subscriptions.SubscribeAll | app/engine/mqtt_client.c:710-719 | a clean session is given every filter of the table |
| MqttSubscriptions.TableRefinesOwners | app/engine/mqtt_client.c:1108-1160 | after every run the table holds exactly the owned filters, each once with its number of owners, and a connected broker has subscribed exactly these |
| MqttOwners.TableIsOwners | app/engine/mqtt_client.c:1108-1160 | the owners are those the requests alone tell: a subscribe counts if and only if its filter is owned or fewer than 32 filters are; table and broker hold exactly these |
| MqttSubscriptions.ReleaseUndoesSubscribe | app/engine/mqtt_client.c:1123-1149 | a release undoes a subscribe if and only if the filter has at most 255 bytes; a longer one is not released under its own name |
| MqttSubscriptions.CutNameReleases | app/engine/mqtt_client.c:1123-1149 | a longer filter goes when its first 255 bytes are released, if those were not subscribed to already |
| MqttSubscriptions.LongFilterIsLeft | app/engine/mqtt_client.c:1123-1149 | a filter of 256 bytes that is subscribed to and released once leaves its cut name in the table |
| RateGate.Rule.OnTriggerFired | app/engine/rule_engine.c:176-274 | the gate in place: correlation, cooldown, limits and conditions decide and change the record as `Fire` says |
| RateGate.TriggerKeeps | app/engine/rule_engine.c:187-274 | every event keeps the counters, stamps and spacing consistent with the executions so far |
| RateGate.CooldownAndLifetime | app/engine/rule_engine.c:217-251 | over every run executions are at least the cooldown apart and never exceed the lifetime limit |
| RateGate.PeriodLimits | app/engine/rule_engine.c:227-243 | with a period: at most the limit in each counting period, and at most twice the limit in every window of one period's length |
| RateGate.CorrelatedExecution | app/engine/rule_engine.c:187-206 | a rule that needs all its triggers executes only if each was noted since the last execution, within the window if there is one |
| RateDecision.ExecutesExactly | app/engine/rule_engine.c:176-274 | over every run an event executes the rule, once, if and only if the rule is enabled, its conditions pass, its triggers have come together since the last execution and within the window, the last execution is a cooldown ago, and fewer than the limit executions lie in its lifetime or in the counting period of the last one, unless that hour, day or minute is over |
| RateDecision.PeriodsBeginAtEvents | app/engine/rule_engine.c:227-243 | every execution falls in a counting period that began when the limit of some event was looked at, not after the execution |
| ModbusCrc.Crc16 | app/engine/modbus_pool.c:70-78 | the nested loops compute the fold of the byte step, which `CrcIsRemainder` says what it is |
| CrcDivision.CrcIsRemainder | app/engine/modbus_pool.c:70-78 | the CRC of any message is the remainder of the message as a polynomial over two elements, low bit of each byte first and the first sixteen inverted, on division by x^16 + x^15 + x^2 + 1 |
| CrcDivision.DividesWithRemainder | app/engine/modbus_pool.c:70-78 | that division is one: quotient times generator plus remainder gives the dividend, and the remainder has sixteen coefficients |
| CrcDivision.KnownFrame | app/engine/modbus_pool.c:189-196 | the read request 01 03 00 00 00 01 goes out with the CRC 84 0a |
| ModbusCrc.StepReversible | app/engine/modbus_pool.c:70-78 | the state after a byte determines the state before it, given the byte, and the byte, given the state |
| ModbusCrc.AcceptsIsZero | app/engine/modbus_pool.c:219-222 | the receiver's check passes if and only if the CRC over the complete frame is 0 |
| ModbusCrc.BuildFrame | app/engine/modbus_pool.c:189-196 | the sending half of both requests frames address and data with their CRC, low byte first |
| ModbusCrc.FramedIsAccepted | app/engine/modbus_pool.c:192-195 | the CRC of a frame followed by its own CRC is 0 at any length, so what is sent is accepted |
| ModbusCrc.OneByteChangeDetected | app/engine/modbus_pool.c:219-222 | changing any single byte of a complete frame always fails the check |
| ModbusCrc.TwoByteChangeDetected | app/engine/modbus_pool.c:219-222 | so does changing two neighbouring bytes in any way |
| ModbusCrc.GatherAnyPieces | app/engine/modbus_pool.c:199-218 | a complete response is gathered whole in however many pieces it arrives |
| ModbusCrc.ReceiveResponse | app/engine/modbus_pool.c:199-225 | the read loop and the checks in order give the outcome `Checked` describes |
| ModbusCrc.ReplyComesThrough | app/engine/modbus_pool.c:236-266 | a framed reply comes through both requests' receiving half with its PDU |
| ModbusReplies.RepliesComeThrough | app/engine/modbus_pool.c:199-226 | the reply to a read, the echo of a write and an exception come through in however many pieces, exactly from the slave that was asked |
| ModbusReplies.SilenceTimesOut | app/engine/modbus_pool.c:218-218 | fewer than four bytes in all are a timeout |
| ModbusCrc.DamagedReplyRefused | app/engine/modbus_pool.c:199-226 | a reply with one byte changed, other than function code and byte count, is refused in however many pieces it arrives |
| ModbusCrc.DamagedReplyPassesExactly | app/engine/modbus_pool.c:199-226 | with any byte changed there are pieces in which it passes if and only if a front of it, at least as long as its damaged header says, is itself an accepted frame from the same address |
| ModbusCrc.DamagedReplyOutcome | app/engine/modbus_pool.c:199-226 | in given pieces it passes if and only if reading stops at such a front |
| ModbusCrc.DamagedCountPasses | app/engine/modbus_pool.c:199-226 | a reply whose byte count arrives changed and which passes |
| ModbusCrc.DamagedFunctionPasses | app/engine/modbus_pool.c:199-226 | a reply whose function code arrives changed and which passes |
| ModbusCrc.RefusedExactlyOffTheHeader | app/engine/modbus_pool.c:199-226 | damage to byte k is refused for every reply, changed byte and splitting if and only if k is neither the function code nor the byte count |

## Left out

- Reconfiguration of Sparkplug during a session and the disabled node: the configuration is fixed over a run.
- `SPB_Metric_Set_Value` and the text form of floats: a Sparkplug value in the session model is its text, a float or double on the wire is its raw bits.
- Ids so long that the will's topic is cut to 255 bytes.
- Command payloads, their deduplication and topic matching: a rebirth command and a host state arrive parsed.
- A worker that reconnects while `Sparkplug_Cleanup` runs.
- Wills delivered after the next NBIRTH: the guarantees about the problems list are stated for runs without one.
- When a flash reaches its deadline: one input tells the worker that its limit was reached or its rule disabled. Durations are not modelled.
- Generation numbers that wrap: the flash guarantees hold for runs with fewer than 2^32 starts.
- FlashSafety.LiveFlashesShareNoPort: starts are serialised, because a start that waits with the lock released does not look again at the slots behind it.
- `while_active` restores together with timed outputs, and device requests that are refused.
- TimedOutputRuns.Outputs.TimedOutput: with all 32 entries taken it states what is claimed and switched; the timer of the restore that is then scheduled outside the table is not modelled, and runs leave such an action out.
- TimedOutputRuns.PortsComeBack: a camera finishes its own sequence before the engine's timer for it fires, and a plain setting does not fall between the two; each action is one step.
- Parsing of the ports of an output or flash action: requests come as distinct ports.
- Buffer lengths over 2^31 in the protobuf encoder, and the size of the block `parse_string` allocates.
- JSON numbers with a fraction or exponent are kept as their text; printing and reading their values is not modelled. Raw items, references, comments and `cJSON_Minify` are left out, as is printing over 2 GB.
- CONNECT, SUBSCRIBE and ping packets are framed like any packet; their contents are not modelled. A topic filter is sent whole while the table keeps its first 255 bytes.
- An acknowledgement that arrives before its publish is entered in the table.
- Partial sends: a send either puts the packet on the wire or fails.
- The condition evaluation, pending re-fire and manual firing of rules: conditions and active triggers are inputs, and only the trigger path counts.
- Modbus over TCP, request contents and the 256-byte limit of outgoing frames.
- Sockets, TLS, proxies, files, allocation failure, logging and the user interface.
