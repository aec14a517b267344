# Arachnopod bus exchange stack: a verified model

One master (CS) and any set of devices share a byte bus with one tick of latency. This project models the
whole stack that carries a command from CS to a device and a parameter back, and proves what it guarantees:

- the frame-level exchange machine of a party (`BusExchange`, and as an object updated in place `BusUnit`),
  alone on arbitrary byte streams (`ArbitraryStreams`, `StreamResults`, `SoftwareStreams`, `SilentEnds`) and
  closed with the bus and the other parties (`MockBus`, `Lockstep`, `ClosedSystem`, `Transactions`);
- the CS task scheduler (`Scheduler`, in place `TaskTable`), its invariant, the life of a task, fairness, changes
  of class and periodic tasks (`SchedulerInvariant`, `TaskLife`, `SchedulerFairness`, `Reclassing`,
  `PeriodicTasks`, `FlightKept`), and the liveness of the closed system (`Liveness`, `ServedInTime`);
- the command windows of CS (`CommandWindows`, `StagedCommands`, in place `CommandStore`), the scheduler as the
  source of their events (`FlightEvents`), and arming and finalising exchanges (`CsExchange`, in place `CsUnit`);
- the operating-mode controller, what operators and results make of it, and runs from reset (`OperatingMode`,
  `OperatorControls`, `OperatorRuns`, `DoubledTasks`, `Starvation`, in place `ModeController`, `NodeSteps`);
- the wire codec and the setting and getting of values by identifier (`Codec`, `Rounding`, `Params`), over bit
  fields in 16-bit blocks (`Bits`, `MsgBlock`), headers (`MsgHeader`) and the tables with their merge (`CommTable`);
- the layout generator (`Generator`, `GeneratedLayout`), and the command table and nodes of the repository as an
  instance (`PssTable`, `CommandTable`);
- the whole path in both directions (`CommandPath`, `ParamPath`), and bus, scheduler and windows run together
  (`JointRun`, `JointDelivery`, `JointProgress`), arming as the program does it (`ProgramRun`), with the system as
  it is bound as an instance (`ShippedSystem`).

The pattern is the same throughout. A value datatype and functions over it say what a step does. Where the
program changes objects or arrays in place, a class or a method does so too and its postcondition equates the
new state with the function of the old one. The theorems are lemmas about the functions, so they hold of the
in-place code. A run of the closed system alternates what the software may do in a tick (any update of the
arrays it owns, any scheduler call) with one step of every party and of the bus; theorems about runs are for
every such run. Real arithmetic stands for `float` and `double`.

## What the proofs found

- Values staged in a node's command window while an exchange with that node is in flight are dropped when it
  ends: finalising clears the window again. software/docs/DATA_EXCHANGE_RU.md:723-728 wants commands staged
  after a failed transfer to begin with merged into the buffer, without losing any. The model follows the code.
  `StagedCommands.StagedInFlightSurvivesIff` says exactly when such a value is still sent by the node's next
  exchange (it was in the buffer already, and the exchange in flight is neither delivered nor cancelled);
  `StagedCommands.StagedValueIsLost` is a run that loses one.
- Cancelling everything for one node clears the front of the transport buffer even while another node's command
  is in flight, and so can lose that command. `CommandWindows.PendingRefinesLatest` gives the exact condition
  under which pending windows keep the latest nonzero value, `StagedCommands.CancelLosesAnothersCommand` a run
  in which the retry sends 0 for an undelivered 5. No code of the repository calls that operation at present.
- The same cancellation also changes the request that is being sent. `JointDelivery.FieldIsDelivered` says for
  every field and every such moment what arrives; in the one tick between the two bytes of a block the device is
  left with the low byte of a command that nobody gave (`JointDelivery.OneCancellation`).
- A node can get two periodic tasks: exactly when a bare periodic request finds one there and a free slot
  (`PeriodicTasks.OnceOverRunsIff`; `PeriodicTasks.TwoPeriodicTasks` is the input). The node step cancels only one
  of them, so the other can start in the middle of a cooldown (`DoubledTasks.CooldownIsBypassed`).
- A queued task can starve when its own queue class keeps changing, because each change appends it at the back:
  a node that gets the focus during every exchange of another one, and loses it in the tick after the end, keeps
  its task waiting for ever (`Starvation.TaskStarves`). Each change costs at most 128 pops, and nothing else
  delays a task (`Reclassing.WaitWithSwitches`, `ServedInTime.WaitingIsServed`).
- A busy master can go idle without a result on arbitrary bytes, in exactly two ways
  (`ArbitraryStreams.BusyMasterEnds`), and both happen (`SilentEnds.AlienFrameEndsSilently`,
  `SilentEnds.OwnAnswerEndsSilently`); in the closed system it never does.
- Rows of the systems NONE and CS get no window of their own from the generator and count from block 0, where
  the first window starts too: `GeneratedLayout.AcceptedTableClashes` is an accepted table in which two placed
  fields coincide, `GeneratedLayout.DisjointIffNoneClash` the exact condition under which none overlap.
- The windows of a generated layout fit the exchange exactly if every system's blocks are numbered from 0, which
  the generator does not check (`GeneratedLayout.GeneratedConfigOkIff`).

## Model

| member | source | states |
|---|---|---|
| BusUnits.BusUnit.Exchange | software/sim/sim/systems/sub/src/i_sys_algo.cpp:444-506 | one tick of the exchange in place: new state and byte written are those of the step function the theorems are about, on the byte the bus shows |
| BusUnits.BusUnit.IrxHeader | software/sim/sim/systems/sub/src/i_sys_algo.cpp:524-552 | two header bytes are taken, the second decides address, flag and length, and whether payload or EOF follows |
| BusUnits.BusUnit.IrxData | software/sim/sim/systems/sub/src/i_sys_algo.cpp:554-589 | a payload byte is stored only in an addressed frame, inside the frame window of its kind |
| BusUnits.BusUnit.IrxEof | software/sim/sim/systems/sub/src/i_sys_algo.cpp:591-643 | a wrong EOF ends the frame as invalid; a right one merges, answers, commits or ignores according to address and flag |
| BusUnits.BusUnit.ItxHeader | software/sim/sim/systems/sub/src/i_sys_algo.cpp:655-679 | length and header are made when the first header byte is sent and stand for the frame |
| BusUnits.BusUnit.ItxData | software/sim/sim/systems/sub/src/i_sys_algo.cpp:681-709 | byte k of the payload is read from the buffer in the tick it is sent |
| BusUnits.BusUnit.ItxEof | software/sim/sim/systems/sub/src/i_sys_algo.cpp:711-735 | a device is done after its EOF, a master turns to waiting for the matching answer |
| BusUnits.BusUnit.TakeResult | software/sim/sim/systems/sub/src/i_sys_algo.cpp:333-342 | a result can be taken once |
| BusUnits.BusUnit.ResetToIdle | software/sim/sim/systems/sub/src/i_sys_algo.cpp:210-226 | back to listening with whole frame windows, result kept |
| ArbitraryStreams.CommitDiscipline | software/sim/sim/systems/sub/src/i_sys_algo.cpp:554-643 | on any byte a step changes MSG_CMD or MSG_PRM only at the right EOF of an addressed frame, parameters only inside the frame window, staging buffers only with addressed payload |
| ArbitraryStreams.ParamsChangeOnlyInWindows | software/sim/sim/systems/sub/src/i_sys_algo.cpp:591-643 | over any byte stream a parameter block outside every committed window keeps its value |
| ArbitraryStreams.OnlyWholeFramesCommit | software/sim/sim/systems/sub/src/i_sys_algo.cpp:512-643 | over any byte stream what is merged or committed is exactly the payload of a whole frame for this address that the stream ends with |
| ArbitraryStreams.BusyMasterEnds | software/sim/sim/systems/sub/src/i_sys_algo.cpp:462-643 | over any byte stream a busy master is free again within its rank, without a result exactly at the EOF of a frame for someone else or after answering a request |
| ArbitraryStreams.RankIsLinear | software/sim/sim/systems/sub/src/i_sys_algo.cpp:462-488 | that bound is linear in the frame length: 868 ticks for 31 blocks |
| StreamResults.ResultTells | software/sim/sim/systems/sub/src/i_sys_algo.cpp:462-643 | over any byte stream: a waiting master times out in the eleventh tick in a row without a byte of a frame and never before; after a whole frame body a wrong EOF is invalid, and EOF makes a party answer a request to it, makes a master succeed with any other frame for it, and means nothing in a frame for others |
| StreamResults.DeviceBusyInFrames | software/sim/sim/systems/sub/src/i_sys_algo.cpp:508-735 | over any byte stream a device is busy exactly from the SOF of a frame to its end, the answer included, and otherwise as after reset |
| StreamResults.NamelessKeepsCommands | software/sim/sim/systems/sub/src/i_sys_algo.cpp:603-612 | a party without a system merges no commands, whatever it hears |
| SoftwareStreams.WholeFramesDespiteSoftware | software/sim/sim/systems/sub/src/i_sys_algo.cpp:512-643 | whatever the party's software writes between the bytes, something is committed only at the end of a whole frame, and that is its payload if the software has kept off the buffer being collected in |
| SoftwareStreams.SoftwareKeepsControl | software/sim/sim/systems/sub/src/i_sys_algo.cpp:444-735 | whatever its software writes, a party is in the same control state as on the bare stream |
| SoftwareStreams.DeviceMergesPayload | software/sim/sim/systems/sub/src/i_sys_algo.cpp:591-612 | what a device merges is the payload of a whole command frame for it, its algorithms running in every tick |
| SoftwareStreams.MasterCommitsPayload | software/sim/sim/systems/sub/src/i_sys_algo.cpp:628-643 | what a busy master commits is the payload of a whole response frame for it, its algorithms running in every tick |
| SoftwareStreams.MasterEndsDespiteSoftware | software/sim/sim/systems/sub/src/i_sys_algo.cpp:462-643 | a busy master ends as on a bare stream, whatever its software writes |
| SilentEnds.AlienFrameEndsSilently | software/sim/sim/systems/sub/src/i_sys_algo.cpp:591-601 | from any master freshly armed for data: a whole frame for another address leaves it idle without a result |
| SilentEnds.OwnAnswerEndsSilently | software/sim/sim/systems/sub/src/i_sys_algo.cpp:603-643 | from any master freshly armed for data: a request addressed to itself, then its own answer, leave it idle without a result |
| MockBus.OneTickLatency | software/sim/sim/systems/bus_mock/src/mock_bus.cpp:22-56 | a read returns the last byte written in the tick before, and none of the writes of its own tick |
| MockBus.Bus.Tick | software/sim/sim/systems/bus_mock/src/mock_bus.cpp:22-35 | the pending byte becomes visible exactly for the tick after it was written |
| Lockstep.ListenStep | software/sim/sim/systems/sub/src/i_sys_algo.cpp:512-589 | a listener that is one byte behind stays one byte behind, addressed or not, whatever the byte |
| ClosedSystem.PhaseStep | software/sim/sim/systems/sub/src/i_sys_algo.cpp:444-735 | every tick moves the joint state of master and devices along request, turnaround, response or waiting, whatever the software does meanwhile |
| Transactions.RunsExist | software/sim/sim/sim_operator.cpp:33-36 | from every quiet state, after anything the software may do first, runs of every length exist |
| Transactions.ReachableInStep | software/sim/sim/systems/sub/src/i_sys_algo.cpp:512-735 | in every reachable state at most one party sends, all others are exactly one byte behind it, and no payload byte is met where a frame boundary is expected |
| Transactions.OrderDoesNotMatter | software/sim/sim/sim_operator.cpp:33-36 | every order in which the parties step within a tick gives the same joint state and the same bus |
| Transactions.ExchangeTiming | software/sim/sim/systems/sub/src/i_sys_algo.cpp:462-735 | armed in tick t0 for a present device with N payload blocks in all, the master is busy until, and idle with success after, tick t0 + 2N + 9, for every payload |
| Transactions.CommandDelivered | software/sim/sim/systems/sub/src/i_sys_algo.cpp:554-612 | what the device merges holds byte for byte what the master had in its buffer in the tick each byte was sent |
| Transactions.DataDelivered | software/sim/sim/systems/sub/src/i_sys_algo.cpp:628-709 | byte j committed in the window is byte j of the device buffer in tick t0 + 8 + 2 n1 + j; blocks outside the window stand |
| Transactions.StableBufferIsSnapshot | software/sim/sim/systems/pss/src/pss_support.cpp:310-313 | a response is a snapshot of the buffer if that is not refreshed while it is sent |
| Transactions.AbsentDeviceTimesOut | software/sim/sim/systems/sub/src/i_sys_algo.cpp:462-488 | with nobody at the address the master times out on its 11th receive tick |
| MsgBlock.ReadIsSlice | software/sim/sim/systems/sub/src/i_msg_block.cpp:138-173 | reading by cases is reading the bit slice and fails exactly when the field does not fit |
| MsgBlock.WriteIsSplice | software/sim/sim/systems/sub/src/i_msg_block.cpp:175-215 | writing by cases is replacing the bit slice and fails exactly when the field does not fit |
| MsgBlock.GetOfPut | software/sim/sim/systems/sub/src/i_msg_block.cpp:121-215 | a written field reads back and a field apart from it is undisturbed |
| MsgBlock.ReadOfWriteByte | software/sim/sim/systems/sub/src/i_msg_block.cpp:217-250 | byte access to blocks: a written byte reads back and changes no other |
| MsgBlock.CopyBlocksInPlace | software/sim/sim/systems/sub/src/i_msg_block.cpp:252-273 | the clipped block copy in place |
| MsgBlock.WriteValueInPlace | software/sim/sim/systems/sub/src/i_msg_block.cpp:175-215 | the field write in place, with its failure |
| CommTable.OverlayInPlace | software/sim/sim/systems/sub/src/i_sys_algo.cpp:140-177 | the merge loop in place |
| CommTable.OverlayField | software/sim/sim/systems/sub/src/i_sys_algo.cpp:140-177 | the merge is a fieldwise overlay: a nonzero source field is taken, any other field of the system is kept |
| CommTable.OverlayOrder | software/sim/sim/systems/sub/src/i_sys_algo.cpp:140-177 | the merge does not depend on the order or repetition of the rows |
| CommTable.OverlayIdempotent | software/sim/sim/systems/sub/src/i_sys_algo.cpp:140-177 | merging the same source again changes nothing |
| CommTable.OverlayOutside | software/sim/sim/systems/sub/src/i_sys_algo.cpp:140-177 | bits outside every field of the system survive the merge |
| MsgHeader.ParseOfMake | software/sim/sim/systems/sub/src/i_msg_header.cpp:32-65 | a header that was made parses to its fields, narrowed to their widths |
| MsgHeader.MakeOfParse | software/sim/sim/systems/sub/src/i_msg_header.cpp:32-65 | a header that parses is the one made of the parsed fields |
| MsgHeader.SingleBitErrorDetected | software/sim/sim/systems/sub/src/i_msg_header.cpp:25-65 | flipping any one bit of a header that parses gives one that does not |
| Codec.PrepareRawValue | software/sim/sim/systems/sub/src/i_par.cpp:115-198 | the candidate loop picks a code that no code of the whole wire range beats |
| Codec.CodeIffAccepted | software/sim/sim/systems/sub/src/i_par.cpp:143-198 | a code is produced exactly for the accepted inputs, with the right refusal otherwise |
| Codec.CodeIsOptimal | software/sim/sim/systems/sub/src/i_par.cpp:69-198 | the code minimises the decode error over the entire wire range, for every algorithm |
| Codec.HalfStepError | software/sim/sim/systems/sub/src/i_par.cpp:143-198 | unless the input saturates, an affine code is at most half a step off |
| Codec.DecodeEncodeDecode | software/sim/sim/systems/sub/src/i_par.cpp:95-198 | decoding, encoding and decoding again is decoding, for every code of every algorithm |
| Codec.EncodeDecoded | software/sim/sim/systems/sub/src/i_par.cpp:95-198 | for AN, AC and ABC encoding a decoded code returns the code |
| Codec.EncodeDecodedSquare | software/sim/sim/systems/sub/src/i_par.cpp:143-198 | for AAC it returns the code up to sign, and the most negative signed code itself |
| Codec.PositiveRootMissesMinimum | software/sim/sim/systems/sub/src/i_par.cpp:165-182 | no candidate of the positive root reaches a negative code |
| Codec.BitsRoundTrip | software/sim/sim/systems/sub/src/i_par.cpp:51-67 | decoding the encoded bits of a code in range returns the code |
| Codec.PatternRoundTrip | software/sim/sim/systems/sub/src/i_par.cpp:202-214 | encoding the decoded code of a bit pattern returns the pattern |
| Rounding.AffineRounds | software/sim/sim/systems/sub/src/i_par.cpp:115-198 | the candidate search of the affine algorithms is rounding to the nearest code, halves away from zero, with saturation |
| Rounding.SquareRounds | software/sim/sim/systems/sub/src/i_par.cpp:115-198 | the square algorithm takes the greatest best code if that is not negative, and a negative one only if every other is worse |
| Params.SetValueInPlace | software/sim/sim/systems/sub/src/i_par.cpp:403-431 | setting a value by identifier in place, with every status |
| Params.SetStores | software/sim/sim/systems/sub/src/i_par.cpp:322-431 | CS setting a command succeeds exactly if field and value are acceptable, stores the optimal pattern, and disturbs no field apart |
| Params.SetRefusals | software/sim/sim/systems/sub/src/i_par.cpp:216-366 | every status of a set: the first that holds of unknown, wrong direction, other system, no buffer, no type, bad layout, no algorithm, value out of range; a refusal changes nothing |
| Params.GetRefusals | software/sim/sim/systems/sub/src/i_par.cpp:216-395 | every status of a get, in the same order, with the value 0 on a refusal |
| Params.GetReads | software/sim/sim/systems/sub/src/i_par.cpp:272-395 | a device that finds the pattern of x reads the quantised x |
| Params.DeviceStores | software/sim/sim/systems/sub/src/i_par.cpp:322-431 | a device setting a parameter of its system stores the optimal pattern |
| Params.CsReads | software/sim/sim/systems/sub/src/i_par.cpp:272-395 | CS, finding the pattern of x for a parameter, reads the quantised x |
| Generator.ValidateBlockLayout | software/scripts/bd_parser.py:166-192 | accepts exactly the tables in which every row has a known width and a supported offset |
| Generator.MeasureSystem | software/scripts/bd_parser.py:807-824 | block count and bit intervals of a system, relative to its least block |
| Generator.CheckOverlaps | software/scripts/bd_parser.py:827-841 | sorting and scanning neighbours accepts a validated table exactly if within every system every two fields are disjoint |
| Generator.MarkOccupied | software/scripts/bd_parser.py:857-860 | marks exactly the bits some field covers |
| Generator.ComputeCsMaps | software/scripts/bd_parser.py:882-891 | the prefix-sum bases, skipping NONE and CS |
| Generator.BasesAreOk | software/scripts/bd_parser.py:882-891 | windows start on a block, lie inside the total and are pairwise disjoint |
| Generator.AssignCsOffsets | software/scripts/bd_parser.py:894-912 | the two passes over the rows, in place |
| GeneratedLayout.PlacementApart | software/scripts/bd_parser.py:882-912 | after placement all fields of all systems but NONE and CS are pairwise disjoint inside the total |
| GeneratedLayout.PlacementKeepsBits | software/scripts/bd_parser.py:894-912 | each field keeps its bit offset in its block, and its CS block is its own block after its system base |
| GeneratedLayout.UnmappedStartsAtZero | software/scripts/bd_parser.py:894-912 | rows of systems without a window count from block 0, and only those lack a base |
| GeneratedLayout.DisjointIffNoneClash | software/scripts/bd_parser.py:882-912 | all placed fields of an accepted table are pairwise disjoint exactly if no row without a window meets the shifted span of a row of another system |
| GeneratedLayout.AcceptedTableClashes | software/scripts/bd_parser.py:827-912 | an accepted table whose CS row and first mapped row are placed on the same bits |
| GeneratedLayout.GeneratedConfigOkIff | software/scripts/bd_parser.py:807-912 | an emitted layout gives the disjointness the command windows and the merges need exactly if every least block is 0 |
| PssTable.PssConfigOk | software/sim/sim/systems/base/command_tab.hpp:35-58 | the PSS rows are such a layout |
| CommandTable.ShippedConfigOk | software/sim/sim/systems/base/command_tab.hpp:35-87 | the whole command table with the five nodes is such a layout |
| CommandTable.BaseIsLeast | software/sim/sim/systems/cs/src/cs_scheduler_support.cpp:108-149 | the base of each node is the least block its commands have in CS |
| TaskTables.RemoveSlotFromQueue | software/sim/sim/systems/cs/src/cs_scheduler_support.cpp:162-169 | removes the first occurrence |
| TaskTables.TaskTable.PopNextTaskSlot | software/sim/sim/systems/cs/src/cs_scheduler_support.cpp:206-251 | the pop with its burst rule, skipping stale entries, in place |
| TaskTables.TaskTable.AddNewTask | software/sim/sim/systems/cs/src/cs_scheduler_support.cpp:257-292 | a task goes into the first free slot and its queue; a full table refuses |
| TaskTables.TaskTable.UpdateTaskQueueClass | software/sim/sim/systems/cs/src/cs_scheduler_support.cpp:340-358 | moves a waiting task to the other queue; one in flight only changes class |
| TaskTables.TaskTable.RemoveNodeTasks | software/sim/sim/systems/cs/src/cs_scheduler_support.cpp:294-314 | the removal loop over the slots |
| TaskTables.TaskTable.FinalizeActiveTask | software/sim/sim/systems/cs/src/cs_scheduler_support.cpp:463-512 | the active task is completed once its result is there, requeued if periodic and still enabled |
| TaskTables.TaskTable.ExchangeControlStep | software/sim/sim/systems/cs/src/cs_scheduler.cpp:144-175 | finalise, or else activate the next task if none is in flight |
| TaskTables.TaskTable.EnsurePeriodicExchange | software/sim/sim/systems/cs/src/cs_scheduler.cpp:38-53 | an existing periodic task is enabled and reclassed, otherwise one is added |
| TaskTables.TaskTable.EnqueueExchangeTask | software/sim/sim/systems/cs/src/cs_scheduler.cpp:27-36 | a data task for a node, refused for anything else |
| TaskTables.TaskTable.EnqueueCommandTask | software/sim/sim/systems/cs/src/cs_scheduler.cpp:55-78 | a command task, refused if the command is not the node's |
| TaskTables.TaskTable.AddStagedCommandTask | software/sim/sim/systems/cs/src/cs_scheduler_support.cpp:290-292 | a task that sends what is staged |
| TaskTables.TaskTable.TryPopCompletion | software/sim/sim/systems/cs/src/cs_scheduler.cpp:134-142 | completions are taken in order |
| TaskTables.TaskTable.CancelTaskById | software/sim/sim/systems/cs/src/cs_scheduler.cpp:103-119 | a task in flight is disabled, any other removed |
| TaskLife.CommandEnqueued | software/sim/sim/systems/cs/src/cs_scheduler.cpp:55-78 | an accepted command becomes a used and enabled task of its node, last in its queue, with the identifier and value it was given; everything else stands, and a refusal changes nothing |
| TaskLife.StagedEnqueued | software/sim/sim/systems/cs/src/cs_scheduler_support.cpp:290-292 | the same for a task that sends what is staged |
| TaskLife.ExchangeEnqueued | software/sim/sim/systems/cs/src/cs_scheduler.cpp:27-36 | the same for a data exchange |
| TaskLife.ApplyOnlyNew | software/sim/sim/systems/cs/src/cs_scheduler.cpp:27-175 | no operation rewrites what a task is to do |
| TaskLife.SameIdSameJob | software/sim/sim/systems/cs/src/cs_scheduler_support.cpp:257-288 | so whatever operations follow, the task with a given identifier is in its slot with the command and value it was enqueued with |
| TaskLife.TaskFinalized | software/sim/sim/systems/cs/src/cs_scheduler_support.cpp:463-512 | with its result, whatever that is, a task is completed; a periodic one still enabled waits again, last in its queue, any other leaves its slot empty |
| TaskLife.NotFinalized | software/sim/sim/systems/cs/src/cs_scheduler_support.cpp:463-486 | without a result, or before it is armed, nothing happens to the active task |
| TaskLife.TaskCancelled | software/sim/sim/systems/cs/src/cs_scheduler.cpp:103-119 | cancelling by identifier finds the task: in flight it is disabled, otherwise its slot is emptied and it leaves its queue |
| TaskLife.NobodyCancelled | software/sim/sim/systems/cs/src/cs_scheduler.cpp:103-107 | an identifier nobody has cancels nothing |
| TaskLife.PeriodicCancelled | software/sim/sim/systems/cs/src/cs_scheduler.cpp:80-101 | cancelling the periodic exchange of a node cancels its first periodic task and no other, and without one nothing |
| TaskLife.EnsuredAgain | software/sim/sim/systems/cs/src/cs_scheduler.cpp:38-50 | ensuring a periodic exchange that is there enables it and gives it the class, behind all others of that class if it waited in the other one, and changes nothing else |
| TaskLife.TargetCancelled | software/sim/sim/systems/cs/src/cs_scheduler_support.cpp:294-314 | cancelling a target empties the slots of its tasks, disables the one in flight, and takes exactly the removed ones out of the queues |
| TaskLife.TaskArmed | software/sim/sim/systems/cs/src/cs_scheduler_support.cpp:514-549 | with nothing in flight control and arming put the popped task in flight, armed, and change no other |
| SchedulerInvariant.InvariantOverRuns | software/sim/sim/systems/cs/src/cs_scheduler.cpp:16-175 | the invariant holds after every sequence of operations from reset |
| SchedulerInvariant.ApplyKeeps | software/sim/sim/systems/cs/src/cs_scheduler.cpp:27-175 | every operation, control and arming keep the invariant |
| SchedulerInvariant.UsedSlotPlace | software/sim/sim/systems/cs/src/cs_scheduler_support.cpp:155-204 | each used slot is in flight or in the queue of its own class, never both |
| SchedulerInvariant.UsedCount | software/sim/sim/systems/cs/src/cs_scheduler_support.cpp:155-251 | used slots are both queue lengths and the one in flight |
| SchedulerInvariant.PopNeverSkips | software/sim/sim/systems/cs/src/cs_scheduler_support.cpp:206-251 | no stale entry is ever met: the pop takes the front of the queue whose turn it is |
| PeriodicTasks.OncePerNodeOverRuns | software/sim/sim/systems/cs/src/cs_scheduler.cpp:38-101 | with ensuring as the only creator no node ever has two periodic tasks |
| PeriodicTasks.OnceUnlessDoubled | software/sim/sim/systems/cs/src/cs_scheduler.cpp:27-132 | from unique periodic tasks an operation makes rivals exactly if it is a bare periodic request for a node that has one, with a slot free |
| PeriodicTasks.OnceOverRunsIff | software/sim/sim/systems/cs/src/cs_scheduler.cpp:27-132 | over any run periodic tasks have been unique so far exactly if no operation so far did that |
| PeriodicTasks.TwoPeriodicTasks | software/sim/sim/systems/cs/src/cs_scheduler.cpp:27-36 | two bare requests for a periodic exchange make two |
| PeriodicTasks.EnsureClass | software/sim/sim/systems/cs/src/cs_scheduler.cpp:38-53 | ensuring sets the class; no task results only if there was none and no slot was free |
| SchedulerFairness.NoStarvation | software/sim/sim/systems/cs/src/cs_scheduler_support.cpp:206-251 | while a task stays queued, under any interleaved operations, fewer pops happen than 4k + 4 - min(B, 3) from index k of the normal queue, or k + 1 + (k + min(B, 3)) / 3 of the priority queue |
| SchedulerFairness.PopBringsNearer | software/sim/sim/systems/cs/src/cs_scheduler_support.cpp:206-251 | a pop serves the task or shortens its wait by one |
| SchedulerFairness.NoPopKeepsPlaces | software/sim/sim/systems/cs/src/cs_scheduler.cpp:27-142 | no other operation moves a queued task back or changes the burst count |
| Reclassing.WaitWithSwitches | software/sim/sim/systems/cs/src/cs_scheduler_support.cpp:206-358 | while a task waits in either queue, the pops are at most its initial wait and 128 for each of its own changes of class |
| CommandStores.CommandStore.Finish | software/sim/sim/systems/cs/src/cs_scheduler_support.cpp:488-502 | windows at the end of a command exchange: cleared, or kept as pending after a failure |
| CommandStores.CommandStore.LoadPendingWindow | software/sim/sim/systems/cs/src/cs_scheduler_support.cpp:391-407 | the pending copy into the buffer |
| CommandStores.CommandStore.MergeWindowToBuffer | software/sim/sim/systems/cs/src/cs_scheduler_support.cpp:426-461 | the nonzero merge of a CS window into the buffer |
| CommandWindows.FinishCloses | software/sim/sim/systems/cs/src/cs_scheduler_support.cpp:488-502 | at the end of a command exchange the front of the buffer stands and is what is pending exactly after a failure, and both are empty otherwise; the command window is empty, all else stands |
| CommandWindows.CancelCloses | software/sim/sim/systems/cs/src/cs_scheduler.cpp:121-132 | after cancelling a node its pending window, its command window and the front of the buffer are empty, all else stands |
| CommandWindows.PendingRefinesLatest | software/sim/sim/systems/cs/src/cs_scheduler_support.cpp:360-502 | up to any point of any run each field is held at the latest nonzero value seen at an arming point since its node was last delivered or cancelled, if and only if every cancellation so far was harmless to it |
| CommandWindows.SentIsLatest | software/sim/sim/systems/cs/src/cs_support.cpp:127-143 | and that value is what the exchange then sends |
| CommandWindows.StepHolds | software/sim/sim/systems/cs/src/cs_scheduler_support.cpp:463-502 | the only event that breaks it is a cancellation of another node in flight that reaches the field |
| StagedCommands.StagedInFlightSurvivesIff | software/sim/sim/systems/cs/src/cs_scheduler_support.cpp:426-502 | a nonzero value staged while its node is in flight is sent by that node's next exchange, without staging again, exactly if the buffer held it already and the exchange in flight is neither delivered nor cancelled |
| StagedCommands.StagedNeverSent | software/sim/sim/systems/cs/src/cs_scheduler_support.cpp:488-502 | if nothing is undelivered for the field, the next exchange sends 0 for it whatever happened |
| StagedCommands.StagedValueIsLost | software/sim/sim/systems/cs/src/cs_support.cpp:127-143 | a run in which 7 is staged in flight and the next exchange sends 0 |
| StagedCommands.CancelLosesAnothersCommand | software/sim/sim/systems/cs/src/cs_scheduler.cpp:121-132 | a run in which cancelling one node makes the retry of another send 0 for an undelivered 5 |
| FlightEvents.OutsideMovesFlight | software/sim/sim/systems/cs/src/cs_scheduler.cpp:27-132 | operations move the command in flight exactly as the window events say |
| FlightEvents.EventsAreARun | software/sim/sim/systems/cs/src/cs_scheduler.cpp:144-175 | the scheduler produces only runs the windows are specified for, events fitting the configuration included, and its command in flight is the one the windows assume |
| FlightEvents.SchedulerKeepsLatest | software/sim/sim/systems/cs/src/cs_scheduler_support.cpp:360-512 | so over every run of the scheduler fields are held at their latest value exactly if every cancellation was harmless |
| CsUnits.CsUnit.FinalizeActive | software/sim/sim/systems/cs/src/cs_scheduler_support.cpp:463-512 | taking the result, resetting the frame and freeing the slot, in place; an enabled task without success keeps what it sent as pending, otherwise buffer and pending window are empty |
| CsUnits.CsUnit.EndIsEvent | software/sim/sim/systems/cs/src/cs_scheduler_support.cpp:488-502 | settling the windows with a result is the window event that the flight of the task table says |
| CsUnits.CsUnit.ArmActiveExchange | software/sim/sim/systems/cs/src/cs_support.cpp:127-188 | arming in place: the master, the windows and the task |
| CsUnits.CsUnit.ExchangeControlTick | software/sim/sim/systems/cs/src/cs_support.cpp:120-125 | control runs only while the bus is free; bus, windows, window by window, and table after the tick |
| CsUnits.CsUnit.CancelAll | software/sim/sim/systems/cs/src/cs_scheduler.cpp:121-132 | cancelling a target in place: its tasks, its windows and the front of the buffer are emptied |
| CsExchange.ArmedForNode | software/sim/sim/systems/cs/src/cs_support.cpp:127-188 | arming an idle master starts a request for exactly the blocks and window of the node |
| CsExchange.FramesFit | software/sim/sim/systems/sub/src/i_sys_algo.cpp:299-326 | a window that does not fit its area or buffer is refused, and the frame then covers the whole area |
| CsExchange.OwnCommandIsWritten | software/sim/sim/systems/cs/src/cs_support.cpp:127-143 | the command a task writes itself is one row of the area, written with its pattern, or nothing |
| ModeControllers.ModeController.UpdateCompletionFeedback | software/sim/sim/systems/cs/src/cs_operating_mode_support.cpp:157-173 | the completion loop in place |
| ModeControllers.ModeController.TickAllCooldowns | software/sim/sim/systems/cs/src/cs_operating_mode_support.cpp:175-191 | all cooldowns count down; a streak is forgotten when its cooldown ends |
| ModeControllers.ModeController.SetFocusTarget | software/sim/sim/systems/cs/src/cs_operating_mode.cpp:19-31 | focusing a new node clears its record, refocusing does not |
| ModeControllers.ModeController.SetBackgroundTarget | software/sim/sim/systems/cs/src/cs_operating_mode.cpp:37-47 | enabling a node in the background clears its record |
| NodeStepping.RunNodeStepOrder | software/sim/sim/systems/cs/src/cs_nodes.cpp:8-15 | the node steps in their order, in place |
| OperatorControls.ControlsSay | software/sim/sim/systems/cs/src/cs_operating_mode.cpp:19-47 | after any operator calls focus and background are what the last word on them said, and exactly the nodes enabled or newly focused have a clean record |
| OperatorControls.FeedbackCounts | software/sim/sim/systems/cs/src/cs_operating_mode_support.cpp:114-173 | after any completions the streak of a node is the number of its failed periodic data exchanges since its last success, capped, and its cooldown is 96 from the third on, 160 from a wrong EOF on, unless one runs |
| OperatorControls.ThreeTimeouts | software/sim/sim/systems/cs/src/cs_operating_mode_support.cpp:131-155 | from a clean record, without a success or a wrong EOF: a cooldown of 96 exactly if three or more periodic data exchanges have failed |
| OperatorControls.OthersIgnored | software/sim/sim/systems/cs/src/cs_operating_mode_support.cpp:157-173 | failed commands, failed exchanges that are not periodic and other nodes change no record |
| OperatorControls.ModeSays | software/sim/sim/systems/cs/src/cs_operating_mode_support.cpp:157-191 | focus, background and record with which the nodes take their steps in a tick |
| OperatorControls.PolicySays | software/sim/sim/systems/cs/src/cs_operating_mode.cpp:120-131 | after the node steps a ready node in focus has its task in the priority queue whatever its background flag, one only in the background in the normal queue, and any other, like one in a cooldown, none |
| OperatorControls.OffStaysQuiet | software/sim/sim/systems/cs/src/cs_operating_mode.cpp:37-47 | a node neither in the background nor in focus has no periodic task and starts no exchange in any later tick until it is enabled or focused |
| OperatorControls.DisabledStaysQuiet | software/sim/sim/systems/cs/src/cs_control_support.cpp:117-128 | that holds from the very tick in which it is disabled |
| OperatorControls.WipedIsPolled | software/sim/sim/systems/cs/src/cs_control_support.cpp:104-115 | a node enabled or newly focused has its periodic task in the same tick, whatever cooldown it was in, if a slot is free and no failure of it is pending |
| OperatorRuns.FocusStartsAtOnce | software/sim/sim/systems/cs/src/cs_control_support.cpp:208-227 | from reset, focusing PSS, which is not in the background, starts its first exchange in the same tick, ahead of TCS |
| OperatorRuns.ThreeTimeoutsFromReset | software/sim/sim/systems/cs/src/cs_operating_mode_support.cpp:131-191 | from reset, TCS being absent and its exchanges of any length: no cooldown before the third timeout is consumed, and that tick starts one of 96 and takes the task away |
| OperatingMode.ShortStreaks | software/sim/sim/systems/cs/src/cs_operating_mode_support.cpp:114-191 | in every reachable state a node outside a cooldown has failed at most twice in a row |
| OperatingMode.ThirdTimeoutCools | software/sim/sim/systems/cs/src/cs_operating_mode_support.cpp:131-155 | from a clean record timeouts start a cooldown exactly at the third |
| OperatingMode.PolicyEnforced | software/sim/sim/systems/cs/src/cs_nodes.cpp:8-15 | after the node steps a node has a periodic task exactly if its policy allows it and it had one or a slot was free, just one, of the class the focus dictates |
| OperatingMode.StartsOnlyIfAllowed | software/sim/sim/systems/cs/src/cs_operating_mode.cpp:120-131 | a periodic exchange starts in a tick only under a policy that allows it, unless a call has asked for a second periodic task |
| OperatingMode.CooldownBlocks | software/sim/sim/systems/cs/src/cs_operating_mode_support.cpp:175-191 | while a cooldown runs, nothing pardons the node and no call asks for a second periodic task, no periodic exchange of it starts |
| OperatingMode.TimeoutCooldown | software/sim/sim/systems/cs/src/cs_operating_mode_support.cpp:131-191 | a timeout cooldown keeps periodic exchanges from starting for 95 ticks unless the node succeeds, is enabled or is focused, or a call asks for a second periodic task |
| DoubledTasks.CooldownIsBypassed | software/sim/sim/systems/cs/src/cs_nodes.cpp:8-15 | two bare periodic requests in a tick start a periodic exchange of a node with 50 ticks of its cooldown to go |
| Starvation.TaskStarves | software/sim/sim/systems/cs/src/cs_nodes.cpp:8-15 | for any number of rounds and any length of their exchanges: a node that gets the focus during each exchange of another one and loses it in the tick after its end has its periodic task waiting after every tick and never starts an exchange |
| Liveness.TickKeeps | software/sim/sim/systems/cs/src/cs_support.cpp:190-213 | in every tick scheduler and bus stay coupled, and the next pop comes nearer |
| Liveness.ArmPartyIsArmedFor | software/sim/sim/systems/cs/src/cs_support.cpp:154-188 | what arming does to the master is what the liveness relation asks |
| Liveness.FreshCoupled | software/sim/sim/systems/cs/src/cs_scheduler.cpp:16-25 | freshly bound parties and a reset scheduler are coupled |
| ServedInTime.WaitingIsServed | software/sim/sim/systems/cs/src/cs_scheduler.cpp:144-175 | a task waits for fewer than 78 ticks per pop that its place allows, and 128 pops more for each of its changes of class, whatever else happens |
| ServedInTime.QueuedIsServed | software/sim/sim/systems/cs/src/cs_scheduler.cpp:144-175 | so a task that nobody cancels or moves stays queued for fewer than 78 ticks per pop its place allows |
| ServedInTime.LeavingIsService | software/sim/sim/systems/cs/src/cs_scheduler_support.cpp:514-549 | and when it leaves the queue it is in flight, armed, its request on the bus |
| ServedInTime.OneCompletion | software/sim/sim/systems/cs/src/cs_scheduler_support.cpp:463-512 | an armed exchange is completed once, with its own result, and nothing else is completed meanwhile |
| ServedInTime.PresentNodeCompletes | software/sim/sim/systems/cs/src/cs_scheduler.cpp:144-175 | for a present node that is success, exactly 2N + 10 ticks after arming |
| ServedInTime.AbsentNodeCompletes | software/sim/sim/systems/cs/src/cs_scheduler.cpp:144-175 | for an absent node a timeout, 2 n1 + 15 ticks after arming |
| ServedInTime.ArmedCompletes | software/sim/sim/systems/cs/src/cs_scheduler_support.cpp:463-549 | every armed task is completed once, within 77 ticks, with success exactly if a device has its node's address |
| ServedInTime.WaitingIsCompleted | software/sim/sim/systems/cs/src/cs_scheduler.cpp:144-175 | a waiting task that nobody cancels is armed within the ticks its place and changes of class allow, and completed at most 77 ticks later |
| CommandPath.SentIsMerged | software/sim/sim/systems/sub/src/i_sys_algo.cpp:681-709 | whatever becomes of the buffer meanwhile, the device merges each field as its bytes were sent |
| CommandPath.CommandReachesDevice | software/sim/sim/systems/sub/src/i_sys_algo.cpp:140-177 | a command exchange with a present device succeeds, and each device field is then what was sent, or unchanged by the merge where that was 0; that is what was staged, else pending, if the buffer is left alone |
| CommandPath.CommandedIsRead | software/sim/sim/systems/cs/src/cs_support.cpp:127-188 | a nonzero command present at arming is read by the device as exactly the quantised value right after its merge, if the buffer is left alone |
| CommandPath.SettingCommands | software/sim/sim/systems/sub/src/i_par.cpp:403-431 | setting an accepted value makes it such a command |
| JointRun.HistoryLeads | software/sim/sim/systems/cs/src/cs_support.cpp:127-213 | in every reachable state of bus, scheduler and windows the command arrays are what the events so far make them, and scheduler and bus are coupled |
| JointDelivery.ArmPartyMoves | software/sim/sim/systems/cs/src/cs_support.cpp:127-188 | arming as the program does it is the arming event of the windows |
| JointDelivery.BlockDuring | software/sim/sim/systems/cs/src/cs_scheduler.cpp:121-132 | in every tick of a request a block of the buffer is as it was armed, or empty if a cancellation has reached it |
| JointDelivery.FieldIsDelivered | software/sim/sim/systems/sub/src/i_sys_algo.cpp:681-709 | what the device merges for a field is the armed value, nothing if a cancellation reached its block before the first byte was sent, and the low byte alone if between the two; and the exchange succeeds |
| JointDelivery.OneCancellation | software/sim/sim/systems/sub/src/i_sys_algo.cpp:681-709 | the same for a single cancellation, by its tick |
| JointDelivery.DeviceGetsLatest | software/sim/sim/systems/sub/src/i_sys_algo.cpp:140-177 | in every run of bus, scheduler and windows from reset the armed value is the latest nonzero value commanded and not yet delivered or cancelled, if every earlier cancellation was harmless to the field |
| JointDelivery.LatestIsRead | software/sim/sim/systems/sub/src/i_sys_algo.cpp:140-177 | so if that is the pattern of a commanded value and the block is not cancelled before its last byte, the device reads the quantised value |
| JointDelivery.SetValueIsRead | software/sim/sim/systems/sub/src/i_par.cpp:403-431 | from setting to reading: a value set before control arms an exchange with its node, by the operator or by the task, is read by the device as exactly the quantised value, unless a cancellation reaches its block before its last byte is sent |
| ShippedSystem.ShippedBegins | software/sim/sim/systems/cs/src/cs_scheduler_support.cpp:22-28 | CS and PSS as bound, with the whole table and the five nodes, are a state such runs begin from |
| JointProgress.TickExists | software/sim/sim/sim_operator.cpp:33-36 | for everything the software may do in a reachable joint state there is a tick, the windows of the nodes fitting the arrays of CS |
| ProgramRun.OpMatches | software/sim/sim/systems/cs/src/cs_scheduler_support.cpp:99-106 | every command task is of its node's system, whatever is called |
| ProgramRun.ProgramIsJoint | software/sim/sim/systems/cs/src/cs_support.cpp:127-213 | a tick in which the program arms is a joint tick in which the armed task writes its own command |
| ProgramRun.ProgramTickExists | software/sim/sim/systems/cs/src/cs_support.cpp:190-213 | for everything the software may call and write in a reachable state the program has a tick |
| ProgramRun.ProgramRunIsJoint | software/sim/sim/systems/cs/src/cs_support.cpp:190-213 | so every run of the program from reset is a joint run, to which all of the above applies |
| ProgramRun.EnqueuedIsRead | software/sim/sim/systems/cs/src/cs_scheduler.cpp:55-78 | from enqueueing to reading: the exchange armed for the task of an enqueued command makes the device read the quantised value it was enqueued with, 1 if none was given, unless a cancellation reaches its block before its last byte is sent |
| ParamPath.WindowArrives | software/sim/sim/systems/cs/src/cs_support.cpp:145-152 | a data exchange leaves in the window exactly what the device offered |
| ParamPath.ReportedIsRead | software/sim/sim/systems/sub/src/i_par.cpp:376-395 | the mirror of the whole path: CS reads the quantised value a device reports |

## Left out

- CommandPath.CommandedIsRead: assumes that the CS software leaves the transport buffer alone while the request is being sent; `JointDelivery.SetValueIsRead` does not.
- JointDelivery.DeviceGetsLatest: takes the command that a task writes itself, and that it is one of its node, as input; `ProgramRun.ProgramRunIsJoint` derives both from the armed task.
- Nodes without blocks: a node whose command or parameter window has no block would be served with the whole area, because a frame of 0 blocks stands for that; no node of the repository has 0.
- ParamPath.ReportedIsRead: assumes that the device buffer stands while it is being sent; `Transactions.DataDelivered` says what arrives when it does not.
- Transactions.ExchangeTiming: devices send and receive whole arrays of at most 31 blocks, as they are bound; a device with more blocks, or one that changes its frame windows, is not covered.
- ArbitraryStreams.OnlyWholeFramesCommit: no software runs between the bytes; `SoftwareStreams.WholeFramesDespiteSoftware` lets it.
- Codec: IEEE rounding, narrowing to `float`, infinities and the overflow of `llround` are not modelled; values are reals and the AAC root is given by its defining equation.
- Wrap-around of the 32-bit tick counter, task ids and the burst count: all are unbounded here.
- Hooks of the exchange machine and the bypass mode: the hooks are null and nothing selects bypass.
- Buffers addressed only as bytes: all storage is bound as 16-bit blocks.
- Block numbers above 127 in the char fields of the tables, and negative block numbers, which the generator refuses.
- Logging, status strings, the last-result display and the return of ids or counts that only feed messages.
- Threads, barriers, mutexes and sleeping: a tick is one step of every party in any order, then of the bus.
- Reading the workbook, emitting headers, listing free bit ranges, and which failure the generator reports first.
- The order in which systems are checked for overlaps, which cannot change the verdict.
- The PSS model, the parameter registry, the control console and file input: they act only by calls and array updates, which runs leave arbitrary.
- Parameter tables, as data.
- A device that is unpowered or restarted in the middle of an exchange.
