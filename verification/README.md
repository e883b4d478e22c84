# Verification of the robot tools

A Dafny model of the parts of the repository whose mistakes are hard to see on a
bench: the least-squares fit, the fibers that share one I2C bus, the sequenced wire
protocol, the angle and path planners, the telemetry decoder and the codecs. Each
part is stated against an independent definition (a solution set, a reachable state,
a true angle, a real point of a path) and proved for every input or every run.

Check everything with `dafny verify dfyconfig.toml`.

| file | what it models |
|---|---|
| `LeastSquares.dfy`, `LeverArm.dfy` | the in-place Gauss-Jordan solver and the lever-arm fit on top of it |
| `Rig.dfy`, `Fibers.dfy`, `FiberSafety.dfy` | the shared rig, every interleaving of its fibers, and what all of them keep |
| `FiberStops.dfy` | exactly how long a delivered stop lasts |
| `FiberEnds.dfy`, `FiberMotion.dfy` | what a tick that ends a motion leaves behind, and what the commands, the emergency stop and the service make of the motion in flight |
| `RigObject.dfy` | the rig as one object updated in place, under any schedule of calls and fiber switches |
| `TickTiming.dfy` | tick pacing and the starvation watchdog |
| `Lines.dfy` | line reassembly from chunks |
| `WireText.dfy`, `Session.dfy` | the text of the sequenced protocol, the host's counters, and whole sessions over a bad channel |
| `CommandLine.dfy`, `Tokenizer.dfy` | how the robot reads a command line: text, tokens, id; as functions, and in place over its buffer |
| `Credentials.dfy` | credential quoting against that reading |
| `Angles.dfy`, `Park.dfy` | wrapping and unwrapping, and the least-rotation parking planner |
| `Field.dfy`, `Corners.dfy`, `Reposition.dfy` | the path gate, corner scoring, and the repositioning loop as a command trace |
| `Telemetry.dfy`, `PoseCsv.dfy`, `Legs.dfy` | the stream decoder and its loss count, the pose table, and leg segmentation |
| `Residues.dfy`, `RadioName.dfy` | two coprime moduli, and the radio address of a friendly name |
| `Reals.dfy`, `Options.dfy`, `Texts.dfy` | shared helpers |

Choices that shape the statements:

- Floats are reals. `sin`, `cos`, `hypot` and `atan2` are parameters of the planner,
  known only through the laws in `Park.Plane.Valid`; the distance used for scoring and
  repositioning is a parameter with no law at all; printing to one decimal is a
  parameter known to be within 0.05.
- A fiber is a stack of frames, one frame per place where it can be switched out. The
  kernel and the motion engine are reduced to a command, two activity flags (a motion, a
  nudge) and a duty on each port; every point their hidden code decides is left open and all answers are
  covered. The log of instants in `Fibers.Log` is written and never read.
- The channel of a session may lose, delay, repeat and reorder lines, and may hold lines
  and replies from before at the HELLO, further copies of that HELLO among them. The robot
  knows a line's verb and id only by reading them off the text; whether the fields of a
  known verb decode, and what the adapter makes of them, is open.
- A character of a command line is a byte.

What the proofs say that the repository's own words do not:

- `park.plan` says an empty plan means "parked to tolerance". It does not: with the
  default tolerances the robot can stand 0.57 cm off (`Park.EmptyPlanNeedNotBeParked`).
  `Park.Plan` states exactly when the plan is empty, and `Park.EmptyPlanIsClose` what
  an empty plan does bound.
- `Repositioner.go` says a refusal comes "before sending anything at all". That holds
  exactly when the first look is the one refused (`Reposition.RefusalSendsNothingIff`).
  A refusal after a drive exists (`Reposition.RefusedAfterSending`) and always means that
  the robot, not the target, is outside the usable field (`Reposition.LaterRefusalIff`).
- The quoting of a credential is called provably round-trippable. It is so exactly when
  the field is non-empty, on one line, and does not need quotes around a final backslash
  (`Credentials.FieldReadsBackIff`). A whole SET needs that of both fields, and no `#` in
  either, which the link takes for an id already there, and no more than 239 bytes in all
  (`Credentials.StoredIff`, with the smallest loss in `Credentials.SpaceThenBackslashIsLost`).
- The comment at src/shims.cpp:410-414 says the guard's holder delivers a staged stop.
  Only a tick does: the stop can outlive any other holder's release
  (`FiberSafety.StagedStopOutlivesItsHolder`). No stop is lost by it.
- The lever-arm fit asks "did the robot actually pivot?" exactly when the squared chords
  between its headings, over all pairs, come to less than 1e-12 per fix
  (`LeverArm.FitLeverArm`): one pivot of a microradian or so is enough to be believed.
- A soft stop does not end a nudge: delivered in full, it can be followed by duty on a
  port with no call but `tickDrive()` (`FiberStops.NudgeOutlivesStop`). A delivered stop
  lasts exactly when no pulse is pending at it (`FiberStops.StaysStoppedIff`).
- `updateMove()`, polled while a nudge is live, steps the kernel without the guard, even
  beside another fiber's guarded body (`FiberStops.PollStepsOutsideGuard`).
- The `err` arm of the pattern in `seqd` matches an error code, not an id
  (`Session.ErrIsNoReceipt`). What `seqd` returns for command k is a receipt exactly when
  k is not one of the codes the robot sends, nothing stale matches, and no HELLO and no live
  line under k is left over (`Session.AnswerIsReceiptIff`); a rejected command is hardly ever answered at all
  (`Session.RejectionIsAnsweredIff`).
- Session order depends on the channel being clear, at the HELLO, of live lines and of any
  further HELLO: `hello()` in tools/fieldlink.py sends up to six, and a late copy starts the robot over, so that
  accepted commands can be accepted again (`Session.SafeIffNothingLeftOver`,
  `Session.LeftOverHelloRepeats`). The meaning of an ack depends on its being clear of
  stale acks as well (`Session.ReceiptsAreTrueIff`).
- The robot finds the id's place before it tokenizes and reads it after. A quoted field
  left open, with escapes in it, is decoded over that place: `RUN "a\"b #7` has no id
  (`CommandLine.OpenEscapeLosesTheId`, exactly when in `CommandLine.IdReadsBackIff`).
- `check_path` asked for no samples looks only at the starting point
  (`Field.NoSamplesChecksOnlyTheStart`).

## Model

| member | source | states |
|---|---|---|
| LeastSquares.SolveLstsq | tools/otos_levercal.py:39-63 | whenever it returns, the result is the one solution of the normal equations and the strict minimiser of the squared residuals, for any number of rows and unknowns; it refuses exactly where elimination with partial pivoting first finds no pivot, and then exhibits a direction, with exactly one unit of some unknown and nothing of the unknowns after it, along which no normal equation moves by as much as the pivot floor |
| LeastSquares.ReduceColumn | tools/otos_levercal.py:50-62 | one column: refused, with every candidate below the floor and nothing changed, or taken and cleared with the solution set kept |
| LeastSquares.EliminationIsDetermined | tools/otos_levercal.py:49-62 | partial pivoting makes one matrix of a system, column by column |
| LeastSquares.NotBoth | tools/otos_levercal.py:51-53 | no system both runs out of pivots and is eliminated to the end |
| LeastSquares.NoPivotNearlyFlat | tools/otos_levercal.py:51-53 | where no row offers a pivot, undoing the columns already cleared gives a direction along which the original equations hardly move |
| LeastSquares.FlatSystemIsRefused | tools/otos_levercal.py:52-53 | equations that do not move at all along some direction have no only solution, so they are refused |
| LeastSquares.DiagonalIsNeverRefused | tools/otos_levercal.py:52-53 | a diagonal system whose entries reach the floor cannot be refused |
| LeastSquares.PivotRow | tools/otos_levercal.py:51 | picks the row at or below the diagonal with the largest entry of the column |
| LeastSquares.TakePivot | tools/otos_levercal.py:51-56 | swap and division in place give exactly the new rows, keep the solution set and put a one on the diagonal |
| LeastSquares.ClearColumn | tools/otos_levercal.py:57-62 | elimination in place gives exactly the new rows, keeps the solution set and makes the column a unit column, without disturbing those before it |
| LinearAlgebra.SwapKeepsSolutions | tools/otos_levercal.py:54 | swapping two rows keeps the solution set |
| LinearAlgebra.DivideKeepsSolutions | tools/otos_levercal.py:55-56 | dividing a row by a nonzero entry keeps the solution set |
| LinearAlgebra.EliminateKeepsSolutions | tools/otos_levercal.py:60-62 | subtracting a multiple of one row from another keeps the solution set |
| LinearAlgebra.IdentitySolved | tools/otos_levercal.py:63 | a system reduced to the identity has its last column as its only solution |
| LeastSquares.NormalSystemIsStationarity | tools/otos_levercal.py:44-47 | the normal equations hold of a vector exactly when the gradient of the squared residuals vanishes there |
| LeastSquares.ResidualsExpand | tools/otos_levercal.py:39-41 | the squared residuals at any point are those at another, plus twice the gradient along the step, plus the squared change of the predictions |
| LeastSquares.StationaryMinimises | tools/otos_levercal.py:39-41 | a stationary vector has the least squared residuals, and shares them only with vectors that are stationary too |
| LeastSquares.SolutionMinimises | tools/otos_levercal.py:39-41 | the only solution of the normal equations is the only minimiser |
| LeverArm.BuildRows | tools/otos_levercal.py:130-137 | two rows and two readings per fix, in order |
| LeverArm.FitLeverArm | tools/otos_levercal.py:127-137 | fewer than four fixes are refused; a returned arm is the strict least-squares fit, is the true centre and arm whenever the fixes obey the rotating-sensor model, and needs a robot that turned; a sweep of four or more unit headings is refused as singular if and only if the squared chords between its headings, over all pairs, come to less than 1e-12 per fix |
| LeverArm.SpreadDecides | tools/otos_levercal.py:49-63 | the elimination of a sweep's normal equations finds no pivot exactly below that spread |
| LeverArm.SpreadIs | tools/otos_levercal.py:130-137 | the pairwise squared chords come to n squared less the squared sums of the cosines and of the sines |
| LeverArm.ExactFixesLeaveNoResidual | tools/otos_levercal.py:130-137 | the true arm of exact fixes solves the normal equations |
| LeverArm.ExactFixesGiveTheArm | tools/otos_levercal.py:130-137 | an only solution equals the arm that exact fixes obey |
| LeverArm.PivotPinsTheFit | tools/otos_levercal.py:130-137 | fixes at two different headings leave at most one fit |
| LeverArm.NoPivotNoUniqueFit | tools/otos_levercal.py:130-137 | without a turn every fit has a rival that fits as well |
| LeverArm.UniqueFitIffPivoted | tools/otos_levercal.py:130-137 | a fit is the only one exactly when two fixes differ in heading |
| LeverArm.OnlySolutionNeedsPivot | tools/otos_levercal.py:52-53 | a unique solution implies the robot turned, so one that never did is refused |
| FiberSafety.OwnerStep | src/shims.cpp:813-918 | every segment of every fiber keeps one owner of the bus, and names the owner's frame after it |
| FiberSafety.InvStep | src/shims.cpp:813-918 | one segment of any fiber keeps the whole invariant |
| FiberSafety.ReachableInv | src/shims.cpp:813-918 | the invariant holds in every reachable interleaving |
| FiberSafety.OneBusOwner | src/shims.cpp:813-888 | at most one frame of one fiber is inside a guarded body, and the guard is taken while it is |
| FiberSafety.BusTouchedByHolder | src/shims.cpp:563-572 | every bus transaction, outside `estopAll` and the pulse a polled nudge fires, is made by the one fiber holding the guard |
| FiberSafety.GuardNeverLeaks | src/core/bus_guard.h:48-58 | a taken guard always has a fiber still running the guarded body |
| FiberSafety.HookOutsideGuard | src/shims.cpp:888-918 | the service hook never runs above a guarded frame, so no fiber waits for itself |
| FiberSafety.NoStopLost | src/shims.cpp:420-432 | a returned soft stop has had both ports zeroed under the guard since its call, or is staged, or is being delivered by the holder |
| FiberSafety.StagedBeforeCheckIsDelivered | src/shims.cpp:881-888 | a stop staged before a tick's check is delivered before that tick gives up the guard |
| FiberSafety.NoRebaseLost | src/shims.cpp:900-904 | a rebase's OTOS zero is written since the request, or pending, or being written |
| FiberSafety.NoSpuriousDelivery | src/shims.cpp:881-904 | nothing is staged or pending except for a request newer than the last one taken |
| FiberSafety.DeliveredStopStops | src/shims.cpp:420-432 | bus free, nothing staged, and since the latest stop no drive, nudge or pulse call and no unguarded pulse: both duties are zero and the kernel neutral |
| FiberSafety.StagedStopOutlivesItsHolder | src/shims.cpp:410-432 | a reachable state where the guard is free and a stop still staged |
| FiberStops.StaysStoppedIff | src/shims.cpp:420-432 | from a delivered stop, duties stay zero over every run without a drive, nudge or pulse call if and only if no nudge is live, the kernel is neutral and no fiber waits for or is inside a pulse |
| FiberStops.CalmStaysStopped | src/shims.cpp:813-940 | with nothing pending no schedule of ticks, polls, stops and reads ever puts duty on |
| FiberStops.NudgeOutlivesStop | src/motion/motion_engine.cpp:424-435 | a reachable stop, delivered in full, after which ticks alone put duty back: ending a move leaves a nudge live |
| FiberStops.TickFiresNudge | src/motion/motion_engine.cpp:265-266 | whenever the bus is free and a nudge live, one idle fiber ticking is enough to put duty on |
| FiberStops.PollStepsOutsideGuard | src/shims.cpp:660-682 | a reachable state where a polled nudge steps the kernel while another fiber is inside a guarded body |
| FiberEnds.EndedTickIsStill | src/shims.cpp:838-888 | whenever a tick whose service ended a segment or hold gives up the bus, with no drive, nudge, pulse call or loose pulse since that end, both duties are zero, the kernel neutral and nothing in flight |
| FiberMotion.OneMotionAtATime | src/motion/motion_engine.cpp:111-160 | over every run: a segment or hold and a nudge are never in flight at once, and the kernel holds a command only while one of them is or a fiber is inside a pulse |
| FiberMotion.CommandSupersedes | src/motion/motion_engine.cpp:144-160 | a drive or nudge drops whatever was in flight, and one with nothing to do leaves the kernel neutral |
| FiberMotion.PulseSupersedes | src/shims.cpp:563-572 | a pulse waits without touching anything, and once it has the bus drops whatever was in flight |
| FiberMotion.ConfigureStopsFirst | src/shims.cpp:1327-1369 | configuring a motor stops the robot, or stages the stop, before waiting for the bus |
| FiberMotion.PolledEndStops | src/shims.cpp:660-682 | a poll that finds the motion over leaves nothing in flight, and asks for a soft stop exactly when it was a segment |
| FiberMotion.BodiesKeepTheBus | src/core/bus_guard.h:48-58 | an I2C body keeps the bus for as many transactions as it takes, and frees it as it returns |
| FiberMotion.DutyNeedsCommand | src/shims.cpp:813-940 | no segment of any fiber puts duty on a port except a kernel step's write under a command it read |
| FiberMotion.TicksDriveMotion | src/shims.cpp:813-940 | with the bus free, nothing pending and a motion in flight, one idle fiber that just ticks puts duty on |
| FiberMotion.EstopZeroes | src/shims.cpp:1092-1099 | whatever holds the bus and however fibers interleave, an emergency stop drops the motion at once, and once it returns both ports are zero unless a kernel step with a command has written since the call |
| FiberMotion.TickReturnsByPace | src/shims.cpp:813-940 | a tick goes from its wait to the service hook through its own steps, settles and zeros only, from the hook to its pacing, and returns from there alone |
| FiberMotion.PulsesSettle | src/motion/motion_engine.cpp:445-494 | every pulse ends in a settle under a neutral kernel, every settle steps for as long as it is asked to, and delivering a stop takes no second one |
| FiberMotion.ServiceDecides | src/motion/motion_engine.cpp:265-422 | what a tick makes of its service: a motion that is over leaves nothing in flight, one waiting at its target leaves the kernel neutral, one to be driven arms it |
| RigObjects.RunSchedule | src/shims.cpp:813-940 | any schedule run on the rig object, updated in place, ends in the reachable state it leads to, so that every row on reachable states is true of its fields; so a busy guard has a fiber inside its guarded body, and a free one has lost no stop |
| TickTiming.TickClock.Pace | src/shims.cpp:924-939 | the wait ends at the deadline or less than a millisecond after it, is none exactly when the deadline is past, and is at most a period |
| TickTiming.RunTicker | src/shims.cpp:801-939 | a loop over the clock object, under any delays, makes a run of ticks in the sense of the rows below, and leaves the last tick in the clock |
| TickTiming.ReturnsAtDeadline | src/shims.cpp:924-939 | a tick never returns before its deadline nor sleeps longer than a period |
| TickTiming.NextTick | src/shims.cpp:924-930 | consecutive deadlines are a period apart or more, exactly a period when the tick was not a period late, and a late tick's is one whole period after its start |
| TickTiming.NoCatchUpBurst | src/shims.cpp:924-930 | any two deadlines are at least as many periods apart as ticks |
| TickTiming.CadenceIsExact | src/shims.cpp:924-930 | the first deadline is one whole period after its start, and the k-th is the first plus k periods if and only if no tick on the way was a period late |
| TickTiming.TickClock.Poll | src/shims.cpp:1013-1034 | a poll stops the robot exactly when the drive is active and over 100 ms have passed since the latest tick began |
| TickTiming.LiveTicksNeverStopped | src/shims.cpp:984-1020 | ticks at most 100 ms apart never trip the watchdog |
| TickTiming.StarvationStopsInTime | src/shims.cpp:1013-1034 | once ticking ceases with the drive active, the first poll past the timeout fires, no later after it than polls are apart; with the drive inactive none does |
| Lines.LineBuffer.Feed | tools/link.py:105-118 | returns the lines of held bytes plus chunk and keeps the rest |
| Lines.LineBuffer.Line | tools/link.py:120-124 | the first of the lines a chunk completes, if any |
| Lines.LineBuffer.Reset | tools/link.py:126-128 | forgets the held bytes |
| Lines.ChunksDoNotMatter | tools/link.py:102-124 | for every stream and every cutting, the outputs are the one-shot parse and the held bytes those after the last newline |
| Lines.OneNewlineOneLine | tools/link.py:105-118 | a chunk completes exactly as many lines as it has newlines |
| Lines.LineLosesNothing | tools/robotlink.py:272-290 | readers that hand over at most one newline per chunk lose nothing |
| Lines.WifiSerial.Readline | tools/robotlink.py:323-335 | one whole line or nothing; no byte dropped, duplicated or reordered |
| Lines.CutJoins | tools/link.py:105-118 | the lines and the rest put back together are the stream |
| Lines.CutIsUnique | tools/link.py:105-118 | there is no other way to cut it |
| Lines.TextDropsThePrefix | tools/link.py:113-115 | a line's text is its characters less the blanks around them, less one leading `<` and space, and otherwise untouched |
| Lines.RelayedReadsTheSame | tools/link.py:86-91 | a line reads the same with the relay's prefix as without it |
| WireText.ReplyReadsBack | tools/link.py:194-209 | the host reads an ack or nack as it was meant, and an err as neither |
| WireText.NumberAfterIff | tools/link.py:45 | a reply's number is the longest run of digits after its word and at least one blank, and there is none otherwise |
| WireText.SeqdReceipt | tools/fieldlink.py:87 | the pattern matches an ack for exactly this id, or an err whose code is this number |
| WireText.NumberStandsAlone | tools/fieldlink.py:87 | the number matched is not followed by a letter, a digit or an underscore |
| WireText.AnswerIsFirst | tools/fieldlink.py:82-93 | the answer is the first line that matches, and none only when none does |
| WireText.Sequencer.Format | tools/link.py:162-184 | one id per command, none for a line that has one or whose text up to the first space is no sequenced verb |
| WireText.Sequencer.Reset | tools/link.py:186-192 | the counter is back at zero |
| WireText.Sequencer.ObserveReply | tools/link.py:194-209 | an ack sets the counter to its id, a nack to one below, anything else leaves it |
| WireText.NextId | tools/wire_acceptance.py:436-455 | the next id by the first reply that says, else the current one |
| WireText.TrackersAgree | tools/wire_acceptance.py:436-455 | on a robot's reply the two trackers agree, one shifted by one |
| WireText.Seqd | tools/fieldlink.py:82-93 | every send is the identical line, under one fresh id unless it carries one; resending stops at the first answer |
| WireText.SendUntil | tools/robotlink.py:248-270 | the same for a sender waiting for a receipt: one id, identical lines, no send after the receipt, and everything heard up to it |
| WireText.UpToStops | tools/robotlink.py:248-270 | what it reports of a read is all of it up to the receipt, and everything when that has not come |
| Session.ExecutesIffNext | src/comms/wire_handler.cpp:446-690 | a line executes exactly when its verb is a sequenced one, it carries the expected id short of the ceiling, and its fields decode; the counter moves exactly then, and starts over exactly at a HELLO with no field |
| Session.CommandIsAnswered | src/comms/wire_handler.cpp:546-679 | exactly which replies a command draws, for every robot, line and decoding: one nack of the expected id without an id, with `#0` and at a gap, one ack of the last id for a resend, an ack and at most an err for the expected id, a nack and an err where it does not decode; and when a gap is noted or cleared |
| Session.StrangerIsAnswered | src/comms/wire_handler.cpp:546-640 | a verb outside the table draws silence without an id, and otherwise the answer of a command that does not decode, code 1 |
| Session.QueryIsAnswered | src/comms/wire_handler.cpp:446-540 | the five queries are answered whatever follows them with at most the reminder, and change nothing |
| Session.OverheardIsIgnored | src/comms/wire_handler.cpp:446-540 | `ESTOP` and everything in lower case stay outside the sequence and draw none of its replies |
| Session.OthersAreSequenced | tools/robotlink.py:145-148 | every other verb goes by its id, as one the robot knows exactly when the host's own table has it |
| Session.GapIsReminded | src/comms/wire_handler.cpp:767-787 | over every run after a gap, up to the missing id or a HELLO, each query is answered with exactly a nack of the missing id |
| Session.NoGapNoReminder | src/comms/wire_handler.cpp:767-787 | with nothing missing a query draws no reminder |
| Session.AcceptedIsReacked | tools/wire_acceptance.py:430-434 | over any run without another HELLO, once a command is accepted, each further delivery of it draws exactly one ack, of at least its id, and is not executed |
| Session.LiveReplyResyncs | tools/link.py:194-209 | whatever line provoked it, a live ack or nack puts the next allocation on the id the robot expects |
| Session.SessionInv | src/comms/wire_handler.cpp:446-690 | over every run in which no HELLO is left over: the accepted lines carry the ids 1, 2, 3 and so on, each left over or issued, and every ack is stale or of one of them |
| Session.AckIsReceipt | tools/wire_acceptance.py:376-434 | an ack for an id means its command was accepted, in its place, exactly once, if at the HELLO no other HELLO, no live line under that id and not that ack were left over |
| Session.ReceiptsAreTrueIff | tools/wire_acceptance.py:376-434 | every ack heard for an issued command is such a receipt over every run if and only if no live line, no HELLO and no stale ack is left over at the HELLO |
| Session.SafeIffNothingLeftOver | src/comms/wire_handler.cpp:753-765 | acceptance is in order and at most once over every run if and only if no live line and no HELLO is left over at the HELLO |
| Session.LeftOverLineBreaksOrder | tools/link.py:186-192 | any live left-over line has a run that accepts, and acks, a command never issued |
| Session.LeftOverHelloRepeats | tools/fieldlink.py:75-98 | a left-over HELLO has, for every id short of the ceiling, a run that accepts its command twice and acks it |
| Session.AnswerIsReceiptIff | tools/fieldlink.py:82-93 | for every k: what the pattern takes for the answer to command k is a receipt over every run if and only if k is none of the codes err lines carry, no stale reply matches, and (for an id that can be accepted) no HELLO and no live line under k is left over |
| Session.RejectionIsAnsweredIff | tools/fieldlink.py:87 | a command rejected in its turn draws an answer the pattern recognises if and only if its id equals the code of the rejection |
| Session.ErrIsNoReceipt | tools/fieldlink.py:87 | an err about another command taken for the answer to command 3, and the err about command 7 taken for no answer to it |
| Credentials.FieldReadsBackIff | tools/robotlink.py:471-485 | one quoted field is read as itself exactly when storable |
| Credentials.StoredIff | tools/robotlink.py:504-524 | the SET line, with an id only if there is no `#` in it, hands the store exactly this slot, ssid and password if and only if both fields are non-empty, on one line, free of `#`, and need no quotes around a final backslash, and the line fits; and then the robot reads the id the link gave |
| Credentials.HashIsNotStored | tools/link.py:179-184 | no one-line credential with a `#` in it reaches the store as itself, wherever its `#` stands and whatever follows it |
| Credentials.SpaceThenBackslashIsLost | tools/robotlink.py:471-485 | the smallest field the quoting loses |
| Credentials.EscapedReadsBack | src/comms/wire_handler.cpp:404-424 | decoding undoes escaping and stops at the closing quote |
| Credentials.BackslashSwallowsTheQuote | src/comms/wire_handler.cpp:412-417 | a final backslash turns the closing quote into content |
| CommandLine.IdReadsBackIff | src/comms/wire_handler.cpp:32-69 | of a line on one line the robot reads off the appended id exactly when it fits 32 bits, the line fits, and no open quoted field shrinks by between one byte and the length of the id's token |
| CommandLine.TokenSeen | src/comms/wire_handler.cpp:361-390 | what a pointer to the last token sees after tokenizing: the token, or its tail shifted by the bytes an open field lost |
| CommandLine.OpenEscapeLosesTheId | src/comms/wire_handler.cpp:404-424 | a line whose appended id is not read |
| CommandLine.ApartLosesNothing | src/comms/wire_handler.cpp:396-440 | where the appended token comes out as a token of its own, no byte was lost before it |
| CommandLine.TokensMakeNothingUp | src/comms/wire_handler.cpp:396-440 | no token holds a character its line did not |
| CommandLine.LineEnds | src/comms/wire_handler.cpp:312-337 | a line ends at its newline, less a carriage return before it, which counts toward the 239 bytes |
| Tokenizer.DecodeQuoted | src/comms/wire_handler.cpp:408-424 | the quoted field decoded over itself and closed, nothing else touched |
| Tokenizer.TokenizeLine | src/comms/wire_handler.cpp:396-440 | the in-place tokenizer leaves exactly the tokens of the line as NUL-terminated strings, the first few recorded, all counted, and exactly the bytes `Tokenized` says |
| Tokenizer.FindLastFieldToken | src/comms/wire_handler.cpp:63-69 | the loops stop where the last token begins |
| Tokenizer.ParseMandatoryId | src/comms/wire_handler.cpp:32-56 | the loop reads the 32-bit number behind a `#`, or nothing, from the bytes the pointer sees |
| Tokenizer.TakeLine | src/comms/wire_handler.cpp:361-390 | find, tokenize, read: the id is `ReadId` of the line as it came |
| Angles.WrapDegrees | tools/field.py:161-209 | the loop ends on the representative in (-180, 180] |
| Angles.WrapIsUnique | tools/field.py:161-209 | there is no other representative in that interval |
| Angles.WrapIsLeast | tools/field.py:161-209 | no other name of the direction is smaller |
| Angles.TurnTotalIsTrueIff | tools/field.py:212-246 | the measured turn is the true one exactly when it is within half a revolution of the command |
| Angles.YawMark | tools/pivot_truth.py:54-69 | the accumulator sums the wrapped steps |
| Angles.MarksAreTrueIff | tools/turn_sweep.py:33-52 | every mark is the true rotation, over any number of revolutions, if and only if no true step leaves (-180, 180] |
| Angles.MarkToMark | tools/turn_sweep.py:55-91 | so is the difference of any two marks |
| Park.Plan | tools/park.py:65-128 | total rotation at most 180 degrees and at most either approach's; executed exactly it faces the target to twice the tolerance and stands on the point whenever it aimed first; what it does when already there or on track; and exactly when it is empty |
| Park.Approach | tools/park.py:107-128 | the general case is one of the two approaches, never empty, with the same promises |
| Park.ApproachesSumToFullTurn | tools/park.py:53-62 | forward and reverse cost 360 degrees between them |
| Park.ApproachCostsHeading | tools/park.py:92-115 | turning by the heading error alone beats every approach |
| Park.ApproachIsGood | tools/park.py:117-128 | leaving out small pivots keeps cost, heading and landing promises |
| Park.AimedDriveLands | tools/park.py:53-62 | the leg's turn and drive end on the target point, nose first or tail first |
| Park.DriveClosesGap | tools/park.py:95-105 | the straight drive removes the whole along-track offset and keeps the cross-track one |
| Park.EmptyPlanIsClose | tools/park.py:95-105 | an on-track empty plan bounds the distance by the two slacks together |
| Park.EmptyPlanNeedNotBeParked | tools/park.py:65-76 | but not by the position tolerance: a family of counterexamples at the defaults |
| Park.Cost | tools/park.py:131-133 | the loop computes the total commanded rotation |
| Park.Apply | tools/park.py:136-153 | executes the moves one by one; whatever slip and travel, the end heading is the start's plus slip times the sum of the pivots, up to revolutions and in (-180, 180], and without pivots it goes travel times the drives' sum along its heading |
| Park.TurnsBySlip | tools/park.py:143-147 | that heading, for the function the loop computes |
| Park.GoesByTravel | tools/park.py:148-151 | that displacement |
| Park.AppliedJoins | tools/park.py:136-153 | a plan is executed one part after the other, so both hold of each stretch between pivots |
| Field.CheckPath | tools/field.py:96-121 | the offenders are exactly the probed points outside, in order |
| Field.SamplesAreEven | tools/field.py:96-121 | the j-th of n samples of a segment is j n-ths of the way |
| Field.CheckIsExact | tools/field.py:96-121 | with any positive sample count, no offender if and only if every real point of the path is inside |
| Field.NoSamplesChecksOnlyTheStart | tools/field.py:96-121 | with none, only the first waypoint is looked at |
| Field.RequireClearPath | tools/field.py:78-158 | clear exactly when every real point of the path is 12 cm or more from each edge of the 134.3 by 89.3 cm field (asked for no samples, when its start is); a refusal names up to four offenders and counts the rest |
| Field.InsideKeepsOff | tools/field.py:43-44 | inside the usable half-extents is the same as 12 cm from every edge, x along the long side |
| Corners.FindFirstApproach | tools/field.py:343-351 | the first sample from the start within the radius, or the end of the run |
| Corners.FindClosest | tools/field.py:413-417 | the first of the closest samples of a window |
| Corners.FindBlind | tools/field.py:403-421 | whether the sample sits within half a second of a tracking gap |
| Corners.ScoreCorners | tools/field.py:354-424 | each corner searched from after the last pick to the next dot's first approach, in turn until the samples run out; the report is the last score of each tag |
| Corners.PicksAscend | tools/field.py:406-423 | later corners take later samples |
| Corners.ScoreIsLeastDistance | tools/field.py:406-423 | a scored corner's value is the least distance to its dot over its window, from just past the last pick up to the next dot's first approach |
| Corners.UnscoredIff | tools/field.py:420-422 | a corner is unscored exactly when samples ran out or its best is over 3 cm beside a gap |
| Corners.OrderlyLapScoresEveryCorner | tools/field.py:406-423 | a lap that visits the dots in order scores all of them, each within the radius and between its own visit and the next |
| Reposition.Repositioner.Look | tools/reposition.py:62-68 | the camera's next answer |
| Reposition.Repositioner.Go | tools/reposition.py:93-158 | what is sent and how it ends, against any camera: position phase, then heading phase |
| Reposition.Repositioner.GoThere | tools/reposition.py:120-142 | phase 1: a seed and a goto per look that is off target with a clear way |
| Reposition.Repositioner.TurnThere | tools/reposition.py:144-158 | phase 2: a seed and a face per look that is off heading |
| Reposition.PositionThenHeading | tools/reposition.py:93-118 | only seed-goto pairs, then seed-face pairs, neither more than `tries` |
| Reposition.NoGotoAfterFace | tools/reposition.py:102-117 | no goto is ever sent after a face |
| Reposition.EveryGotoIsClear | tools/reposition.py:77-91 | each goto follows a seed from an off-target look, and every real point of the way to the printed target is 12 cm from the edges, to 0.05 cm |
| Reposition.SentAsSeen | tools/reposition.py:69-91 | each seed is within 0.05 of its own look's x, y and yaw, each goto of the target, each face of the heading; and the look was over its tolerance |
| Reposition.HowItEnds | tools/reposition.py:120-158 | lost or refused on the way to the point, lost or within tolerance on the heading, or out of tries, each by the look that decides it; and which look is reported |
| Reposition.RefusalSendsNothingIff | tools/reposition.py:98-100 | a refusal has sent nothing if and only if the first look was refused |
| Reposition.LaterRefusalIff | tools/reposition.py:120-142 | after k clear looks the target keeps off the edges, and the call is refused at look k exactly when the robot, still off target, is measured within 12 cm of one |
| Reposition.RefusedAfterSending | tools/reposition.py:98-100 | such a call, at the default tolerances: refused with a seed and a goto sent |
| Reposition.WentIsDetermined | tools/reposition.py:93-158 | the camera alone decides the trace and the outcome |
| Telemetry.TlmStream.Feed | tools/tlm.py:165-186 | one line's effect on the whole state, and the frame returned |
| Telemetry.TlmStream.FeedHeader | tools/tlm.py:188-199 | the columns in force are the header's |
| Telemetry.TlmStream.FeedFrame | tools/tlm.py:201-218 | orphan, malformed or kept |
| Telemetry.TlmStream.Track | tools/tlm.py:220-231 | the modular gap is added to the loss |
| Telemetry.RowExistsIff | tools/tlm.py:208-215 | a row exists exactly when every value parses |
| Telemetry.RowIsZip | tools/tlm.py:208-211 | each column holds the value at its name's last place in the header |
| Telemetry.EveryFrameLineCounted | tools/tlm.py:102-119 | frame lines equal frames plus orphans plus malformed, the orphans are exactly the frame lines before the first header, and the columns are the latest header's |
| Telemetry.FrameReadAgainstHeader | tools/tlm.py:201-218 | exactly when a line becomes a frame, and that the frame is its values under the header then in force |
| Telemetry.DroppedFromFrames | tools/tlm.py:115-119 | the loss depends on decoded frames alone |
| Telemetry.LossIsExactIff | tools/tlm.py:220-231 | for a sender counting modulo 128 the loss is never overstated, and exact if and only if consecutive decoded frames are under 128 apart |
| PoseCsv.WritePoseCsv | tools/tlm.py:576-625 | the table written, or the first missing quantity |
| PoseCsv.ReadPoseCsv | tools/tlm.py:628-699 | the rows under the first schema that fits, or why not |
| PoseCsv.WhyUnread | tools/tlm.py:660-728 | a table is refused for an empty header, for one no schema fits, or for its first cell in reading order that holds no number, named by row and column, blank or not |
| PoseCsv.WhyUnwritten | tools/tlm.py:612-622 | rows are refused for the first quantity missing, named by row and column |
| PoseCsv.PoseRowFromRaw | tools/tlm.py:702-728 | one row under a plan, or its first bad cell |
| PoseCsv.EncodesIff | tools/tlm.py:612-622 | a row is written exactly when it has every quantity of the schema |
| PoseCsv.WrittenReadsBack | tools/tlm.py:576-640 | whatever was written reads back under the surviving schema: every row, whole quantities exactly, host time to the millisecond, nothing else |
| PoseCsv.ReadByName | tools/tlm.py:639-643 | reading consults nothing but the named columns |
| PoseCsv.RearrangedReadsTheSame | tools/tlm.py:639-643 | permuting columns and adding unknown ones changes nothing |
| PoseCsv.ConvertsBack | tools/tlm.py:702-728 | under any schema, a value within half a wire unit of an integer reads as that integer |
| PoseCsv.ChosenReadsQuantities | tools/tlm.py:531-567 | every header read at all yields the same quantities under the same keys |
| PoseCsv.ChosenByColumns | tools/tlm.py:669-699 | which schema and which plan read a header, by the columns it has |
| PoseCsv.RecordingReadsAs | tools/tlm.py:531-567 | under each schema by its name: which column each quantity is read from and by which factor, to the nearest whole wire unit, host time as it stands |
| PoseCsv.WheelsReadAs | tools/tlm.py:552-557 | the wheel speeds, in mm/s where both such columns are there, else ten times the cm/s ones |
| Legs.Segment | tools/leg_analysis.py:301-344 | returns all maximal moving runs, in order |
| Legs.MovingFlags | tools/leg_analysis.py:328-331 | a sample moves when it left its predecessor's tolerance |
| Legs.MovingIff | tools/leg_analysis.py:295-298 | a sample moves exactly when an axis changed by more than its tolerance, or the heading did however the change is counted in revolutions |
| Legs.LegsShareOnlyHeldEnds | tools/leg_analysis.py:333-344 | two legs share at most an endpoint, and then a held sample |
| Legs.MovingInExactlyOneLeg | tools/leg_analysis.py:333-344 | each moving sample is in one leg and no other |
| Legs.CutOffRunEndsAtLastSample | tools/leg_analysis.py:338-341 | a run cut off by the end of data is a leg up to the last sample |
| Legs.SegmentationIsUnique | tools/leg_analysis.py:301-344 | no other list of legs meets the same description |
| Residues.SolveSolves | tools/make_deploy.py:549-561 | for any moduli with an inverse, the formula has the two remainders asked for and is in range |
| Residues.SolveIsUnique | tools/make_deploy.py:529-531 | and is the only such number |
| RadioName.ReadName | tools/make_deploy.py:497-510 | the loop reads the base-5 value of a trimmed, lower-cased name, or nothing |
| RadioName.WriteName | tools/make_deploy.py:513-520 | the loop writes the name of a value |
| RadioName.ValueOfName | tools/make_deploy.py:513-520 | for any length, what is written is a name with that value |
| RadioName.NameOfValue | tools/make_deploy.py:497-510 | for any length, a name is the one written for its value |
| RadioName.AddressOfDigits | tools/make_deploy.py:491-510 | the address in numbers: letter by letter the five digits, the first the most significant, and 11 and 15 plus the value's remainders by 73 and 241 |
| RadioName.AddressedIff | tools/make_deploy.py:497-510 | a name has an address exactly when it is five such letters |
| RadioName.AddressFindsItsName | tools/make_deploy.py:523-561 | however a name was typed, its address leads back to it |
| RadioName.NameOwnsAddressIff | tools/make_deploy.py:549-561 | an address has a name exactly when that name derives the address |
| RadioName.AddressesAreDistinct | tools/make_deploy.py:529-534 | no two names share an address, and none is on a reserved channel or group |

## Left out

- LeastSquares.SolveLstsq: a refusal is not proved to mean a singular system, because the pivot floor is absolute and a small well-conditioned system is refused too; for the sweeps it is used on, `LeverArm.SpreadDecides` is exact.
- FiberSafety.NoStopLost: is safety only; that the holder goes on to finish its delivery needs a fair scheduler, which is not modelled.
- Fibers: the latch of `estopAll`, boot, and the wheel pulse's internals beyond its bus use; a nonzero rebase only; one rig.
- FiberStops.StaysStoppedIff: one fiber is idle at the stop, to run the tick that shows a pending pulse.
- TickTiming.ReturnsAtDeadline: one ticker and a sleeper that never wakes early; the 64-bit clock does not wrap.
- Session.AckIsReceipt: commands without `#` and on one line, and no counter rewind between HELLOs; the host's use of replies to resynchronise is `Session.LiveReplyResyncs`.
- Session.AnswerIsReceiptIff: which verbs the adapter refuses with which code, it may refuse any accepted command with any of the codes its calls return; and which fields a verb takes, so a line is live by verb and id alone.
- Credentials.StoredIff: the slot range and length limits of the store itself.
- RadioName.ReadName: lower-casing is a parameter that leaves friendly names alone; no Unicode case rules.
- Reposition.Repositioner.Go: what the robot answers is ignored, as the code ignores it; the 0.05 cm in `Reposition.EveryGotoIsClear` is the printing to one decimal, which the gate does not see.
- Telemetry.TlmStream.Feed: splitting a line into words and reading a word as a number (hexadecimal for `flags`) are parameters; loss percentage and duration are not modelled.
- PoseCsv.ReadPoseCsv: the CSV text itself, quoting and float parsing; the fitted header is named, the long error texts are not; blank lines are already skipped.
- `path_deviation`, `closure`, `clears_margin`: easy folds over the recorded rows.
- `classify_leg`, `detect_otos_staleness` and the pairing of legs with targets: single comparisons and a zip.
- Agreement of OTOS and odometry after `seedPose` between a rebase and the next tick: not claimed, the deferred zero can overwrite the seed.
- Motion engine, kernel, odometry, relay, sockets, serial, mDNS, camera daemon, build and flashing tools, charts.
- Floating-point rounding throughout.
