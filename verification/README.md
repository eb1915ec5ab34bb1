# Verified models of Netherwick's stateful cores

Dafny models of eleven self-contained parts of the robot's software, with their
central promises proved for all inputs and all runs. `dafny verify dfyconfig.toml`
checks everything.

| module | what it models |
|---|---|
| `Checksum`, `RateLimit`, `Icmp` | the in-place ICMP echo responder, its checksum and its limiter |
| `Raster`, `Divisors` | the integer line rasteriser and the bit-packed framebuffer of the status display |
| `Recovery` | the contact-recovery state machine of the conductor |
| `Odometry`, `RecoveryClaims` | what the body really does behind the odometry reports recovery goes by |
| `RecoveryClosedLoop` | recovery closed over a body that carries out every command |
| `Candidates`, `Paths` | the model-candidate store as atomic file steps with crashes between them, its ids joined to paths |
| `FeatureRegistry` | the feature registry and its five secondary indexes |
| `Dhcp`, `NetworkRegistry`, `WrappingTime` | the lease pool, the lease ledger and motherbrain registration |
| `LineDecoder` | the compact line decoder of the cockpit handshake |
| `Audio` | the cue scheduler |
| `Coordinator` | the durable consolidation coordinator |
| `Cognition` | the single-flight cognition supervisor |
| `Machine` | machine integers and `Option` |

Objects that the source updates in place are classes here. Their methods are proved
against specification functions or predicates, and what the source promises is proved
about those: for one call, or over runs given as sequences of states and events. Where
an independent description exists it is the contract: a line is the set of pixels within
half a pixel of the segment, a lookup is the filtered scan of the primary map, a push
returns the lines of the stream cut at its line feeds. Where a method is proved against
a function, a lemma says in terms of the inputs, with the constants written out, what
that function answers and when (`ActivateOutcome`, `ProbeEndsIff`, `TakeYieldsIff` and
their like).

Some natural claims do not hold of the code. For these the model keeps the code, a lemma
gives an input, and another says exactly when the claim holds:

- A DISCOVER from a current lessee resets its hold to 30 s (`Dhcp.HourLost`, `Dhcp.DiscoverKeepsHoldIff`).
- Preferring the first slot for the motherbrain never changes which address it gets (`Dhcp.NewcomerGetsLowestFree`).
- The line decoder does not resynchronise at a line feed that ended an unreadable line (`LineDecoder.NextLineIsJoinedIff`), delivers the rest of an overlong line as a line (`LineDecoder.OverlongRestIsALineIff`), and loses the lines a failing push had finished (`LineDecoder.FailureLosesItsChunk`, `LineDecoder.CutsMatter`).
- The completing message of a recovery claims reverse, turn and probe progress that need not have happened, since progress is read off a world coordinate and a heading that may be normalised:
  - The reverse really went its distance, along the body's own heading, exactly when the completing attempt issued 1 to 44 backward commands, the body did not face against x, and the odometry was not reset (`RecoveryClaims.ReverseBehindCompletionIff`). With no such command the episode started by turning (`RecoveryClaims.CompletesFromATurn`), with 45 the body may have been pinned (`RecoveryClaims.CompletesWithoutReversing`), and against x it rolled forwards.
  - The turn really gained 0.30 rad its way exactly when the reported heading has no net crossing of the half turn against it (`Odometry.TurnIsRealIff`): a turn the wrong way can be credited 6.08 rad (`RecoveryClaims.WrongWayTurnCompletes`).
  - The probe really advanced 0.05 m exactly when the body did not face against x and the odometry was not reset (`RecoveryClaims.ProbeBehindCompletionIff`).
- A body that carries out every command need not recover: in the open it does exactly if it faces along x, with a cosine of at least a quarter, at the start or after the first turn (`RecoveryClosedLoop.ObedientBodyCompletesIff`); facing west it never does (`RecoveryClosedLoop.WestboundNeverCompletes`).
- A backend call can be made twice: if the process dies before its outcome is saved, the next tick repeats it, with the same ids (`Coordinator.LostCallIsRepeated`).
- One `Dropped` can stand for two lost cues (`Audio.DroppedIff`).
- A candidate id is joined to a path unchecked, so an operation stays among its own files exactly when the id holds no slash (`Candidates.StaysAtHomeIff`) and keeps the store safe exactly when the id leads where it should (`Candidates.CrashSafetyIff`); the ids "../library/x" and "../received/y" do not (`Candidates.ReceivedIntoTheLibrary`, `Candidates.ActivatedOutsideTheLibrary`).
- A crash inside an operation can leave links and logs in disagreement, although the links stay valid: `Candidates.CutKeepsLedgerIff` says for every operation after which of its steps.
- A line of long deltas can overflow the 16-bit error register, though some far longer ones do not (`Raster.LongLines`, `Raster.LineFitsIff`).
- A registration that is never cleared resolves again 2^31 - 1 ms after it expired (`NetworkRegistry.RegistrationOverhang`), and the reported generation repeats once when its counter wraps (`NetworkRegistry.GenerationChangesIff`).

## Model

| member | source | states |
|---|---|---|
| `Checksum.Ipv4Checksum` | crates/pete-brainstem/src/icmp.rs:115-128 | the loops compute the one's-complement checksum of the slice (word sum, odd byte padded, end-around carry); the 32-bit accumulator cannot overflow and the fold terminates |
| `Checksum.FoldIsResidue` | crates/pete-brainstem/src/icmp.rs:124-127 | the fold is the residue modulo 65535 with 65535 standing for nonzero multiples; only zero folds to zero |
| `Checksum.VerifiesIff` | crates/pete-brainstem/src/icmp.rs:115-128 | a message checks to 0 exactly when its word sum is a positive multiple of 65535 |
| `Checksum.StampVerifies` | crates/pete-brainstem/src/icmp.rs:102-111 | writing the checksum of a message into its zeroed field makes the whole message check to 0, for every length, odd ones and the all-zero body included |
| `Icmp.ProcessEchoFrame` | crates/pete-brainstem/src/icmp.rs:43-113 | classifies every frame (not ICMP, dropped, rate limited, answered) by an explicit condition on its bytes; only a well-formed echo request consults the limiter; an answered frame is a reply to the request, any other is left unchanged |
| `Icmp.EchoRequestIff` | crates/pete-brainstem/src/icmp.rs:48-82 | offset by offset which frames are ICMP and which of them are answered: lengths, checksums, 192.168.4.1, a unicast host, no fragment, echo request of code 0, at most 1280 bytes |
| `Icmp.PingIsAnswered` | crates/pete-brainstem/src/icmp.rs:48-82 | every stamped echo request without options, of any identifier, sequence number and payload up to 1238 bytes, is one of them |
| `Icmp.Answer` | crates/pete-brainstem/src/icmp.rs:87-112 | the in-place rewrite of an accepted frame is a reply to it: addresses swapped, fresh option-free header, same identifier, sequence and payload, both checksums stamped, length within the input, bytes behind it untouched |
| `Icmp.CopyWithin` | crates/pete-brainstem/src/icmp.rs:105-105 | the overlapping copy delivers the bytes as they were before it |
| `Icmp.RewriteHeader` | crates/pete-brainstem/src/icmp.rs:88-103 | addresses swapped, every header field set, checksum stamped, nothing behind byte 34 touched |
| `Icmp.RewriteMessage` | crates/pete-brainstem/src/icmp.rs:104-111 | the message arrives behind the shorter header as an unchanged body under a zero type and code, stamped; the header is untouched |
| `Icmp.ReplyVerifies` | crates/pete-brainstem/src/icmp.rs:102-111 | both checksums of every reply verify |
| `Icmp.ReplyGoesBack` | crates/pete-brainstem/src/icmp.rs:87-113 | a reply goes from 192.168.4.1 to the address and hardware address that asked, unfragmented, with 64 hops, and is never longer than the request |
| `Icmp.ReplyEchoes` | crates/pete-brainstem/src/icmp.rs:104-112 | identifier, sequence number and payload of a reply equal the request's byte for byte, also when the request carried IP options |
| `Icmp.ReplyChecksumShift` | crates/pete-brainstem/src/icmp.rs:106-111 | the reply's ICMP checksum is the request's plus 0x0800 modulo 65535 |
| `Icmp.ReplyIsDropped` | crates/pete-brainstem/src/icmp.rs:48-82 | a reply fed back in, with any of the buffer behind it, is always recognised and dropped |
| `RateLimit.IcmpRateLimit.Allow` | crates/pete-brainstem/src/icmp.rs:23-33 | one limiter decision: a new window after 1000 ms (wrapping difference), at most four replies in it |
| `RateLimit.LongRunRate` | crates/pete-brainstem/src/icmp.rs:9-34 | with time never going back, at most 4 * (T / 1000 + 1) replies are sent up to time T, in every run |
| `RateLimit.BurstBound` | crates/pete-brainstem/src/icmp.rs:9-34 | at most eight replies fall in any half-open second, in every run |
| `RateLimit.EightInOneSecondHappens` | crates/pete-brainstem/src/icmp.rs:23-33 | eight in one second do happen, across a window boundary |
| `RateLimit.RefusalMeansFour` | crates/pete-brainstem/src/icmp.rs:23-33 | a well-formed request is refused only when four replies were sent within the last second |
| `RateLimit.MalformedFramesAreFree` | crates/pete-brainstem/src/icmp.rs:77-85 | striking malformed frames from a run changes neither the limiter nor which request is answered |
| `Raster.DrawLine` | crates/pete-brainstem/src/display.rs:782-809 | for every line whose 16-bit arithmetic does not overflow (exactly: `Raster.LineFitsIff`), termination, and exactly the on-screen pixels of the line's half-pixel band are switched on |
| `Raster.InvertLine` | crates/pete-brainstem/src/display.rs:811-838 | the same, flipping each on-screen pixel of the band exactly once and no other |
| `Raster.WalkVisitsExactlyTheBand` | crates/pete-brainstem/src/display.rs:789-808 | for any endpoints the error-accumulating walk visits every pixel within half a pixel of the ideal segment (with the code's tie rule) and no other |
| `Raster.WalkEndsOnTheEndpoint` | crates/pete-brainstem/src/display.rs:794-808 | the walk stands on the last endpoint after exactly max(dx, dy) steps and at no earlier step, and never revisits a pixel, so max(dx, dy) + 1 pixels are drawn |
| `Raster.WalkInvariant` | crates/pete-brainstem/src/display.rs:793-807 | one pixel per step along the major axis, with the error register inside the half-pixel band |
| `Raster.WalkStaysInBand` | crates/pete-brainstem/src/display.rs:793-807 | the walk stays in the bounding box and within half a pixel of the segment |
| `Raster.VisitedIsOnLine` | crates/pete-brainstem/src/display.rs:789-808 | in all eight octants the placed walk covers exactly the line's pixels |
| `Raster.Ties` | crates/pete-brainstem/src/display.rs:793-807 | which way the shortest lines with a tie go |
| `Raster.LineFitsIff` | crates/pete-brainstem/src/display.rs:782-808 | which lines the 16-bit walk can draw, exactly, from the two deltas and their greatest common divisor: the error register takes all multiples of the divisor within half the major delta, and none of them overflows when doubled or stepped |
| `Raster.ShortLinesFit` | crates/pete-brainstem/src/display.rs:793-806 | every line with deltas up to 10922 is among them |
| `Raster.LongLines` | crates/pete-brainstem/src/display.rs:793-799 | beyond that a line may overflow or not: deltas 10924 and 1 do, 20000 along a diagonal and 16383 along an axis do not, 16384 along an axis do |
| `Raster.SetPixel` | crates/pete-brainstem/src/display.rs:729-736 | switches on the one pixel if it is on screen |
| `Raster.InvertPixel` | crates/pete-brainstem/src/display.rs:738-745 | flips the one pixel if it is on screen |
| `Raster.PixelLayout` | crates/pete-brainstem/src/display.rs:729-745 | the screen is 128 by 32; pixel (x, y) is bit y mod 8 of byte 128 (y / 8) + x |
| `Raster.PixelsDecideTheBuffer` | crates/pete-brainstem/src/display.rs:733-744 | (x, y) to (byte, bit) is one-to-one and onto: two buffers with the same pixels are the same bytes |
| `Raster.InvertingTwiceRestores` | crates/pete-brainstem/src/display.rs:811-838 | inverting the same line twice restores every byte of the buffer |
| `Raster.InvertErasesADrawnLine` | crates/pete-brainstem/src/display.rs:782-838 | inverting a line just drawn over dark pixels restores the buffer |
| `Recovery.SimpleConductor.NextRecoveryAction` | crates/pete-conductor/src/lib.rs:410-541 | the inner loop terminates on every tick and yields the state and command of the tick function, which `Recovery.ReverseEndsIff`, `Recovery.TurnEndsIff` and `Recovery.ProbeEndsIff` state phase by phase over the input |
| `Recovery.SimpleConductor.ChooseRecovery` | crates/pete-conductor/src/lib.rs:156-216 | a direct command, a wheel drop, charging or a critical battery forgets the episode; otherwise one may start (`Recovery.StartsIff`) and its tick decides the action |
| `Recovery.SimpleConductor.BeginEscalatedRecoveryAttempt` | crates/pete-conductor/src/lib.rs:586-604 | the next attempt turns the other way and reverses afresh; after the third it refuses |
| `Recovery.CenterClearance` | crates/pete-conductor/src/lib.rs:783-796 | the clearance is at least 0.30 exactly when every beam of the centre window is, the window being spelled out from the number of beams |
| `Recovery.TriggerMoves` | crates/pete-conductor/src/lib.rs:198-208 | from rest a contact starts an episode by reversing and a cramped stop by moving; a one-sided bump turns away from it |
| `Recovery.StartsIff` | crates/pete-conductor/src/lib.rs:198-208 | from rest an episode starts exactly on a bump, a wall, or something nearer than 0.35 m at less than 0.02 m/s; it reverses first unless merely cramped without a side gap; its whole first state and direction |
| `Recovery.UnderWayGoesOn` | crates/pete-conductor/src/lib.rs:197-208 | an episode under way is not started over by another trigger |
| `Recovery.ClearerDirectionIff` | crates/pete-conductor/src/lib.rs:635-642 | right is the clearer side exactly when something within a metre on the left is nearer than everything on the right |
| `Recovery.SideEscapeGapIff` | crates/pete-conductor/src/lib.rs:798-809 | a side gap is a beam of at least 0.75 m in the left or the right third |
| `Recovery.TickInvariant` | crates/pete-conductor/src/lib.rs:410-541 | every tick outside Idle emits one command, keeps the reachable states, spends motion budget on a motion command, and leaves only by Inspect or Stuck |
| `Recovery.MotionBound` | crates/pete-conductor/src/lib.rs:121-129 | for every odometry and range sequence an episode issues at most 330 motion commands |
| `Recovery.LimitIsReached` | crates/pete-conductor/src/lib.rs:410-541 | some episode issues all 330 |
| `Recovery.EpisodeEnds` | crates/pete-conductor/src/lib.rs:410-541 | within 331 ticks an uninterrupted episode has completed by Inspect or stopped in Stuck |
| `Recovery.StuckIsFinal` | crates/pete-conductor/src/lib.rs:495-504 | Stuck is reached only on attempt 3 and is then absorbing |
| `Recovery.TurnsAlternate` | crates/pete-conductor/src/lib.rs:586-604 | every turn command turns the first way on odd attempts and the other way on even ones |
| `Recovery.PhaseOrigins` | crates/pete-conductor/src/lib.rs:447-529 | what each phase was entered from; Inspect is emitted exactly from a probe whose reported x has gained 0.05 m with the way clear |
| `Recovery.CompletionIsEarned` | crates/pete-conductor/src/lib.rs:447-570 | in every episode the completing Inspect follows, in one attempt, turn commands over which the reported heading gained at least 0.30 rad the commanded way and then forward commands over which the reported x gained at least 0.05 m, with centre clearance at least 0.30 |
| `Recovery.ReverseEndsIff` | crates/pete-conductor/src/lib.rs:418-428 | a reversing tick goes on backing at 0.05 exactly while ticks are left and the reported x has fallen by less than 0.08, 0.12, 0.16 m, by attempt; else it starts the turn: the whole next state and the command |
| `Recovery.TurnEndsIff` | crates/pete-conductor/src/lib.rs:447-463 | a turning tick goes on turning exactly while ticks are left and less than 1.57 rad is gained; else it starts the probe exactly when 0.30 rad is gained and the view is clear, and otherwise costs the attempt: state and command |
| `Recovery.ProbeEndsIff` | crates/pete-conductor/src/lib.rs:488-522 | a probing tick completes exactly when the reported x has gained 0.05 m and every centre beam is at least 0.30; it drives on exactly when the view is clear, less is gained and ticks are left; otherwise the next attempt backs away and turns the other way, or after the third it is stuck |
| `Recovery.NeverForwardWhenBlocked` | crates/pete-conductor/src/lib.rs:488-522 | in every episode no forward command is issued on a tick whose centre window holds a beam under 0.30 |
| `Recovery.BackwardRange` | crates/pete-conductor/src/lib.rs:410-428 | there are no other cases: k is at most 45, and 0 only on the first attempt of an episode that started by turning |
| `Recovery.CompletionHistory` | crates/pete-conductor/src/lib.rs:410-529 | the attempt behind a completion: backward, turn and forward commands in a row, and the reports it goes by; short of 45 backward commands x has fallen by the distance of the attempt |
| `Odometry.AdapterReports` | crates/pete-runtime/src/runtime/real_robot/body.rs:710-740 | the pose adapter reports the real heading up to full turns, within half a turn either way |
| `Odometry.ReverseIsRealIff` | crates/pete-conductor/src/lib.rs:548-550 | a straight reverse behind a completion, short of 45 ticks, really backed the distance of the attempt along the heading exactly if the cosine of the heading is not negative |
| `Odometry.TurnIsRealIff` | crates/pete-conductor/src/lib.rs:556-570 | the turn behind a completion really gained 0.30 rad the commanded way exactly if the reported heading has no net crossing of the half turn against it |
| `Odometry.ProbeIsRealIff` | crates/pete-conductor/src/lib.rs:552-554 | a straight probe behind a completion really advanced 0.05 m along the heading exactly if the cosine of the heading is not negative |
| `Odometry.RollingAsToldIsReal` | crates/pete-conductor/src/lib.rs:548-554 | on any course, straight or curved, a completion without reset or spent reverse has really backed and advanced its distances if the body never rolled against its commands |
| `RecoveryClaims.ReverseBehindCompletionIff` | crates/pete-conductor/src/lib.rs:418-529 | on each attempt, every completion after k backward commands along a direction of cosine c really backed 0.08, 0.12 or 0.16 m along its heading if and only if k is from 1 to 44, c is not negative and the odometry was not reset during them |
| `RecoveryClaims.TurnBehindCompletionIff` | crates/pete-conductor/src/lib.rs:447-463 | the crossings tell whether the turn of a completion was really made if and only if the odometry was not reset during it |
| `RecoveryClaims.ProbeBehindCompletionIff` | crates/pete-conductor/src/lib.rs:486-491 | every completion whose probe kept a direction of cosine c really advanced 0.05 m if and only if c is not negative and the odometry was not reset during it |
| `RecoveryClaims.WrongWayTurnCompletes` | crates/pete-runtime/src/runtime/real_robot/body.rs:710-740 | a body told to turn left that turns 0.2 rad to the right across the half turn completes |
| `RecoveryClaims.CompletesFromATurn` | crates/pete-conductor/src/lib.rs:200-208 | a cramped stop with no gap to the side starts by turning and completes with no backward command on reports of a quarter turn and an advance |
| `RecoveryClaims.CompletesWithoutReversing` | crates/pete-conductor/src/lib.rs:418-529 | on any attempt an episode can complete although the body never rolled backwards and nothing was reset |
| `RecoveryClosedLoop.ObedientBodyCompletesIff` | crates/pete-conductor/src/lib.rs:410-529 | a body in the open that carries out every command (0.01 m along its heading for a Go, a quarter turn for a TurnTo) completes exactly if the cosine of its heading is at least a quarter at the start or after one turn the first way; otherwise, and only then, it ends in Stuck |
| `RecoveryClosedLoop.WestboundNeverCompletes` | crates/pete-conductor/src/lib.rs:530-538 | such a body facing against x ends in Stuck, whatever way it turns first |
| `RecoveryClosedLoop.LoopExists` | crates/pete-conductor/src/lib.rs:410-541 | the loop can be closed from every start, for any number of ticks |
| `Candidates.CandidateStore.Receive` | crates/pete-higher-brain/src/candidate.rs:252-267 | takes exactly the file steps of the receive plan, at the places the manifest's id leads to, and none when refused |
| `Candidates.CandidateStore.Check` | crates/pete-higher-brain/src/candidate.rs:269-287 | looks where the id leads, records Validated or Rejected and reports which |
| `Candidates.CandidateStore.Stage` | crates/pete-higher-brain/src/candidate.rs:289-302 | takes exactly the file steps of the stage plan, from and to the places the id leads to, and none when refused |
| `Candidates.CandidateStore.Activate` | crates/pete-higher-brain/src/candidate.rs:304-334 | takes exactly the link and record steps of the activation plan, in that order, with the target wherever the id leads, and none when refused |
| `Candidates.CandidateStore.Rollback` | crates/pete-higher-brain/src/candidate.rs:336-358 | takes exactly the link and record steps of the rollback plan, in that order, and none when refused |
| `Candidates.CandidateStore.CopyImmutableTree` | crates/pete-higher-brain/src/candidate.rs:402-435 | copies in whatever order the directory lists, through a staging area, and publishes by one step; an existing copy must hold the same manifest |
| `Candidates.CopyPublishes` | crates/pete-higher-brain/src/candidate.rs:402-420 | a finished copy publishes exactly the source tree and changes nothing else that can be seen |
| `Candidates.ValidIff` | crates/pete-higher-brain/src/candidate.rs:162-191 | a tree is valid exactly with a manifest of schema 1, complete and not for the brainstem, its completion marker, and every listed file in place with the listed content |
| `Candidates.RunsIff` | crates/pete-higher-brain/src/candidate.rs:192-218 | and runs here exactly when its versions, target and runtimes are supported |
| `Candidates.SameManifestSameFiles` | crates/pete-higher-brain/src/candidate.rs:402-409 | valid copies of one manifest agree in every file it lists |
| `Candidates.ReceiveOutcome` | crates/pete-higher-brain/src/candidate.rs:252-267 | receiving succeeds exactly if authorised, for a valid candidate whose place is free or holds the same manifest; its whole effect, and none when refused |
| `Candidates.CheckOutcome` | crates/pete-higher-brain/src/candidate.rs:269-287 | a check succeeds exactly if authorised, for a received candidate that runs here; it records Validated or Rejected accordingly and nothing else |
| `Candidates.StageOutcome` | crates/pete-higher-brain/src/candidate.rs:289-302 | staging succeeds exactly if authorised, for a received candidate that runs here and whose library place is free or holds the same manifest; its whole effect |
| `Candidates.ActivateOutcome` | crates/pete-higher-brain/src/candidate.rs:304-334 | activation succeeds exactly if authorised, approved under the operator policy, and for a library candidate that runs here; both links and all records after it, and no change when refused |
| `Candidates.RollbackOutcome` | crates/pete-higher-brain/src/candidate.rs:336-358 | a rollback succeeds exactly if authorised, with both links set and a previous candidate that runs here; both links and all records after it |
| `Candidates.ChangesAreAuthorised` | crates/pete-higher-brain/src/candidate.rs:252-358 | in every run, cut operations included: an unauthorised operation changes nothing; current moves only by an authorised activation, approved where the policy asks for it, or an authorised rollback, and only to a candidate that runs here; copies appear only by receiving and staging |
| `Candidates.StoreHoldsGenuineCopies` | crates/pete-higher-brain/src/candidate.rs:252-358 | at every boundary of every run over ids without a slash both links name library copies that run here, and every copy is valid and under its own id |
| `Candidates.CrashSafety` | crates/pete-higher-brain/src/candidate.rs:252-358 | for an id without a slash: interrupting any operation after any of its file steps leaves every published tree complete and filed under its own id, every link naming a library candidate that validates, and nothing published lost or altered |
| `Candidates.CrashSafetyIff` | crates/pete-higher-brain/src/candidate.rs:252-358 | for any id: an operation is safe at all its step boundaries exactly when a new copy leads outside the store's directories or to its own id, and an activation leads into the library; an id without a slash always does |
| `Candidates.StaysAtHomeIff` | crates/pete-higher-brain/src/candidate.rs:255-258 | an operation that does anything touches only the copy, library entry and log meant for its id exactly when the id holds no slash |
| `Candidates.ReceivedIntoTheLibrary` | crates/pete-higher-brain/src/candidate.rs:255-265 | the id "../library/x" is received into the library, where "x" can be activated without having been received or staged |
| `Candidates.ActivatedOutsideTheLibrary` | crates/pete-higher-brain/src/candidate.rs:314-324 | the id "../received/y" activates a copy that is not in the library |
| `Paths.ResolveIsJoin` | crates/pete-higher-brain/src/candidate.rs:364-366 | the place computed for an id is what joining the id and its suffix to the directory comes to, absolute ids and ".." included |
| `Paths.ResolvesToItselfIff` | crates/pete-higher-brain/src/candidate.rs:255-258 | an id joined to a directory stays in it under its own name exactly when it holds no slash |
| `Paths.ResolvesThrough` | crates/pete-higher-brain/src/candidate.rs:255-258 | what stands before a slash is followed first: nothing leads to the root, "." nowhere, ".." up, a name down |
| `Candidates.PassedStatesAreSafe` | crates/pete-higher-brain/src/candidate.rs:252-358 | the states the store's methods record after each file step are the crash states, all safe for an id without a slash |
| `Candidates.RunsAreSafe` | crates/pete-higher-brain/src/candidate.rs:252-358 | the same at every step boundary of every run over ids without a slash, with crashes anywhere |
| `Candidates.RollbackExchanges` | crates/pete-higher-brain/src/candidate.rs:336-358 | with both links set a rollback always succeeds and exchanges them |
| `Candidates.TwoRollbacksRestore` | crates/pete-higher-brain/src/candidate.rs:336-358 | two rollbacks restore both links |
| `Candidates.RollbackUndoesActivation` | crates/pete-higher-brain/src/candidate.rs:304-358 | activating, whatever the id leads to, and rolling back returns to the candidate that was active |
| `Candidates.CompletedKeepsLedger` | crates/pete-higher-brain/src/candidate.rs:252-392 | for an id without a slash, a completed operation leaves exactly the current candidate standing activated in the logs, after being received and staged |
| `Candidates.CompletedRunsKeepLedger` | crates/pete-higher-brain/src/candidate.rs:252-392 | the same over every run of completed operations on such ids |
| `Candidates.ProgressMeans` | crates/pete-higher-brain/src/candidate.rs:368-392 | the log of a candidate that has come that far shows received, staged, activated in that order |
| `Candidates.CutKeepsLedgerIff` | crates/pete-higher-brain/src/candidate.rs:252-358 | after which steps each operation can be cut and leave links and logs in agreement: a copy anywhere but between its publication and its record (unless the log shows it already), an activation over another candidate before the current link moves, one over the same candidate before its first record, a first one and a rollback nowhere (a rollback between equal links before its first record) |
| `FeatureRegistry.FeatureRegistry.Insert` | crates/pete-core/src/lib.rs:341-352 | replaces or adds the feature, returns the previous one, and keeps all five indexes exact: each files exactly the ids whose current feature has the key, with no empty bucket or dangling id |
| `FeatureRegistry.FeatureRegistry.Extend` | crates/pete-core/src/lib.rs:354-358 | inserts in order, later versions winning, with the indexes kept exact |
| `FeatureRegistry.LastInsertedWins` | crates/pete-core/src/lib.rs:354-358 | after extending, an id has the last feature given under it, or what it had before |
| `FeatureRegistry.FeatureRegistry.AddToIndexes` | crates/pete-core/src/lib.rs:403-430 | adds the id under every key of the feature in every dimension |
| `FeatureRegistry.FeatureRegistry.RemoveFromIndexes` | crates/pete-core/src/lib.rs:432-448 | removes the id under every key of the feature in every dimension |
| `FeatureRegistry.UnfiledAllFiles` | crates/pete-core/src/lib.rs:440-462 | removing an id under a list of keys, duplicates or not, leaves exactly the index without them and no emptied bucket |
| `FeatureRegistry.ReplacingFiles` | crates/pete-core/src/lib.rs:341-352 | taking the previous version out and putting the new one in yields the index of the updated features |
| `FeatureRegistry.IndexIsUnique` | crates/pete-core/src/lib.rs:319-326 | the features determine each index: the history of insertions leaves no trace |
| `FeatureRegistry.FeatureRegistry.By` | crates/pete-core/src/lib.rs:364-401 | an indexed lookup is the filtered scan of the primary map in id order |
| `FeatureRegistry.HasIff` | crates/pete-core/src/lib.rs:403-430 | the keys of a feature in the five dimensions, all of its vectors included |
| `FeatureRegistry.FeatureRegistry.ByTimeWindow` | crates/pete-core/src/lib.rs:368-373 | the time window is the filtered scan of the primary map in id order |
| `FeatureRegistry.ScanIsUnique` | crates/pete-core/src/lib.rs:368-401 | there is only one such scan |
| `Dhcp.DhcpLeaseState.GrantFor` | crates/pete-brainstem/src/dhcp.rs:124-146 | one message: expired leases cleared, then DISCOVER, REQUEST or RELEASE as specified, anything else ignored |
| `Dhcp.DhcpLeaseState.Reserve` | crates/pete-brainstem/src/dhcp.rs:148-175 | renews the client's own lease or takes a free slot, or refuses |
| `Dhcp.DhcpLeaseState.Release` | crates/pete-brainstem/src/dhcp.rs:177-184 | frees the client's slot and no other |
| `Dhcp.DhcpLeaseState.ClearExpired` | crates/pete-brainstem/src/dhcp.rs:186-195 | empties exactly the expired slots |
| `Dhcp.EventKeepsPool` | crates/pete-brainstem/src/dhcp.rs:124-196 | slot i only holds 192.168.4.(2 + i) and no identity holds two slots |
| `Dhcp.RunKeepsPool` | crates/pete-brainstem/src/dhcp.rs:124-196 | the same in every run |
| `Dhcp.AddressesGranted` | crates/pete-brainstem/src/dhcp.rs:124-175 | in every run the addresses granted are 192.168.4.2 to 192.168.4.9, never that of the access point, and only a DISCOVER or REQUEST gets one |
| `Dhcp.RefusedIff` | crates/pete-brainstem/src/dhcp.rs:148-175 | DISCOVER and REQUEST are refused exactly when all eight slots are held, unexpired, by other clients |
| `Dhcp.GrantHolds` | crates/pete-brainstem/src/dhcp.rs:124-175 | only types 1 and 3 are granted, by 2 and 5; the slot named is then held for the client for 30 s or an hour, or to the last instant of the clock |
| `Dhcp.HoldSurvives` | crates/pete-brainstem/src/dhcp.rs:124-196 | while a hold runs its client gets the same address and nobody else does; only its client can change or release it |
| `Dhcp.AddressIsHeld` | crates/pete-brainstem/src/dhcp.rs:124-196 | in every run a client asking again within the hold of its own last grant gets the same address, and until then nobody else is granted it, unless it released |
| `Dhcp.DiscoverKeepsHoldIff` | crates/pete-brainstem/src/dhcp.rs:127-156 | a DISCOVER from a current lessee keeps the hold to its end exactly when that is at most 30 s away |
| `Dhcp.HourLost` | crates/pete-brainstem/src/dhcp.rs:127-156 | a one-hour lease can be given to another client 31 s after it was acknowledged |
| `Dhcp.NewcomerGetsLowestFree` | crates/pete-brainstem/src/dhcp.rs:158-174 | a client without a lease gets the lowest free address; the motherbrain preference never changes that |
| `Dhcp.LongIdentifiersCollideIff` | crates/pete-brainstem/src/dhcp.rs:47-64 | identifiers of 32 bytes or more are told apart exactly by their first 32 bytes, shorter ones as a whole; without one the hardware address counts |
| `NetworkRegistry.IdentityHash` | crates/pete-brainstem/src/network_registry.rs:15-22 | computes the nonzero 32-bit FNV-1a hash of the identity |
| `NetworkRegistry.DhcpIdentityHash` | crates/pete-brainstem/src/network_registry.rs:29-37 | equals the identity hash of the identity's lower-case hexadecimal text |
| `NetworkRegistry.KnownHash` | crates/pete-brainstem/src/network_registry.rs:15-22 | basis, exclusive or and prime give the published hash of "a" |
| `NetworkRegistry.KnownText` | crates/pete-brainstem/src/network_registry.rs:29-37 | the text form is lower-case, high digit first |
| `NetworkRegistry.HexTextIsInjective` | crates/pete-brainstem/src/network_registry.rs:29-37 | the hexadecimal text tells identities apart |
| `NetworkRegistry.Registry.RecordLease` | crates/pete-brainstem/src/network_registry.rs:24-27 | files the lease under the hash of the hexadecimal text |
| `NetworkRegistry.Registry.RecordLeaseHash` | crates/pete-brainstem/src/network_registry.rs:39-53 | updates exactly the id's own slot, else an empty one, else slot id mod 8 |
| `NetworkRegistry.RecordKeepsUnique` | crates/pete-brainstem/src/network_registry.rs:39-53 | nonzero lease ids stay unique and the recorded id is found where it was filed |
| `NetworkRegistry.SlotFor` | crates/pete-brainstem/src/network_registry.rs:39-49 | the slot is the first of that id, else the first empty one, else id mod 8 |
| `NetworkRegistry.EvictedIff` | crates/pete-brainstem/src/network_registry.rs:39-53 | a record pushes another lease out exactly when the ledger is full of others and that lease sits in slot id mod 8 |
| `NetworkRegistry.Registry.RegisterMotherbrain` | crates/pete-brainstem/src/network_registry.rs:65-106 | succeeds exactly for the holder of a live lease of that address, sets the registration with its capped time to live, keeps the generation for an unchanged live registration and advances it otherwise; changes nothing on failure |
| `NetworkRegistry.Ttl` | crates/pete-brainstem/src/network_registry.rs:84-85 | the grant is the most whole seconds that are asked for and that the lease covers, or one when there are none |
| `NetworkRegistry.Registry.ResolveMotherbrain` | crates/pete-brainstem/src/network_registry.rs:108-114 | returns the registered address exactly while the registration is set and its deadline not reached |
| `NetworkRegistry.Registry.ClearRegistration` | crates/pete-brainstem/src/network_registry.rs:115-125 | unsets the registration and leaves the generation |
| `NetworkRegistry.Registry.LeaseIdentityIsMotherbrain` | crates/pete-brainstem/src/network_registry.rs:55-58 | true exactly for the registered lease identity |
| `NetworkRegistry.IpRoundTrip` | crates/pete-brainstem/src/network_registry.rs:77-113 | an address survives the trip through its 32-bit word |
| `NetworkRegistry.RegistrationWindow` | crates/pete-brainstem/src/network_registry.rs:84-112 | a registration resolves for exactly the time asked for when the lease covers it, else for the whole seconds the lease has left, else for one second, at all times up to 2^31 - 2 ms on |
| `NetworkRegistry.RegistrationOverhang` | crates/pete-brainstem/src/network_registry.rs:84-112 | it outlives its lease by at most 999 ms, no product overflows, and left alone it resolves again 2^31 - 1 ms after its end |
| `WrappingTime.DeadlineWindow` | crates/pete-brainstem/src/network_registry.rs:127-129 | a deadline up to 2^31 + 1 ms ahead is unreached before it, reached for 2^31 - 1 ms after it, and then seems unreached again until the counter comes round |
| `NetworkRegistry.GenerationChangesIff` | crates/pete-brainstem/src/network_registry.rs:91-98 | a changed registration is reported under a new generation exactly unless the stored counter is zero |
| `LineDecoder.CompactLineDecoder.Push` | crates/pete-cockpit/src/handshake.rs:30-56 | returns the non-empty lines of the reference splitting and keeps its tail, or stops at the first unreadable or overlong line; the buffer never exceeds the limit |
| `LineDecoder.ValidUtf8Iff` | crates/pete-cockpit/src/handshake.rs:36-40 | a line is readable exactly when it is the encoding of Unicode scalar values by section 3 of RFC 3629 |
| `LineDecoder.SplitRejoins` | crates/pete-cockpit/src/handshake.rs:33-53 | the lines and tail of the reference splitting, joined by line feeds, are the stream without carriage returns |
| `LineDecoder.PartsAreUnbroken` | crates/pete-cockpit/src/handshake.rs:33-53 | and no part holds a line feed or carriage return, so these are the parts |
| `LineDecoder.OneMoreLine` | crates/pete-cockpit/src/handshake.rs:42-44 | of the lines, those that are not empty are kept, in order |
| `LineDecoder.PushSucceedsIff` | crates/pete-cockpit/src/handshake.rs:30-56 | a push succeeds exactly when every finished line is UTF-8 and nothing exceeds the limit |
| `LineDecoder.ChunkingIsInvisible` | crates/pete-cockpit/src/handshake.rs:30-56 | from any state of the decoder, however a stream is cut into pushes, they all succeed exactly when the stream is acceptable as a whole, and then return its non-empty lines in order and leave its tail in the buffer |
| `LineDecoder.NextLineIsJoinedIff` | crates/pete-cockpit/src/handshake.rs:35-41 | after a UTF-8 error the next line is delivered joined to the unreadable one, exactly when the two together are readable and short enough |
| `LineDecoder.HalvesAreJoined` | crates/pete-cockpit/src/handshake.rs:35-41 | the halves of a readable line that a line feed cut where it left the first unreadable come out joined |
| `LineDecoder.SplitCharacterIsHealed` | crates/pete-cockpit/src/handshake.rs:35-41 | a character split by the failing line feed comes out whole |
| `LineDecoder.OverlongRestIsALineIff` | crates/pete-cockpit/src/handshake.rs:46-50 | after an overlong line the rest of it in the next chunk is delivered as a line of its own exactly when it is readable and short enough |
| `LineDecoder.SurvivorsAreReturned` | crates/pete-cockpit/src/handshake.rs:30-56 | over any chunks, failing ones included, the lines returned and the buffer left are a function of the cuts: a chunk counts in full or not at all |
| `LineDecoder.FailureLosesItsChunk` | crates/pete-cockpit/src/handshake.rs:31-50 | the byte a stream breaks at does not depend on the cuts; what comes out are the lines finished by the last cut before it, and those finished since are lost |
| `LineDecoder.CutsMatter` | crates/pete-cockpit/src/handshake.rs:31-41 | an unreadable second line takes a readable first one with it exactly if no cut falls between them |
| `Audio.AudioAnnunciator.Request` | crates/pete-brainstem/src/audio.rs:166-188 | one request: suppressed while silent, else placed in its slot with the answer Ready, Queued or Dropped |
| `Audio.AudioAnnunciator.Enqueue` | crates/pete-brainstem/src/audio.rs:190-216 | the replacement rules of the two slots |
| `Audio.PriorityTable` | crates/pete-brainstem/src/audio.rs:38-64 | the priority of every cue, and which are urgent |
| `Audio.RequestOutcome` | crates/pete-brainstem/src/audio.rs:166-216 | for every request the slots after it and the answer, with playback given by its length and the time since it began |
| `Audio.AudioAnnunciator.TakeReady` | crates/pete-brainstem/src/audio.rs:218-223 | takes the urgent cue before the informational one, never while silent or busy; `Audio.TakeYieldsIff` says exactly when and which |
| `Audio.AudioAnnunciator.MarkPlayed` | crates/pete-brainstem/src/audio.rs:232-238 | sets the playback deadline, wrapping, and nothing else |
| `Audio.TakeYieldsIff` | crates/pete-brainstem/src/audio.rs:218-223 | a take yields a cue exactly when not silent, the playback deadline is reached and a slot is full; the urgent one first; nothing else changes |
| `Audio.NothingDuringPlayback` | crates/pete-brainstem/src/audio.rs:218-240 | in every run, after a cue of ms milliseconds is started no take in [start, start + ms) yields anything |
| `Audio.DeliveredAfterPlayback` | crates/pete-brainstem/src/audio.rs:218-240 | and from its end on, for 2^31 - 1 ms, a take delivers what is pending unless silenced |
| `Audio.SilenceIsSilent` | crates/pete-brainstem/src/audio.rs:156-223 | in every run, while silenced every request is suppressed, no take yields and nothing is pending |
| `Audio.AudioAnnunciator.SetSilent` | crates/pete-brainstem/src/audio.rs:156-164 | silencing empties both slots and reports how many cues it dropped |
| `Audio.BusyDecidesOnlyTheAnswer` | crates/pete-brainstem/src/audio.rs:166-188 | playback decides only between Ready and Queued; Ready means idle with both slots empty |
| `Audio.RequestConserves` | crates/pete-brainstem/src/audio.rs:166-216 | what was pending and the new cue are what is pending now and what was lost: the weaker urgent cue (the older among equals) and displaced information |
| `Audio.DroppedIff` | crates/pete-brainstem/src/audio.rs:190-216 | Dropped is reported exactly when a cue is lost, and stands for two exactly when an urgent cue meets both slots full |
| `Audio.CuesAreConserved` | crates/pete-brainstem/src/audio.rs:156-223 | in every run the unsuppressed requests are, cue by cue, the taken, the pending, the dropped by silencing and the lost, with Dropped <= lost <= 2 * Dropped |
| `Audio.UrgentSlotIsForemost` | crates/pete-brainstem/src/audio.rs:38-64 | in every run the urgent slot holds the highest-priority urgent request since it was last empty, the newest among equals |
| `Audio.EStopIsNext` | crates/pete-brainstem/src/audio.rs:190-223 | an unsilenced emergency stop is delivered by the first take that finds playback at an end, whatever else is requested; earlier takes yield nothing |
| `Coordinator.ConsolidationCoordinator.StartCycle` | crates/pete-higher-brain/src/coordinator.rs:102-154 | starts exactly when docked, charging, powered, still and authorised, with no cycle pending, and saves a fresh cycle |
| `Coordinator.ConsolidationCoordinator.TickCycle` | crates/pete-higher-brain/src/coordinator.rs:232-312 | makes at most the one call of the phase, then advances, waits or counts a retry, and saves |
| `Coordinator.ConsolidationCoordinator.TickWithPowerAssessment` | crates/pete-higher-brain/src/coordinator.rs:196-230 | pauses in place when power is not ready, else ticks |
| `Coordinator.ConsolidationCoordinator.ApproveActivation` | crates/pete-higher-brain/src/coordinator.rs:314-325 | accepts exactly an authorised approval while awaiting activation |
| `Coordinator.ConsolidationCoordinator.Open` | crates/pete-higher-brain/src/coordinator.rs:93-100 | reloads the cycle from the state file |
| `Coordinator.CallsAreOrderly` | crates/pete-higher-brain/src/coordinator.rs:232-312 | in every run, with the process dying between a call and its save included, the calls of a cycle come in phase order, none is repeated once its success is saved, one repeated is the last before and word for word the same, each carries the forebrain, bundle, job and candidate ids earlier calls yielded, and candidates are activated only after an authorised approval in that cycle |
| `Coordinator.CallsArePermitted` | crates/pete-higher-brain/src/coordinator.rs:102-154 | whenever a call has been made, the run holds a start taken with all four scopes and a stopped, docked, charging, externally powered, suitable robot without motion authority; and for an activation call an approval after it, with the activation scope, given while waiting for it |
| `Coordinator.CycleIff` | crates/pete-higher-brain/src/coordinator.rs:102-154 | there is a cycle exactly if such a start was taken |
| `Coordinator.ApprovedIff` | crates/pete-higher-brain/src/coordinator.rs:314-325 | an approval is on record exactly if such an approval was given since the last start |
| `Coordinator.TickMoves` | crates/pete-higher-brain/src/coordinator.rs:232-312 | in every run when a tick fails and counts a retry, when it waits, and that it moves to the next phase otherwise |
| `Coordinator.PhaseOrder` | crates/pete-higher-brain/src/coordinator.rs:237-282 | the ten phases in their order |
| `Coordinator.CycleAwaitsActivation` | crates/pete-higher-brain/src/coordinator.rs:232-312 | a started cycle whose calls are answered comes to await activation in seven ticks; all its calls and their arguments |
| `Coordinator.ApprovedCycleCompletes` | crates/pete-higher-brain/src/coordinator.rs:232-325 | approved, it activates exactly the returned candidates and completes by the second tick |
| `Coordinator.LostCallIsRepeated` | crates/pete-higher-brain/src/coordinator.rs:232-312 | when the process dies after a call and before the save, nothing but the call has happened: the next tick makes the same call with the same ids |
| `Coordinator.PhasesAdvance` | crates/pete-higher-brain/src/coordinator.rs:232-325 | short of a new start no operation moves a phase back or past one, and it moves only past a call whose success was saved or an approval |
| `Coordinator.UnreadyIsInert` | crates/pete-higher-brain/src/coordinator.rs:206-227 | an unready assessment makes no call and moves nothing, and with a ready one the tick is the plain one |
| `Coordinator.ReopeningIsInvisible` | crates/pete-higher-brain/src/coordinator.rs:93-100 | a reopening anywhere in a run, with any operations before and after it, changes nothing |
| `Cognition.AsyncCognitionSupervisor.Submit` | crates/pete-cognition/src/lib.rs:656-674 | refuses malformed or expired requests, is busy while one is in flight, else hands the router to the task |
| `Cognition.SubmitAnswersIff` | crates/pete-cognition/src/lib.rs:478-496 | exactly which requests are invalid and when a valid one is busy; only a taken one changes the state |
| `Cognition.AsyncCognitionSupervisor.Poll` | crates/pete-cognition/src/lib.rs:685-731 | returns the finished response as `Cognition.PollAnswersIff` says, and takes the router back |
| `Cognition.PollAnswersIff` | crates/pete-cognition/src/lib.rs:685-731 | rejected as cancelled if the token was; else stale if the deadline has passed or the snapshot is obsolete; else as dispatched, with nothing else changed; no response before the task ends or after a panic |
| `Cognition.EveryRequestIsAnsweredOnce` | crates/pete-cognition/src/lib.rs:656-731 | in every run each submission taken is answered once, lost to a panic, or still in flight |
| `Cognition.DispatchAcceptsIff` | crates/pete-cognition/src/lib.rs:573-595 | a dispatched response is accepted exactly when the provider itself answered this request and snapshot, in time, with a complete or partial result, uncancelled in the router |
| `Cognition.ProviderAnswerBecomes` | crates/pete-cognition/src/lib.rs:573-595 | exactly when a provider response is rejected, stale, accepted or failed |
| `Cognition.RouterAnswers` | crates/pete-cognition/src/lib.rs:753-891 | the status, time and disposition of every answer the router gives for itself, and that a cancellation is spent by it |
| `Cognition.SingleFlight` | crates/pete-cognition/src/lib.rs:617-732 | in every run the supervisor holds exactly one of its router and a request in flight |
| `Cognition.AcceptedIsFresh` | crates/pete-cognition/src/lib.rs:685-731 | in every run an accepted response answers the last request whose submission was taken, from the snapshot current at the poll, completed and polled by the deadline, with no cancel of its token since submission |
| `Cognition.PollAcceptsIff` | crates/pete-cognition/src/lib.rs:697-730 | a poll accepts exactly when the task finished with an accepted response and no cancel, deadline or newer snapshot has overtaken it |

## Left out

- Floating-point rounding and NaN in the conductor: quantities are real numbers.
- The rest of the conductor's choice (docking, danger, proposals, curiosity), and the reason texts of decisions.
- RecoveryClaims.ReverseBehindCompletionIff: is about reverses along one direction; on a curved course, where no single cosine can be named, `Odometry.RollingAsToldIsReal` is what is proved.  The same for the probe.
- Reports that miss motion: a status without odometry, the first report of a source, and a source changed during an episode.
- Glyphs, text, rectangles, circles and page choice of the display; only lines and pixels are modelled.
- Raster.DrawLine: does not model a line whose 16-bit arithmetic overflows, where the source panics or wraps according to its build; `Raster.LineFitsIff` says which lines these are.
- Raster.InvertLine: the same.
- Candidates.CrashSafety: a crash is the end of the process and not of the machine; a copy is renamed into place before its files are synced, so a power cut may still leave it incomplete.
- Content hashes and JSON: a digest is modelled by the content it was computed from, a provenance by its JSON text.
- I/O failures inside a file step, and outside changes to published trees; temporary link and JSON files, which nothing reads, are part of the atomic step that renames them.
- What else the file system knows of a path: directories named in an id are taken to exist and to be no links, a copy inside the tree of another is a place of its own, names it refuses and a relative store root are not modelled.
- The candidate builder and the training request types of the candidate store.
- Directory nesting of a candidate tree: a tree is a map from relative paths to contents.
- Status notifications, diagnostics counts and interleavings inside one function of the network registry.
- Tone tables and names of cues; a cue's duration is a parameter.
- Conversion of decoded lines to text: lines are kept as bytes, with UTF-8 validity spelled out.
- Event lists, error texts, time stamps, cycle ids and the stored power assessment of the coordinator; a backend call is an oracle.
- The power-assessment form of starting a cycle, which fills in the readiness record and then starts.
- Provider choice, health and registry snapshots of the cognition router; the outcome of a dispatch is an oracle.
- Sockets, UART, the runtime, status and safety logic around these parts.
