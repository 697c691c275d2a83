# The multipath data path, modelled and proved

This project models the parts of the multipath daemon that decide what happens to a
packet, and proves what those parts are for. It has five pieces.

- **Receiving.** A duplicate filter (`Dedup`), then a resequencer that puts flows
  sprayed over several paths back in order. One flow bucket is specified on unbounded
  positions (`FlowBucket`, `FlowMoves`, `FlowTimes`, `FlowRuns`, `FlowMarks`, and
  `FlowInputs`, which runs the inputs on which a promise fails; `FlowArrivals` and
  `FlowGaps`, which say case by case, in numbers, what becomes of an arrival and when a
  gap is given up); the ring buffer that moves under it is a class proved against that
  specification (`Ring`, `RingBucket`); four thousand of them, the memory bound and the
  sweep are a class again (`BucketTable`, `Reseq`, `ReseqPushes`), with an account of
  every payload (`ReseqAccounts`) and the length of the hold over whole runs
  (`HoldRuns`). `Session` and `DataPath` put the filter and the resequencer in a row.
  `Sender` is what the other end numbers, and `EndToEnd` runs the two together, so that
  what is written can be told as packets of the sender (`FlowSources` is that account
  for one bucket).
- **Sending.** The token bucket with three strict-priority bands, as a step system over
  the regions its lock protects (`Shaper`, `ShaperRate`), by the classes of packets
  (`ShaperClasses`), and as a class (`PathShaper`).
- **The wire.** The version-dependent header as functions (`Wire`), which byte carries
  what (`WireLayout`), its round trips (`WireTrips`), the append and parse loops
  (`WireCode`), and the ratchet by which two builds find the version both read
  (`Negotiation`).
- **Deciding.** The three-state path machine (`PathState`, `PathMachine`), the primary
  path and its handovers (`Ranking`, `Scheduler`, `SchedulerRuns`, `SchedulerChoices`,
  `PathScheduler`), the bulk fill order (`Cascade`, `CascadePlan`, and `BulkPlan`,
  which runs it beside the scheduler), and where transactional flows ride
  (`Transactional`, `TransTable`).
- **Serial arithmetic** (`Serial`), the comparison of section 3.2 of RFC 1982 at 32 and
  20 bits, proved once and used by all of the above. `Ids`, `Bytes` and `Collections`
  hold what several modules share.

Each class keeps the source's fields and changes them in place; every method's `ensures`
gives its whole new state by a specification function, and what the source promises is
proved about those functions, over every run where it is a promise about runs. The
shaper, the path machine and the scheduler also carry a ghost list of the calls made so
far, and `Valid()` says that their fields are where the run of those calls ends: what is
proved of every run is so of every object, under the same conditions
(`PathShaper.PathShaper.KeepsToRate` is the shaper's rate). The data path carries a
balanced receiver that takes a step with each call.

Times are whole nanoseconds and are parameters. They never run backwards: the
resequencer reads its clock before it takes its lock (internal/relay/reseq.go:271-274),
so there this is an assumption, as it is for the shaper's. Go's floats are `real`. The
MAC of a header is a function parameter; path scores, measurements and whether a shaper
has room are inputs.

Where the code and its documentation differ, the model follows the code:

- internal/relay/reseq.go:569-575 says a new gap is timed from the oldest packet waiting
  behind it. The code takes the nearest one, so a packet further back can wait longer
  than the hold: `FlowInputs.FartherPacketsWaitLonger` is a run of arrivals that gets
  there. What holds is that the nearest never does (`FlowTimes.SweptInTime`);
  `FlowTimes.WholeBucketInTime` says, of the bucket before a sweep, exactly when no
  packet in it will be left so.
- internal/relay/reseq.go:400-404 takes a gap every active path has passed to be lost. A
  mark more than half the sequence space behind is misread as passed, and a run reaches
  one (`FlowInputs.StaleMarkMisleads`). `FlowTimes.PassedGapIsLost` is the exact
  condition on a mark, and `FlowMarks.PassedIsLostInRuns` gives the runs that meet it.
- internal/relay/dedup.go:103-122 negates a distance of exactly -2^31, which overflows
  and stays negative, so a new packet there is refused
  (`Dedup.HalfSpaceIsRefused`, `Dedup.FirstCopy`).
- internal/relay/scheduler.go:1082-1086 says the old path is still carrying traffic when
  a handover's target vanishes. Both ends can vanish together, as three evaluations from
  the start show (`SchedulerRuns.BothEndsVanish`); `SchedulerRuns.PrimaryIsAlive` is the
  exact condition, and the next evaluation repairs it.
- internal/relay/transactional.go:19-25 says a flow lives on exactly one path, moved only
  once that fills. Only the table's moves are so: a packet that finds one path to choose
  from goes to the primary and leaves the flow remembered where it was
  (`Transactional.RidesByTurns`), and a flow the table has no room for is placed afresh
  at every packet. `Transactional.RidesChangeExactly` says when two packets in a row ride
  different paths, `Transactional.AfreshExactly` which are placed afresh.
- internal/relay/pathstate.go:168-169 says assess changes nothing; it keeps the two
  counters.
- internal/protocol/header.go:26 gives an echo entry nine bytes; it has eleven.

Two promises hold on a condition the documentation leaves to the reader:

- internal/relay/shaper.go:338 says a packet sent directly cannot overtake one sent
  before it (`Shaper.DirectOvertakesNothing`). That whatever is queued has a drain needs
  more: one send at a time (`ShaperRate.QueueIsAttended`). Both ends give it, each
  sending its data from the one `readPayloads` goroutine
  (internal/relay/initiator.go:222-256, internal/relay/responder.go:219-250).
- internal/protocol/header.go:89-97 promises that either end can be upgraded first with
  no outage (`Negotiation.EveryRunAgrees`). Going back to an older build is another
  matter, since the version the other end speaks only rises
  (internal/relay/session.go:313-317); `Negotiation.GoingBackExactly` says when it is
  safe.

## Model

| member | source | states |
|---|---|---|
| Serial.SeqAfterUnwraps | internal/protocol/header.go:679-681 | two wrapped 32-bit counters compare as the numbers they were cut from exactly while those are less than half the space apart |
| Serial.FlowSeqDiffUnwraps | internal/protocol/header.go:688-691 | the 20-bit signed distance is the true one exactly within half the space, and wrong everywhere else |
| Dedup.FirstCopy | internal/relay/dedup.go:90-149 | a first copy is refused if and only if it stands exactly 2^31 behind the top |
| Dedup.OfferSays | internal/relay/dedup.go:90-149 | what becomes of a packet by its distance from the top: ahead, let through; up to 65535 behind, let through once; further, let through and the rest forgotten; 2^31 behind, refused |
| Dedup.HalfSpaceIsRefused | internal/relay/dedup.go:102-122 | the input on which "a false means a copy" fails |
| Dedup.SecondCopy | internal/relay/dedup.go:90-149 | a second copy still inside the window is always refused, whatever came between, across the wrap |
| Dedup.EpochKeepsAccepted | internal/relay/dedup.go:90-149 | between resets and reseeds nothing accepted is forgotten and the top never falls |
| Dedup.DeliveredOnce | internal/relay/dedup.go:90-149 | in one epoch no packet is let through twice |
| Dedup.DedupWindow.Accept | internal/relay/dedup.go:90-149 | the bitmap goes on agreeing with the set of accepted positions for every offset the window covers, and refuses exactly what that set refuses |
| Dedup.DedupWindow.Advance | internal/relay/dedup.go:102-122 | moving the top empties exactly the flags about to be reused |
| Dedup.DedupWindow.Reseed | internal/relay/dedup.go:80-86 | starting again leaves the one packet |
| Dedup.DedupWindow.Reset | internal/relay/dedup.go:70-77 | forgets everything |
| Dedup.DedupWindow.Mark | internal/relay/dedup.go:59 | sets one packet's flag and no other |
| Dedup.DedupWindow.Clear | internal/relay/dedup.go:60 | clears one packet's flag and no other |
| FlowMoves.Resume | internal/relay/reseq.go:528-577 | giving up a gap hands on, in order, exactly what leaves the bucket, and leaves the rest strictly ahead of next |
| FlowMoves.ForceStopsShort | internal/relay/reseq.go:333-341 | after a forced skip of any length the recomputed distance is in 0..4095, never negative, and the slot is free |
| FlowMoves.ArriveSound | internal/relay/reseq.go:270-363 | every arrival keeps the bucket: what is held is strictly ahead of next and inside the window, every mark behind next or on a held packet |
| FlowMoves.ArriveOrdered | internal/relay/reseq.go:270-363 | what an arrival hands on ascends from next, or is the one late packet from behind it; next never moves back except to a new sequence |
| FlowMoves.ArriveConserves | internal/relay/reseq.go:270-363 | an arrival loses and invents nothing: handed on, held, or a repeat of one held |
| FlowMoves.ArriveHeld | internal/relay/reseq.go:342-353 | an arrival adds at most its own packet to what is held |
| FlowMoves.SkipMoves | internal/relay/reseq.go:528-538 | skipping to the lowest held packet keeps order and every payload, and moves next past it |
| RingBucket.SkipShrinks | internal/relay/reseq.go:511-538 | each gap given up releases at least one packet, so every loop over gaps ends |
| FlowMoves.PassGapsMoves | internal/relay/reseq.go:412-441 | skipping every passed gap keeps order and every payload |
| FlowMoves.TimeOutMoves | internal/relay/reseq.go:454-467 | and so does skipping every timed-out one |
| FlowArrivals.AnewExactly | internal/relay/reseq.go:301-331 | in a bucket used in the last thirty seconds an arrival begins a new sequence if and only if it is more than 262144 from next |
| FlowArrivals.LateGoesThrough | internal/relay/reseq.go:323-331 | one no more than 262144 behind is handed on at once, alone, and changes nothing else about the sequence |
| FlowArrivals.ExpectedGoesOut | internal/relay/reseq.go:303-310 | the packet expected goes out with the run of held packets after it, up to the first position not held, and the gap is timed from the nearest left |
| FlowArrivals.AheadIsHeld | internal/relay/reseq.go:349-363 | one ahead by less than 4096 is held unless its position is, and nothing goes out |
| FlowArrivals.FarAheadForces | internal/relay/reseq.go:333-347 | one further ahead moves next just far enough for the window to reach it, handing on what is passed, in order |
| FlowArrivals.JumpBeginsAnew | internal/relay/reseq.go:312-321 | a jump hands on all that is held, in order, then the packet, and begins after it with its mark alone |
| FlowArrivals.IdleBeginsAnew | internal/relay/reseq.go:282-299 | so does the first packet after more than thirty seconds, at whatever sequence it has |
| FlowArrivals.FirstBeginsAnew | internal/relay/reseq.go:297-299 | and the first of all |
| FlowArrivals.MarkSays | internal/relay/reseq.go:377-399 | a mark moves forward the shorter way round, or anywhere when more than a second old; a fifth path takes the place of the one longest unheard |
| FlowArrivals.RunContinues | internal/relay/reseq.go:270-507 | through any run of packets no more than 262144 out, with no idle half minute, reset or expiry, no sequence ends |
| FlowGaps.GapPassedExactly | internal/relay/reseq.go:400-441 | a gap is given up at once if and only if some path delivered for the flow in the last second, every one that did stands past next, and, in the flow's first second, every path then spreading any flow is one of them |
| FlowGaps.OldFlowWaitsForNone | internal/relay/reseq.go:403-410 | so a flow older than a second waits for no path that does not carry it |
| FlowGaps.YoungFlowWaitsForTheSpreading | internal/relay/reseq.go:403-410 | and a younger one only for those spreading |
| FlowGaps.GapTimesOutExactly | internal/relay/reseq.go:460-466 | a sweep gives a gap up if and only if it has waited the hold, and notes when and after how long |
| FlowTimes.ArriveTimed | internal/relay/reseq.go:297-363 | the gap timer is never later than the arrival of the nearest held packet |
| FlowTimes.SweptInTime | internal/relay/reseq.go:454-467 | after a sweep the nearest held packet has waited less than the hold |
| FlowInputs.FartherPacketsWaitLonger | internal/relay/reseq.go:569-575 | five arrivals after which a sweep keeps a packet that has waited longer than the hold |
| FlowTimes.WholeBucketInTime | internal/relay/reseq.go:454-467 | a sweep leaves nothing that has waited the hold if and only if, in the bucket it finds, nothing at or beyond a gap still young has; a gap is young when its first packet, or for the front gap its timer, is |
| FlowTimes.PassedGapIsLost | internal/relay/reseq.go:400-441 | when a gap is given up as passed, an active path has delivered the packet skipped to or one after it, if and only if its mark is at most half the sequence space behind |
| FlowInputs.StaleMarkMisleads | internal/relay/reseq.go:412-441 | four arrivals, each path keeping its own order, after which a gap an active path has not reached is given up as passed |
| FlowMarks.PassedIsLostInRuns | internal/relay/reseq.go:377-441 | in every run in which no path with a recent mark delivers a quarter of the space or more beyond where next stood after its last delivery, a gap given up as passed is lost on each active path unless next has since moved more than a quarter of the space |
| FlowMarks.NewBelievable | internal/relay/reseq.go:297-308 | a bucket never used is where such a run may start |
| FlowRuns.EveryRun | internal/relay/reseq.go:270-507 | over every run of arrivals, checks, forced skips, sweeps, resets and expiry: pushed is handed on, held or repeated; every epoch's deliveries ascend except the late ones, which lie behind next |
| FlowRuns.StepGood | internal/relay/reseq.go:270-507 | and every single step keeps that |
| FlowRuns.RunExtends | internal/relay/reseq.go:270-507 | within an epoch next never moves back and the history only grows |
| FlowRuns.PassedGapNeverFills | internal/relay/reseq.go:400-441 | if paths keep their own packets in order, no path active at the skip delivers anything from the skipped range for the rest of the epoch |
| FlowSources.ArrivesSourced | internal/relay/reseq.go:270-363 | if a bucket holds and has handed on only its sender's packets, each at its tag less one base, so it does after an arrival read at its tag: the epoch goes on, or it closes and another base begins |
| Ring.SlotChanged | internal/relay/reseq.go:342-350 | no slot is shared by two positions of a window: holding or releasing one packet changes that position's slot alone |
| Ring.WindowSlides | internal/relay/reseq.go:600-605 | the head may move any distance once nothing is left behind, and the ring still shows the same packets |
| RingBucket.ReseqBucket.Advance | internal/relay/reseq.go:600-605 | the ring's head moves with next, so slot (head+d) mod 4096 keeps showing position next+d |
| RingBucket.ReseqBucket.Release | internal/relay/reseq.go:591-598 | empties one slot, and the map loses exactly that position |
| RingBucket.ReseqBucket.Drain | internal/relay/reseq.go:555-577 | hands on the consecutive run and times the gap from the nearest left |
| RingBucket.ReseqBucket.SkipToHeld | internal/relay/reseq.go:528-538 | on the ring, what the map says: next moves to the lowest held |
| RingBucket.ReseqBucket.Skip | internal/relay/reseq.go:540-552 | gives up the next n positions, handing on those held among them, in order |
| RingBucket.ReseqBucket.Flush | internal/relay/reseq.go:580-588 | hands on everything held, in order, and empties the ring |
| RingBucket.ReseqBucket.Mark | internal/relay/reseq.go:377-399 | records a path's furthest delivery, over the stalest mark when all are used |
| RingBucket.ReseqBucket.HasMark | internal/relay/reseq.go:444-451 | finds a path's recent mark |
| RingBucket.ReseqBucket.SkipPassedGaps | internal/relay/reseq.go:412-441 | skips exactly while every active path is past the gap |
| RingBucket.ReseqBucket.TimeOut | internal/relay/reseq.go:460-466 | skips exactly while the gap has waited out the hold |
| RingBucket.ReseqBucket.Arrive | internal/relay/reseq.go:270-353 | the whole of an arrival on the ring is the arrival on the map of positions |
| RingBucket.ReseqBucket.Force | internal/relay/reseq.go:333-347 | a packet beyond the window: forced, then held or handed on |
| RingBucket.ReseqBucket.Reset | internal/relay/reseq.go:500-505 | hands on what is held and abandons the sequence |
| BucketTable.Table.Arrive | internal/relay/reseq.go:277-281 | one bucket changes and no other |
| BucketTable.Table.Expire | internal/relay/reseq.go:471-480 | forgets a bucket only when it holds nothing and has been idle |
| Reseq.HoldCoversGap | internal/relay/reseq.go:237-262 | the hold covers the largest gap just seen with a quarter to spare, unless capped |
| HoldRuns.HoldCoversRecent | internal/relay/reseq.go:237-262 | in every run of gaps told and holds predicted, the hold is the cap, or no less than the prediction and five quarters of every gap told in the last two seconds |
| HoldRuns.HoldIsAskedFor | internal/relay/reseq.go:237-262 | and never longer than the prediction or five quarters of some gap told |
| HoldRuns.HoldForgets | internal/relay/reseq.go:228-262 | a prediction made when every gap told is four seconds old is the hold, but for the cap |
| Reseq.Resequencer.Push | internal/relay/reseq.go:270-373 | a push is the arrival, then the oldest gap forced exactly when the bound is broken, then the passed gaps; the total is the sum over the buckets and the waiting set exactly those holding something |
| Reseq.Resequencer.ForceOldest | internal/relay/reseq.go:511-524 | forces a gap waited on longest, and holds strictly less |
| Reseq.Resequencer.StayInBound | internal/relay/reseq.go:364-368 | ends with at most 16384 held |
| Reseq.Resequencer.SweepOnce | internal/relay/reseq.go:454-468 | sweeps every waiting bucket once, and touches no other |
| Reseq.Resequencer.Reset | internal/relay/reseq.go:497-507 | hands on everything held in every bucket |
| Reseq.Resequencer.Expire | internal/relay/reseq.go:471-480 | writes nothing and changes no total |
| Reseq.PushKeepsBound | internal/relay/reseq.go:354-373 | after every push the bound holds again, and every bucket's history is good |
| ReseqPushes.PushLeavesNoPassedGap | internal/relay/reseq.go:371-374 | a push that is not a repeat leaves no gap in its bucket that every path has passed, and touches no other bucket but the one whose gap was forced |
| ReseqPushes.ForcedSays | internal/relay/reseq.go:511-538 | the forced bucket hands on its first run of held packets, in order, and nothing else |
| ReseqPushes.TakenTells | internal/relay/reseq.go:303-331 | which arrivals tell how long a gap took, and how long |
| ReseqPushes.ResetSays | internal/relay/reseq.go:497-507 | a reset hands on all that is held, in order, and forgets the sequence |
| ReseqPushes.ExpireSays | internal/relay/reseq.go:471-480 | expiry forgets the buckets holding nothing and unused for more than thirty seconds |
| Reseq.SweepEnforcesHold | internal/relay/reseq.go:454-468 | after a sweep every bucket's nearest packet has waited less than the hold, and a second sweep would find nothing |
| ReseqAccounts.PushAccounted | internal/relay/reseq.go:270-373 | a push writes exactly what the buckets hand on |
| ReseqAccounts.PushGrows | internal/relay/reseq.go:270-373 | and adds its own payload, once, to what was pushed |
| ReseqAccounts.SweepAccounted | internal/relay/reseq.go:454-468 | a sweep writes exactly what the buckets hand on |
| ReseqAccounts.ResetAccounted | internal/relay/reseq.go:497-507 | and so does a reset |
| ReseqAccounts.ExpireAccounted | internal/relay/reseq.go:471-480 | and expiry, which writes nothing |
| Session.Counters.NextFlowTag | internal/relay/session.go:590-595 | tags of one bucket are its positions in order, without a gap, wrapping at 2^20 |
| Session.Counters.NextGlobalSeq | internal/relay/session.go:434-438 | global sequences count every packet numbered, from 1, wrapping at 2^32 |
| Session.Counters.NextPathSeq | internal/relay/session.go:625-641 | so are the sequences of one path |
| Session.TagIsRead | internal/relay/session.go:590-595 | a tag is read back as the position it was given exactly within half the sequence space of what is expected |
| Session.DeliveredAtMostOnce | internal/relay/session.go:605-615 | in every run of arrivals, sweeps, expiry and peer restarts, a payload is written no more often than packets with it were let through, what is not written is held or a repeat, and in an epoch of the filter no position is let through twice |
| Session.WrittenInOrder | internal/relay/reseq.go:270-507 | in every such run the writes can be told apart by bucket so that each bucket's are its epochs one after another, and in each epoch ascend but for the late ones |
| Session.NewBalanced | internal/relay/session.go:388-401 | a new receiver is balanced, so that holds of every run |
| Session.NothingTwice | internal/relay/session.go:605-615 | what was let through is written, held or the repeat of a held sequence |
| Session.ArriveAfter | internal/relay/session.go:605-615 | a packet let through goes to its bucket if it carries a tag and is written at once if it does not |
| Sender.Ingress.Number | internal/relay/initiator.go:250-257 | a data packet is given the next global sequence and, if bulk, the next tag of its bucket: the same two numbers the receiver reads it by |
| Sender.TagIsItsPlace | internal/relay/session.go:590-595 | a packet's tag is its place among those made for its bucket |
| EndToEnd.EachPacketOnce | internal/relay/session.go:605-615 | in every run of sender and receiver in which each packet arrives less than half the 32-bit space from the filter's top: those let through in one epoch are distinct packets of the sender's present life, and a payload is written no more often than it was made in that life and let through in earlier epochs |
| EndToEnd.WrittenAsMade | internal/relay/reseq.go:270-507 | in every run in which each tag arrives less than half the 20-bit space from what its bucket expects: what each bucket writes is its epochs one after another, and each epoch is packets of one life of the sender made for that bucket, in the order they were made but for the late ones |
| DataPath.DataPath.DeliverData | internal/relay/session.go:605-615 | one arrival in place is one step of the receiver: a copy is dropped, spread bulk is resequenced, the rest is written straight through; a gap is forced exactly when the bound is broken |
| DataPath.DataPath.SweepOnce | internal/relay/reseq.go:454-468 | one sweep in place is one step of the receiver |
| DataPath.DataPath.PeerRestarted | internal/relay/session.go:1038-1049 | and so are the two resets on hearing the peer begin again |
| Shaper.RunKept | internal/relay/shaper.go:209-341 | in every interleaving, by band, accepted is started followed by what is queued, in order; the byte counter is the sum; every other packet is a counted drop |
| Shaper.StartsAreHighest | internal/relay/shaper.go:285-331 | a packet starts from a band only when every higher band is empty, and is the packet offered or the first of its band |
| Shaper.DirectOvertakesNothing | internal/relay/shaper.go:333-341 | a packet of any class sent directly finds every band empty, nothing on its way out, and all of its band accepted before it already started |
| ShaperClasses.CallFirst | internal/relay/shaper.go:234-240 | in every run nothing but class 1 starts while class 1 waits, and nothing but classes 1 and 3 while class 3 does |
| ShaperClasses.FateSays | internal/relay/shaper.go:211-258 | a packet is sent at once if and only if nothing waits or is on its way out and the path is unshaped or its tokens not overspent; else dropped if and only if its share would wait beyond a tenth of a second of the rate, 48000 bytes or, unshaped, four mebibytes |
| ShaperClasses.DrainSays | internal/relay/shaper.go:285-322 | the drain starts the first packet of the first share waiting if and only if the path is unshaped or its tokens, with what the time has given, are not overspent |
| ShaperClasses.OfferTokensSay | internal/relay/shaper.go:211-258 | what an offer, and the end of its sending, do to the tokens |
| ShaperClasses.ChargeSays | internal/relay/shaper.go:262-270 | and a charge |
| ShaperClasses.SetRateSays | internal/relay/shaper.go:138-163 | a rate is 125 bytes a second for each kilobit; a path not shaped before starts from nothing |
| ShaperClasses.CountersAreBacklogs | internal/relay/shaper.go:234-240 | the three counters are the bytes waiting of class 1, of class 3, and of all others |
| Shaper.RoomIsNotDropped | internal/relay/shaper.go:184-207 | where a band has room, a packet up to 43200 bytes is never dropped |
| Shaper.NoRoomIsBacklog | internal/relay/shaper.go:184-207 | where it has none, its backlog is at least ten milliseconds of the rate |
| Shaper.RunLimitKept | internal/relay/shaper.go:241-245 | at one rate no band exceeds its limit |
| ShaperRate.EveryRunInRate | internal/relay/shaper.go:209-352 | every interleaving of direct sends, drain, control charges and rate changes keeps to the rate |
| ShaperRate.RateHolds | internal/relay/shaper.go:209-352 | the packets started in any stretch at one rate cost at most max(10 ms of the rate, 3000) + rate x time + two packets |
| ShaperRate.NoBurstOnShaping | internal/relay/shaper.go:138-155 | a path shaped from unshaped starts empty: whatever has started since costs at most rate x time and two packets, with no depth to spend |
| ShaperRate.StrandedWhen | internal/relay/shaper.go:138-158 | a single step keeps every queue its drain except exactly where sends overlap: a packet that fits, offered while another is being sent directly, on a path never shaped |
| ShaperRate.QueueIsAttended | internal/relay/shaper.go:209-258 | in every run with one send at a time, as both ends send, a queue always has its drain |
| PathShaper.PathShaper.SetRate | internal/relay/shaper.go:138-163 | a new rate, from an empty bucket where there was none |
| PathShaper.PathShaper.Send | internal/relay/shaper.go:211-258 | direct, queued or dropped; inflight is zero exactly when neither actor has a packet out |
| PathShaper.PathShaper.Sent | internal/relay/shaper.go:221-229 | the cost is deducted once the packet is written |
| PathShaper.PathShaper.Charge | internal/relay/shaper.go:262-270 | control traffic is charged and never waits |
| PathShaper.PathShaper.Take | internal/relay/shaper.go:285-322 | the drain's next packet |
| PathShaper.PathShaper.Taken | internal/relay/shaper.go:324-332 | and its cost |
| PathShaper.PathShaper.KeepsToRate | internal/relay/shaper.go:209-352 | whatever a shaper has been called with, what it has started keeps to the rate |
| PathShaper.PathShaper.HasRoom | internal/relay/shaper.go:184-191 | yes if and only if the path is unshaped or the bytes of neither class 1 nor 3 waiting are under ten milliseconds of the rate or 3000; on yes no such packet up to 43200 bytes is dropped |
| PathShaper.PathShaper.HasTransactionalRoom | internal/relay/shaper.go:200-207 | the same of the bytes of class 3 |
| WireLayout.EncodeSays | internal/protocol/header.go:448-522 | which byte of an encoding carries what, at literal places: version, type, flags, class, path, both sequences, the time, the flow, each echo and report entry by version, and the tag of all before it |
| WireLayout.ParseSays | internal/protocol/header.go:541-672 | of any bytes at all, the first thing wrong with them, or the header read from those places, the newest version heard and the payload |
| WireTrips.TripsExactly | internal/protocol/header.go:448-672 | for any header, versions, key and payload: parsing the encoding gives back the header cut down to what the version carries, and the payload, if and only if the blocks are within four entries and no out-of-range type or class turns into bulk data |
| WireTrips.PrefixIsShort | internal/protocol/header.go:541-672 | any packet that parses, cut anywhere, parses to the same header or is reported as short, never misread |
| WireTrips.HeaderAloneIsShort | internal/protocol/header.go:448-672 | every strict prefix of an encoded header is short |
| WireTrips.WithinLength | internal/protocol/header.go:241-263 | an encoding stays within 137 bytes, and 72 without reports |
| WireTrips.LengthIsMet | internal/protocol/header.go:241-263 | both bounds are reached |
| WireTrips.HearsBuild | internal/protocol/header.go:550-566 | a parser hears the older of the two builds from the flags |
| WireTrips.ParsedWithin | internal/protocol/header.go:541-672 | whatever parses is within the limits, with a flow sequence exactly when version, type and class say so |
| WireCode.AppendTo | internal/protocol/header.go:448-522 | the appending loops write, after whatever the buffer held, the specified encoding |
| WireCode.ParsePacket | internal/protocol/header.go:541-672 | the walking parser returns the specified header, rest and error |
| WireCode.ReadEchoes | internal/protocol/header.go:600-613 | reads entries by index as they were written one after another |
| WireCode.ReadReports | internal/protocol/header.go:626-650 | and reports, short or long by version |
| Negotiation.EveryRunAgrees | internal/relay/session.go:406-421 | in every run of two ends, with loss, repeats, reordering, restarts and upgrades, every packet sent is read by the other end, and two ends that have heard each other's build speak the smaller version |
| Negotiation.SpokenNeverFalls | internal/relay/session.go:411-421 | the version an end speaks never falls while it runs |
| Negotiation.ReceiveAgrees | internal/relay/session.go:411-421 | one packet heard is enough to settle the version |
| Negotiation.RefusedExactly | internal/protocol/header.go:541-549 | a build refuses a packet for its version if and only if the version written is above the build |
| Negotiation.GoingBackExactly | internal/relay/session.go:411-421 | an end coming back as an older build is never refused a packet in any run from then on, if and only if the other end speaks no higher and no packet between them is newer: to it in version, from it in build |
| Negotiation.StaysAbove | internal/relay/session.go:411-421 | once an end speaks above the other's build it does so in every run until it restarts itself |
| PathState.PromotedExactly | internal/relay/pathstate.go:157-237 | a path turns stable if and only if it was unstable and is now clean as often running as asked, all while unstable |
| PathState.FindsExactly | internal/relay/pathstate.go:170-258 | what each finding means in the measurements: gone is unbound, or silent long enough while probed often enough; a breach is any one of three thresholds |
| PathState.EvaluateSays | internal/relay/pathstate.go:157-237 | and the state, counters and reason it leaves |
| PathState.DemoteSays | internal/relay/pathstate.go:259-263 | a signal's hold is its own, or the one there already if longer |
| PathState.EveryPromotionEarned | internal/relay/pathstate.go:157-237 | in every run each of those evaluations was clean and spent unstable |
| PathState.DemotedExactly | internal/relay/pathstate.go:157-237 | a stable path leaves stable if and only if dead, below the floor, held down, or in breach as often running as asked, all while stable |
| PathState.EveryDemotionEarned | internal/relay/pathstate.go:157-237 | in every run each of those was a breach and spent stable |
| PathState.SignalOnlyDemotes | internal/relay/pathstate.go:205-211 | an outside signal keeps a path from stable until its hold is over, and never promotes |
| PathState.FlappingExactly | internal/relay/pathstate.go:265-284 | a path is flapping exactly when it changed state the threshold number of times inside the window, however often that was asked before |
| PathMachine.PathMachine.Evaluate | internal/relay/pathstate.go:157-166 | one evaluation in place is one step of the machine |
| PathMachine.PathMachine.Assess | internal/relay/pathstate.go:170-237 | the counters and the verdict, branch by branch |
| PathMachine.PathMachine.Demote | internal/relay/pathstate.go:259-263 | a hold is only ever lengthened |
| PathMachine.PathMachine.PruneTransitions | internal/relay/pathstate.go:267-273 | drops the changes older than the window from the front |
| PathMachine.PathMachine.Flapping | internal/relay/pathstate.go:281-284 | prunes, and answers |
| Ranking.EligibleIsProper | internal/relay/scheduler.go:833-849 | the eligible paths are exactly those not down and sendable, each once, by score falling and, of one score, by delay rising |
| Ranking.RankIsStable | internal/relay/scheduler.go:840-845 | equals keep the order they were given in |
| SchedulerRuns.MadeBeforeBroken | internal/relay/scheduler.go:890-1112 | in every run the primary leaves an eligible path only for one that real-time was sent on beside it, and nothing else, in every decision since a handover began at least MBBMin before; confirmed since, or MBBMax is over |
| SchedulerRuns.MovedOnlyForSustained | internal/relay/scheduler.go:944-972 | a healthy primary is left only for a path better by the margin for the configured number of evaluations running |
| SchedulerRuns.EscapesToTheFirstAble | internal/relay/scheduler.go:993-1005 | a failing one for the first better path that can take its load, or the best where none can |
| SchedulerChoices.SettledSays | internal/relay/scheduler.go:913-982 | with a primary in place: a failing one begins a handover to the first able path or the best; a working one only to a best that has outdone it by the margin, with room for its load, often enough running; nothing else moves it |
| SchedulerChoices.HandoverSays | internal/relay/scheduler.go:1076-1112 | a handover ends if and only if the target has been confirmed since it began and the least overlap is past, or the most is, or either end is gone |
| SchedulerChoices.NoPrimarySays | internal/relay/scheduler.go:913-917 | with no primary eligible the best is taken |
| SchedulerChoices.SustainedIsFollowed | internal/relay/scheduler.go:944-972 | in every run a path that has outdone the primary for the configured number of evaluations running is being handed the call |
| SchedulerChoices.SingleSays | internal/relay/scheduler.go:1140-1218 | real-time by mode, with no handover on: single, the primary alone |
| SchedulerChoices.AlwaysSays | internal/relay/scheduler.go:1180-1195 | always, the primary and then every other eligible path within budget, as ranked |
| SchedulerChoices.WhenUnstableSays | internal/relay/scheduler.go:1196-1214 | when unstable, a second path if and only if the primary is unstable and another is within budget: the first such |
| SchedulerChoices.HandoverSends | internal/relay/scheduler.go:1151-1163 | during a handover, its two ends |
| SchedulerChoices.BlindSays | internal/relay/scheduler.go:1124-1140 | with nothing eligible, everything sendable, in order |
| SchedulerRuns.NeverSilent | internal/relay/scheduler.go:1116-1144 | with any path to send on, real-time is sent; on the primary first, or on everything when none is eligible |
| SchedulerRuns.SentOnce | internal/relay/scheduler.go:1144-1217 | no path is sent a packet twice, and every copy is the handover's or within budget |
| SchedulerRuns.PrimaryIsAlive | internal/relay/scheduler.go:890-1112 | with a path eligible the primary is eligible, except, exactly, when a handover is abandoned with both ends gone |
| SchedulerRuns.DeadPrimaryIsRepaired | internal/relay/scheduler.go:913-917 | the next evaluation with an eligible path repairs it |
| SchedulerRuns.BothEndsVanish | internal/relay/scheduler.go:1082-1091 | three evaluations from the start after which real-time is sent on one path, which is gone |
| Scheduler.Config.MbbMax | internal/config/config.go:871-876 | the maximum overlap is never below the minimum |
| PathScheduler.PathScheduler.Evaluate | internal/relay/scheduler.go:856-857 | one evaluation in place is one step of the scheduler |
| PathScheduler.PathScheduler.Choose | internal/relay/scheduler.go:890-982 | the choice, branch by branch |
| PathScheduler.PathScheduler.AdvanceSwitch | internal/relay/scheduler.go:1076-1112 | abandoned, committed or still overlapping |
| PathScheduler.PathScheduler.BeginSwitch | internal/relay/scheduler.go:1066-1073 | both ends of the handover and its start |
| PathScheduler.PathScheduler.Adopt | internal/relay/scheduler.go:1054-1061 | a primary taken without overlap |
| PathScheduler.PathScheduler.EscapeTo | internal/relay/scheduler.go:993-1005 | the loop finds the first able path |
| PathScheduler.PathScheduler.BuildTx | internal/relay/scheduler.go:1116-1217 | the paths published for real-time, by duplication mode |
| Cascade.OrderedIsPermutation | internal/relay/cascade.go:233-296 | whatever the order before, the new one is the members, each once |
| Cascade.ReorderedOnlyWhenPressed | internal/relay/cascade.go:233-296 | in every run two members that stay change places only when at each of the last five evaluations they were neighbours and the one behind slower by more than the margin |
| Cascade.OvertakesUnless | internal/relay/cascade.go:275-294 | and at the fifth they do, unless the one ahead is itself moving ahead in that pass |
| Cascade.MovesAheadAtTheFifth | internal/relay/cascade.go:275-294 | in every run, once a path has been next behind another and slower by more than the margin at five evaluations running, in which the other itself moved ahead of nobody, it is ahead of it |
| Cascade.BeforeLined | internal/relay/cascade.go:243-273 | others coming and going never reorders two that stay |
| Cascade.NewcomersByDelay | internal/relay/cascade.go:243-273 | each newcomer stands behind no faster path and just before a faster one; with no order before, all stand slowest first |
| Cascade.OffStartsAfresh | internal/relay/cascade.go:117-125 | off, the cascade forgets its order, and is slowest first when on again |
| Cascade.PressedSays | internal/relay/cascade.go:278-283 | pressed is next behind and slower by more than the margin |
| CascadePlan.AdmittedExactly | internal/relay/cascade.go:126-185 | admitted is healthy, not measured under the configured share of the best, and no more than so far behind the primary |
| CascadePlan.CallPathsBackwards | internal/relay/cascade.go:186-208 | the call's paths are published last one first |
| CascadePlan.PublishedIsSafe | internal/relay/cascade.go:186-215 | the published order has each path once, every path of the call after every other, the primary last, and nothing that fails a gate unless nothing passes |
| CascadePlan.BestIsAdmitted | internal/relay/scheduler.go:433-438 | the size gate never shuts out the best: a healthy path in reach, at the best speed or not measured, is admitted |
| CascadePlan.AloneOnlyOutOfReach | internal/relay/cascade.go:186-215 | so every such path at the best speed is in the published order |
| BulkPlan.EveryFillOrderIsSafe | internal/relay/cascade.go:117-215 | in every run of scheduler and cascade together each fill order published has each path once, the paths of the decision published beside it last and its primary last of all, and is exactly the admitted paths, or the primary alone |
| CascadePlan.Publish | internal/relay/cascade.go:186-208 | the loops publish that order |
| CascadePlan.Pick | internal/relay/cascade.go:345-359 | a bulk packet goes out of exactly one path, the first with room or else the first |
| CascadePlan.CascadeOrder.OrderCascade | internal/relay/cascade.go:233-296 | keeping, slotting in and swapping in place give the specified order and counts |
| CascadePlan.CascadeOrder.Swap | internal/relay/cascade.go:278-294 | one pass of guarded swaps, skipping a pair just swapped |
| Transactional.MovesOnlyWhenFull | internal/relay/transactional.go:128-157 | a live flow changes path only if its path left the order, or has no room, the hold is over and the first path with room is another |
| Transactional.MovesAreRare | internal/relay/transactional.go:90-157 | in every run two moves of a conversation in the table are at least two seconds apart unless at the later its path had left the order |
| Transactional.RidesChangeExactly | internal/relay/transactional.go:90-157 | two packets of a flow in a row, the second not placed afresh, go out of different paths if and only if: both were placed and the table moved the flow; or the second found fewer than two paths and the primary is not the first's path; or the first did, and its primary is not where the second finds the flow, or takes it |
| Transactional.RidesAreSteady | internal/relay/transactional.go:42-48 | while a conversation is remembered and has two paths to choose from, the path its packets go out of changes at most once in two seconds unless its path has left the order |
| Transactional.AfreshExactly | internal/relay/transactional.go:113-126 | at one timeout a placed packet is placed afresh if and only if the table kept none of the flow's packets before, or the last it kept is older than the timeout |
| Transactional.RidesByTurns | internal/relay/transactional.go:90-96 | three packets within 40 ms that ride path 1, then 0, then 1, with no move in the table |
| Transactional.RunBounded | internal/relay/transactional.go:113-126 | at one limit the table never exceeds it |
| Transactional.OrderIs | internal/relay/transactional.go:57-85 | the order starts with the primary, has each path once, and every other is healthy and big enough |
| Transactional.MayRideExactly | internal/relay/transactional.go:57-85 | a flow may ride the primary, and then every other path that is healthy and not too small, as ranked |
| Transactional.NewFlowSays | internal/relay/transactional.go:113-127 | a flow not remembered goes to the first path with room, or the primary where none has, and is remembered if the table has place |
| Transactional.KnownFlowSays | internal/relay/transactional.go:128-157 | a remembered one stays while its path is in the order and it is held, or has room, or none has; else it goes to the first with room and is held two seconds |
| Transactional.SweepSays | internal/relay/transactional.go:162-172 | flows idle past the timeout are forgotten, at most once a quarter of it |
| TransTable.TransTable.PlaceTransactional | internal/relay/transactional.go:90-157 | placing in place is the specified placing |
| TransTable.TransTable.SweepTransFlows | internal/relay/transactional.go:162-172 | forgets exactly the idle flows, at most once a quarter of the timeout |
| TransTable.TransTable.BuildTransactional | internal/relay/transactional.go:57-85 | the loop builds that order |

## Left out

- Dedup.DedupWindow.Accept: the 1024 64-bit words are modelled as 65536 flags numbered by
  word and bit, so the masking inside one word is not.
- RingBucket.ReseqBucket.Arrive: the source writes each payload as it is released; here a
  bucket method returns what it releases and the resequencer writes it, in the same order.
- RingBucket.ReseqBucket.Release: the pool of buffers and the reuse of a released one are
  not modelled; a held payload is a value.
- Reseq.Resequencer.SweepOnce: the map of waiting buckets is the set of their ids; the
  order it is walked in is arbitrary, and given back.
- Reseq.HoldCoversGap: the factor of 1.25 applied as a float is five quarters, rounded
  down.
- The resequencer's statistics, and failed writes to the tunnel.
- ShaperRate.RateHolds: a packet starts when its band gives it up or it is sent directly;
  the building and writing that follow, under a second lock, are between two steps. The
  length of the drain's sleep is not modelled: it may look again at any time.
- WireTrips.TripsExactly: nothing is claimed of the MAC but that it is a function.
- Negotiation.EveryRunAgrees: the compare-and-swap loop of the ratchet is one step. Ends
  may restart as they were or as a newer build; `Negotiation.GoingBackExactly` is about
  the other way.
- Session.DeliveredAtMostOnce: `deliverData` takes the filter's lock and then the
  resequencer's (internal/relay/session.go:605-615), from one goroutine a path, and a
  peer's restart resets one and then the other (internal/relay/session.go:1038-1049). A
  step of the model makes each of those one region, so what may come in between them is
  not modelled; of what the session does on hearing a restart, only the two resets are.
- EndToEnd.EachPacketOnce: no packet of an earlier life of the sender arrives after the
  receiver has heard of the new one, and none of the new life before. Between the two
  ends packets may be lost, repeated, delayed and reordered, but not corrupted.
- FlowMarks.PassedIsLostInRuns: says nothing of a path that delivers a quarter of the
  space or more beyond where next stood when it last delivered: an old mark may then be
  nearer, in 20 bits, than the delivery.
- SchedulerRuns.MadeBeforeBroken: the E-model scores, the admission gate and the steering
  of bulk in flow mode are not modelled; budgets are within or not.
- PathMachine.PathMachine.Evaluate: the score with its penalties is not modelled.
- Cascade.OrderedIsPermutation: newcomers of equal delay are placed by one fixed sort; the
  source's sort leaves that order open.
- CascadePlan.PublishedIsSafe: the counters of bulk carried per path, and the mapping of a
  flow to a path while the cascade is off, are not modelled.
- Transactional.RidesChangeExactly: only while the cascade runs; in flow mode
  transactional flows are hashed over the paths, which is not modelled.
- Transactional.MovesOnlyWhenFull: a path's room is asked twice for one packet, and the two
  answers may differ: a full path found to have room at the second look keeps its flow,
  and begins its hold again.
- The link-speed, LAN-route and transport exchanges, sockets, TUN, the web interface,
  configuration and recording: input, output and easier members.
