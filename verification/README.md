# Verification of the TCP connection reconstructor

The program in `src/` replays a packet capture and rebuilds, from what passed on the wire, what the sending host must
have known: its window of sequence numbers, its SACK scoreboard, its list of unacknowledged packets, which packet
retransmits which, its round-trip-time estimator and its timers. From that it explains the latency of the worst packet.
This project models that reconstruction in Dafny and proves that it is right.

Check everything with `dafny verify dfyconfig.toml`.

## How the model is built

- Every modelled source function has a function of the same meaning on values (`TcpSacks`, `TcpTimer`, `EndpointModel`,
  `LinearFit`, `DelayModel`, `QueueFreeTimer`, `TcpFlow`), and every one that updates fields or runs a loop is a class
  method
  (`TcpSacks.Scoreboard`, `TcpTimer.RttTimer`, `TcpEndpoint.Connection`, `DelayAnalysis.Analysis`, `TcpFlow.Flow`)
  whose `ensures` equates the whole new state with that function of the old state, or states outright what the loop
  finds. Properties are lemmas about the functions; what each step does to timers, triggers, marks and samples is
  stated in `Timeouts`, `Triggers`, `Lookalikes`, `Reordering` and `Sampling` without the functions that do it.
- Sequence numbers are integers below 2^32 with the wraparound written out. `Lift` reads them back as unbounded
  positions above a base. The window hypothesis is stated once, in `Refinement.Observes`: after every packet, the
  cumulative ACK and everything outstanding lie within 2^31 - 2 below the highest position sent
  (`SenderReference.TransmissionFits`), and so do the numbers in each ACK (`Refinement.Reports`).
- `SenderReference` is the sender as it really is: unbounded positions, a plain set of reported bytes, a list of
  packets. `Refinement` proves that the 32-bit endpoint stays in step with it on every run, and `Captures` that a
  capture, with its routing and its announced segment sizes, is one such run for each side.
- `EndpointInvariants.Invariant` is what holds after every step of every run, without any window hypothesis: sequence
  counting, the retransmission forest and its accounting, acknowledgment conservation, timer discipline, and the ledger
  of measurements. `RunInvariant` is the theorem about all runs; `Captures.CaptureInvariant` the one about all captures.

## What the code does differently from its comments

- `After` (src/util.cc:12-15) is not symmetric around 2^31: two values that differ by exactly 2^31 - 1 are in neither
  order, and the relation is not transitive on the whole circle (`AfterAsymmetric`, `AfterTransitiveIff`).
- `AdjustRTOForBackoff` applies the 120 s maximum only after a doubling, so without backoff a timeout can exceed it
  (`BackoffExactIff`).
- `AckPackets` re-arms the timers before `ProcessAck` forgets the backoff (src/tcp_endpoint.cc:496-501), so the timer
  restarted by an ACK still uses the backed-off value (`AckTimers`); it is the plain timeout exactly when there was no
  backoff or the timeout is the maximum (`RestartIsPlainIff`).
- `GetUnackedBytesRttPairsAroundPacket` starts its second pass at the target, so an eligible target is in the result
  twice unless only older samples are asked for (`SamplesAround`).
- `AnalyzeTailLatency` says that it enforces that the parts do not exceed the whole; it does so only under the condition
  of `ConservationIff`. Without a usable line, the latency of a lost packet adds up exactly when its last retransmission
  was sent at least the minimum round-trip time before the ACK (`LostAddsUpIff`), and there is a run on which it was not
  (`LossCanExceedWhole`).
- Zero is both a valid initial sequence number and the mark for "not set" (`SetInitialKeepsIff`, `ZeroInitialSequence`);
  for the same reason an acknowledgment of number 1 does not make the peer's initial number known (`RunKnowsPeer`).
- Removing queueing delay from the samples, some of which are dropped, never raises the smoothed round-trip time exactly
  when no dropped sample is smaller than what may remain of another (`NeverHigherIff`), and never lengthens the
  retransmission timeout exactly when, besides, no remaining sample exceeds 90709 us (`NeverLaterIff`). Past that the
  timeout can grow with the line that the analysis itself chooses (`QueueFreeRtoCanGrow`).
- A FIN without data does not move `seq_next_`, so its ACK counts as one for data never sent: it marks the connection
  bogus and makes the number of unacknowledged bytes wrap (`AckBeyondIff`).

## Model

| member | source | states |
|---|---|---|
| `Captures.CaptureExact` | src/tcp_endpoint.h:38-44 | for either endpoint of every capture that fits the window, with or without announced segment sizes, `GetUnackedBytes()` is the number of bytes sent and neither acknowledged nor covered by any SACK block received, and the cumulative ACK, the next sequence number, the acked-byte count and the outstanding list are those of the unbounded sender |
| `Captures.CaptureIsTwoRuns` | src/tcp_flow.cc:24-68 | routing, opening and passing on the segment sizes give each endpoint exactly the run that its own packets, the peer's ACKs and the announced size make up; packets are values here, so the trigger and the probe flag that both endpoints write into one packet object are kept apart |
| `Captures.CaptureForgetsNothing` | src/tcp_endpoint.cc:536-552 | on captures without gaps every missing byte is carried by a packet that the endpoint still lists as unacknowledged |
| `Captures.CaptureInvariant` | src/tcp_flow.cc:13-68 | both endpoints of every capture satisfy the invariant, as long as neither opens with sequence number zero |
| `Refinement.ReconstructionExact` | src/tcp_endpoint.h:38-44 | the same knowledge for one endpoint on every run of sends, ACKs and announced sizes that fits the window |
| `Refinement.UnackedBytesExact` | src/tcp_endpoint.h:38-44 | the same in one state, and the guard against underflow never fires |
| `Refinement.RunRefines` | src/tcp_endpoint.cc:38-108 | along every faithful sequence of sends, ACKs and announced segment sizes the endpoint and the unbounded sender take the same steps |
| `Refinement.SendRefines` | src/tcp_endpoint.cc:57-105 | sending one packet refines the sender's step, the packet is flagged a retransmission if and only if it ends at or before everything sent so far, across wraparounds, and it records the number of missing bytes at that time |
| `Refinement.ProcessAckRefines` | src/tcp_endpoint.cc:467-505 | receiving an ACK with SACK blocks refines the sender's step |
| `Refinement.DoneExact` | src/tcp_packet.cc:179-187 | a packet counts as acknowledged exactly when it is below the cumulative ACK or all its bytes are covered by the ACK's blocks together |
| `Refinement.MissingIsOutstanding` | src/tcp_endpoint.cc:536-552 | on runs without capture gaps every missing byte is carried by a packet still listed as unacknowledged |
| `SenderReference.HistoryForgetsNothing` | src/tcp_endpoint.cc:536-552 | the same for the unbounded sender |
| `SeqSpace.AfterExact` | src/util.cc:12-15 | wraparound comparison is exact for positions at most 2^31 - 2 apart |
| `SeqSpace.AfterAsymmetric` | src/util.cc:12-19 | over all pairs never both after each other; incomparable exactly at distance 2^31 - 1 |
| `SeqSpace.AfterTransitiveIff` | src/util.cc:12-15 | when two steps forward are one step forward, over all triples |
| `SeqSpace.AfterNotTransitive` | src/util.cc:12-15 | a concrete triple on which the order is not transitive |
| `SeqSpace.RangeIncludedExact` | src/util.cc:25-31 | interval inclusion for a non-empty first range, strict interiority for an empty one |
| `SeqSpace.OverlapsExact` | src/util.cc:33-36 | intersection of closed intervals |
| `TcpSacks.Scoreboard.Add` | src/tcp_sacks.cc:37-61 | the in-place insertion does what `AddOne` says, including the byte counter left stale at the tail |
| `TcpSacks.Scoreboard.Merge` | src/tcp_sacks.cc:69-93 | the in-place merge does what `MergeAt` says |
| `TcpSacks.Scoreboard.RemoveAcked` | src/tcp_sacks.cc:95-108 | the list is trimmed from the front and the counter recomputed |
| `TcpSacks.Scoreboard.Parse` | src/tcp_sacks.cc:5-35 | accepts exactly the well-sized options and builds the list of the completely captured blocks |
| `SackCoverage.AddExact` | src/tcp_sacks.cc:37-61 | adding keeps sorted blocks with strict gaps, and covers exactly the old bytes and the new block |
| `SackCoverage.MergeExact` | src/tcp_sacks.cc:69-93 | merging covers the same bytes in normal form |
| `SackCoverage.TrimExact` | src/tcp_sacks.cc:95-108 | trimming removes exactly the bytes below the ACK |
| `SackCoverage.CounterExact` | src/tcp_sacks.cc:110-115 | the counter is the number of covered bytes, without overflow |
| `SackCoverage.CounterStaleIff` | src/tcp_sacks.cc:37-61 | adding a block leaves the byte counter stale exactly when the block goes behind all others |
| `SackCoverage.GoodIsCanonical` | src/tcp_sacks.cc:37-93 | the normal form is determined by the bytes it covers |
| `SackCoverage.AddOrderIrrelevant` | src/tcp_sacks.cc:63-67 | adding the same blocks in any order or repeatedly gives the identical list |
| `SackCoverage.ParseExact` | src/tcp_sacks.cc:21-32 | the parsed list is the normal form of the captured blocks |
| `SackOption.DecodeEncoded` | src/tcp_sacks.cc:14-30 | parsing what a receiver writes gives its blocks |
| `SackOption.TruncationCoversLess` | src/tcp_sacks.cc:21-32 | a truncated option yields a normal list that covers no byte the full one does not |
| `TcpTimer.RttTimer.AddSample` | src/tcp_timer.cc:32-88 | one sample updates the five estimator fields as `Sampled` says, which `SampleExact`, `RoundPeak` and `RoundEnds` describe, and is recorded |
| `TcpTimer.RttTimer.AdjustRTOForBackoff` | src/tcp_timer.cc:116-126 | the doubling loop computes `Backoff` |
| `TimerProofs.EstimateBounds` | src/tcp_timer.cc:46-87 | after any samples in [low, high] the smoothed value is in [low, high], deviations are ordered and bounded |
| `TimerProofs.SampleDoesNotOverflow` | src/tcp_timer.cc:35-87 | with samples below 2^28 no intermediate value leaves the signed 32-bit range |
| `TimerProofs.OverflowThreshold` | src/tcp_timer.cc:38 | the threshold is tight |
| `TimerProofs.RtoExact` | src/tcp_timer.cc:90-103 | the clock-granularity branch is unreachable after a sample and the timeout does not wrap |
| `TimerProofs.TimeoutOrder` | src/tcp_timer.cc:105-114 | probe timeout without delayed ACK <= with delayed ACK <= retransmission timeout |
| `TimerProofs.BackoffExact` | src/tcp_timer.cc:116-126 | n >= 1 backoffs give min(2^n * RTO, 120 s) for every reachable estimate |
| `TimerProofs.BackoffExactIff` | src/tcp_timer.cc:116-126 | for which 32-bit timeouts and n that formula holds, exactly |
| `TimerProofs.Converges` | src/tcp_timer.cc:46-87 | from every reachable estimate enough steady samples r give SRTT = r and RTO in [r + 200000, r + 200003] |
| `TimerProofs.SrttMonotone` | src/delay_analysis.cc:464-469 | smaller positive samples never give a larger smoothed round-trip time |
| `TimerProofs.TlpMonotone` | src/delay_analysis.cc:477-482 | nor a larger probe timeout, while the smaller run's smoothed value is at most 200 ms |
| `TimerProofs.TimeoutFormula` | src/tcp_timer.cc:90-103 | the timeout of any estimate is 200 ms without a sample, otherwise the smoothed value plus the larger of variance and 1 ms, in 32 bits |
| `RoundTrips.SampleExact` | src/tcp_timer.cc:46-69 | the smoothed value moves by an eighth of the error, the mean deviation by a quarter step, or an eighth of that when the delay drops and the deviation would grow |
| `RoundTrips.RoundPeak` | src/tcp_timer.cc:71-78 | on every list of positive samples, the variance within a round trip is the largest of its value at the beginning and the mean deviations since |
| `RoundTrips.RoundEnds` | src/tcp_timer.cc:80-87 | the first sample that acknowledges past everything sent when the round trip began, and no other, takes off a quarter of what the variance exceeds the largest deviation of the round trip by |
| `RtoOrder.NeverLongerIff` | src/delay_analysis.cc:477-482 | smaller samples bounded by b never give a longer retransmission timeout if and only if b is at most 90709 us |
| `RtoOrder.QuietRun` | src/tcp_timer.cc:46-87 | with samples up to that bound no deviation ever rises above the minimum timeout |
| `EndpointInvariants.RunInvariant` | src/tcp_endpoint.cc:38-108 | every reachable state satisfies the whole invariant, and history is never rewritten: packets keep their place and an ACK once recorded |
| `EndpointInvariants.AddWirePacketInvariant` | src/tcp_endpoint.cc:57-105 | one packet keeps the invariant, moves `seq_next_` only forward, and is flagged a retransmission exactly when it brings nothing new: the recovery point never decides |
| `EndpointInvariants.AdvanceNextExact` | src/tcp_endpoint.cc:74-81 | the recovery point is zero or `seq_next_`, and zero after new data |
| `EndpointInvariants.AdvanceAckedOk` | src/tcp_endpoint.cc:475-485 | `acked_bytes_` grows by the modular distance and stays congruent to `seq_acked_` - `seq_init_` across any number of wraparounds |
| `EndpointInvariants.ProcessAckInvariant` | src/tcp_endpoint.cc:467-505 | an ACK keeps the invariant and never lowers `acked_bytes_` |
| `EndpointInvariants.AckPartition` | src/tcp_endpoint.cc:536-552 | outstanding packets split into those that end after the ACK and are not SACKed, and those that now carry it |
| `EndpointInvariants.AckTimers` | src/tcp_endpoint.cc:554-563 | nothing outstanding stops both timers; acknowledged packets restart them from this ACK with the old backoff; otherwise they are left alone |
| `EndpointInvariants.RestartIsPlainIff` | src/tcp_endpoint.cc:496-501 | a timer restarted by an ACK is the timeout without backoff if and only if there was none, or the timeout is the maximum |
| `EndpointInvariants.AckPacketsTimers` | src/tcp_endpoint.cc:554-563 | the timer is armed exactly while packets are outstanding |
| `EndpointInvariants.EstimatesBounded` | src/tcp_endpoint.cc:528-533 | the estimator of a reachable endpoint is bounded by the delays it measured |
| `EndpointInvariants.SetInitialKeepsIff` | src/tcp_endpoint.cc:21-36 | when initialising again leaves the sequence numbers alone |
| `EndpointInvariants.ZeroInitialSequence` | src/tcp_endpoint.cc:25-28 | a concrete start with sequence number zero that is misread |
| `Verdict.RunDecided` | src/tcp_endpoint.cc:255-482 | a run is bogus if and only if it had more than a hundred unmatched retransmissions or an ACK for data after everything sent |
| `Verdict.AddWirePacketJudged` | src/tcp_endpoint.cc:255-262 | a packet counts as unmatched if and only if it is processed as a retransmission and no earlier packet covers its start |
| `Verdict.FaithfulBogusIff` | src/tcp_endpoint.cc:255-262 | on runs that fit the window only unmatched retransmissions decide |
| `Verdict.AckBeyondIff` | src/tcp_endpoint.cc:471-499 | the recomputed number of unacknowledged bytes is right if and only if the ACK is for no more than was sent, and the run becomes bogus otherwise |
| `Conservation.AckPacketsExact` | src/tcp_endpoint.cc:536-552 | the loop partitions the list in order and records each ACK once |
| `Conservation.CheckLookalikesConserves` | src/tcp_endpoint.cc:193-245 | tying packets to SACK lookalikes keeps the books and the timers |
| `Frames.CheckForRTOCosmetic` | src/tcp_endpoint.cc:303-362 | the recursive check terminates, and touches only flags, timers and the recovery point |
| `Timeouts.OnTimeIsTimeout` | src/tcp_endpoint.cc:305-361 | a retransmission within a fifth of the delay around the expiry is a timeout: it is marked with the timer as it ran, the count goes up by one (mod 256), recovery starts, and the probe flags are reviewed |
| `Timeouts.OffTimeIsNone` | src/tcp_endpoint.cc:304-332 | without a timer, or off time with nothing to take back, nothing changes |
| `Timeouts.TakenBackIff` | src/tcp_endpoint.cc:318-333 | off time, a first timeout whose armer was a probe is taken back, and the packet is a timeout if and only if it is on time without the backoff |
| `Timeouts.ProbeIff` | src/tcp_endpoint.cc:271-301 | a retransmission is a probe if and only if probes are on, it carries the last byte sent, and it is on time for the probe timer |
| `Timeouts.ProbeStartsTimer` | src/tcp_endpoint.cc:391-404 | a probe that is no timeout starts the retransmission timer again without a further backoff, and stops the probe timer |
| `Timeouts.TimeoutsInARow` | src/tcp_endpoint.cc:303-407 | of up to 255 retransmissions in a row, each on time, the k-th is a timeout that ran with k - 1 backoffs, and with the delay min(2^(k-1) * RTO, 120 s) when it was sent exactly at the expiry |
| `Timeouts.TimeoutsCounted` | src/tcp_endpoint.cc:110-130 | after n of them n timeouts are counted and the timer runs from the last one with the delay min(2^n * RTO, 120 s) |
| `Timeouts.RowIsRun` | src/tcp_endpoint.cc:38-108 | such a row is a run of captured packets when none is larger than the segment size |
| `Timeouts.SendStartsTimers` | src/tcp_endpoint.cc:99-130 | the first packet after everything was acknowledged starts both timers from its own timestamp with the current timeout; with packets outstanding new data leaves them alone (rule 5.1 of RFC 6298) |
| `Timeouts.AckStartsTimers` | src/tcp_endpoint.cc:110-130 | an ACK that leaves something outstanding starts both timers from itself, and the probe allows for a delayed ACK if and only if exactly one packet not lost is left |
| `Triggers.TriggerOfAck` | src/tcp_endpoint.cc:524-552 | the trigger of an ACK is the most recent packet that it acknowledges, and the triggers of all other ACKs stay |
| `Triggers.RtxAfterAck` | src/tcp_endpoint.cc:363-389 | a retransmission within 2 ms of the last ACK takes the trigger of the last ACK that has one, is a slow-start one while recovering and a fast one otherwise, and leaves the timers alone |
| `Triggers.FastRtxTrigger` | src/tcp_endpoint.cc:363-389 | so after an ACK of several packets it takes the most recent of them |
| `Triggers.RecoveryEnds` | src/tcp_endpoint.cc:482-485 | recovery ends exactly with an ACK that reaches everything sent before the timeout |
| `Lookalikes.TieFindsFirst` | src/tcp_endpoint.cc:193-219 | a packet is tied to the first SACK lookalike that arrived more than the minimum round-trip time after it, with every effect on timers, triggers, scoreboard and counts |
| `Lookalikes.TieFindsNone` | src/tcp_endpoint.cc:193-219 | if there is none, all lookalikes are used up and nothing else changes |
| `Lookalikes.LookalikesKept` | src/tcp_endpoint.cc:486-495 | an ACK becomes a lookalike if and only if it repeats the cumulative ACK and a SACK block would fit into what was not captured; they queue in order |
| `Reordering.RtxMarks` | src/tcp_endpoint.cc:455-465 | a retransmission marks exactly the data packets sent after the last packet covering its start as out of order, and any other packet marks none |
| `Handshake.RunKnowsPeer` | src/tcp_endpoint.cc:21-36 | after every run the initial number of the peer is one less than the first acknowledgment sent, and initialisation is over from then on |
| `Retransmissions.LinkExact` | src/tcp_endpoint.cc:409-453 | the link goes to the most recent packet covering the start, and exists if and only if some packet does |
| `Retransmissions.LinkKeepsForest` | src/tcp_endpoint.cc:423-425 | a retransmission adds one tree edge: links point back and forth consistently, backwards to earlier and forwards to later packets |
| `Retransmissions.FirstIsRoot` | src/tcp_endpoint.cc:425 | the recorded first transmission is the only root of the chain |
| `Retransmissions.WalkRetraces` | src/delay_analysis.cc:356-367 | the forward walk ends, at a packet whose backward walk passes through the start to the original transmission |
| `Retransmissions.CreditChainExact` | src/tcp_endpoint.cc:429-445 | the accounting walk credits every earlier transmission once |
| `Retransmissions.LinkKeepsTallies` | src/tcp_endpoint.cc:439-444 | attempt count (mod 2^16) and final delay of every original transmission agree with the list of its retransmissions |
| `Retransmissions.EarliestDescendant` | src/tcp_endpoint.cc:433-437 | with timestamps that never go back and grow along each link, the recorded delay is the one to the earliest descendant |
| `Timing.RunDelaysExact` | src/tcp_endpoint.cc:433-437 | so it is on every run whose timestamps never go back and that repeats nothing at the same time, although packets split from one captured packet share its timestamp |
| `Timing.RunOrdered` | src/packet.cc:22-39 | on such runs timestamps stay ordered and pieces of one packet never retransmit each other |
| `Measurements.HandleAckedLedger` | src/tcp_endpoint.cc:507-534 | the minimum round-trip time is the least delay of acknowledged originals, and the estimate is that of the recorded samples |
| `Sampling.SamplesOfAck` | src/tcp_endpoint.cc:528-533 | an ACK gives the timer one sample for exactly the packets that it acknowledges and that were sent once, in order, each with the sequence numbers after the ACK |
| `Sampling.SnapshotExact` | src/tcp_endpoint.cc:87-91 | a data packet records the ACK before it and the three timeouts without backoff |
| `Sampling.SamplesExact` | src/tcp_endpoint.cc:667-680 | the fit gets one pair of unacknowledged bytes and delay for exactly the packets that were not lost, not overtaken and have a delay |
| `Sampling.AroundExact` | src/tcp_endpoint.cc:681-737 | around a packet: the last samples up to it, then the first ones from it on |
| `Splitting.WireSegmentsExact` | src/tcp_endpoint.cc:158-180 | wire packets tile the original range, all but the last of full size |
| `Splitting.DerivedMssExact` | src/tcp_endpoint.cc:131-156 | a size derived from a large frame divides its payload into as few packets of at most 1460 bytes as possible, from 2 to 10 |
| `Refinement.AddPacketRefines` | src/tcp_endpoint.cc:38-108 | a coalesced packet moves the endpoint as its wire packets move the sender |
| `Refinement.SplitKeepsNext` | src/tcp_endpoint.cc:158-180 | after a coalesced packet `seq_next_` is what the unsplit packet would have left |
| `TcpEndpoint.Connection.AddPacket` | src/tcp_endpoint.cc:38-108 | the method changes the whole state as the model says |
| `TcpEndpoint.Connection.ProcessAck` | src/tcp_endpoint.cc:467-505 | likewise for an ACK; `AckPartition`, `TriggerOfAck`, `SamplesOfAck`, `AckStartsTimers` and `RecoveryEnds` say what that is |
| `TcpEndpoint.Connection.CheckForRTO` | src/tcp_endpoint.cc:303-362 | likewise for the recursive timeout check; `OnTimeIsTimeout`, `OffTimeIsNone` and `TakenBackIff` say what that is |
| `TcpEndpoint.Connection.LinkToPreviousTx` | src/tcp_endpoint.cc:409-453 | likewise for the reverse search and the walk along earlier transmissions |
| `TcpEndpoint.Connection.CheckForSacksFromLookalikes` | src/tcp_endpoint.cc:221-245 | likewise for the erasing loop; `TieFindsFirst` and `TieFindsNone` say what happens to one packet |
| `TcpEndpoint.Connection.GetUnackedBytesRttPairsAroundPacket` | src/tcp_endpoint.cc:681-737 | the circular buffer returns the last samples up to the target, in order, then the first ones from the target on |
| `TcpEndpoint.Connection.FillRing` | src/tcp_endpoint.cc:692-708 | each of the most recent samples is in the slot of its index |
| `DelayModel.ConservationIff` | src/delay_analysis.cc:179-210 | the reported causes add up to the overall delay exactly under a condition on the inputs |
| `DelayModel.PartsExplain` | src/delay_analysis.cc:179-210 | in particular when trigger and base loss are parts of a loss that fits |
| `DelayModel.NotLostAddsUp` | src/delay_analysis.cc:144-213 | in every reachable endpoint with positive delays the causes of an acknowledged, not lost original transmission add up |
| `DelayModel.NotLostAnalyzed` | src/delay_analysis.cc:140-214 | so they do after the whole attribution, whichever line is chosen |
| `DelayModel.LostAddsUpIff` | src/delay_analysis.cc:147-210 | in every reachable endpoint, without a usable line, the causes of an acknowledged, lost original transmission add up if and only if its last retransmission was sent at least the minimum round-trip time before its ACK |
| `DelayModel.LossExact` | src/tcp_endpoint.cc:439-444 | the loss is the time from the original transmission to its last retransmission |
| `LossExample.LossCanExceedWhole` | src/delay_analysis.cc:147-210 | a run of three packets and two ACKs, with too few samples for a line, whose worst packet has parts that exceed the whole |
| `DelayModel.TriggerDelayExact` | src/delay_analysis.cc:349-431 | the trigger delay sums the timers along the chain from the transmission that arrived, until the original one or a trigger; the trigger is charged with its own queueing delay and, in slow start, with the trigger delay of the loss it belongs to |
| `DelayModel.ShareExact` | src/delay_analysis.cc:384-424 | what each timer on the way contributes: the timeout without queueing, its inflation, and the queueing delay of the packet whose ACK armed it |
| `DelayModel.LostAnalyzed` | src/delay_analysis.cc:147-210 | for a lost packet with a chosen line whose loss and propagation fit: the reported queueing delay is that of the transmission that arrived, as far as it fits, and loss and trigger delay are split at the base loss |
| `LinearFit.LineIsBest` | src/util.cc:61-82 | no line has a smaller squared error over the samples than the fitted one |
| `LinearFit.CauchySchwarz` | src/util.cc:43-59 | the correlation coefficient never exceeds one |
| `LinearFit.BestExact` | src/delay_analysis.cc:269-292 | the line is that of a sample set with a positive slope, and no such set is better correlated |
| `LinearFit.ChosenExact` | src/delay_analysis.cc:269-292 | a line is used exactly when the best of the three sets has a correlation above one half |
| `LinearFit.QueueingGrows` | src/delay_analysis.cc:325-347 | on a line with positive slope, more unacknowledged bytes never mean less queueing delay |
| `LinearFit.QueueingExact` | src/delay_analysis.cc:325-347 | the queueing delay is what the line adds for the bytes in front of a packet, or less if the expected round-trip time exceeds the propagation by less |
| `QueueFreeTimer.QueueFreeExact` | src/delay_analysis.cc:460-470 | the timer is recomputed from exactly the samples that stay positive without their queueing delay, in order, with only the measured time changed |
| `QueueFreeTimer.NeverHigherIff` | src/delay_analysis.cc:464-469 | for samples of which at most k remains and dropped ones of at least d, the recomputed smoothed value never exceeds the observed one if and only if k <= d |
| `QueueFreeTimer.NeverLaterIff` | src/delay_analysis.cc:464-484 | the recomputed retransmission timeout never exceeds the observed one if and only if k <= d and k <= 90709 us |
| `QueueFreeTimer.QueueFreeSrtt` | src/delay_analysis.cc:458-470 | in a reachable endpoint, while no dropped sample is below a remaining one, the smoothed round-trip time without queueing delay is never larger than the connection's |
| `QueueFreeTimer.QueueFreeRto` | src/delay_analysis.cc:458-484 | nor is the retransmission timeout longer, with remaining samples up to 90709 us |
| `QueueFreeTimer.DropRaisesIff` | src/delay_analysis.cc:466 | leaving a sample out gives the larger smoothed value if and only if it is below the current one |
| `QueueFreeTimer.DroppedSampleRaises` | src/delay_analysis.cc:466 | of any two samples, dropping the smaller second one raises the smoothed value |
| `FitExample.QueueFreeRtoCanGrow` | src/delay_analysis.cc:269-484 | a run of four packets, none lost, on which the line chosen among the three sample sets takes off queueing delay, drops no sample, and lengthens the timeout from 695312 to 731406 us |
| `Spurious.MarkTimesExact` | src/tcp_endpoint.cc:578-596 | n D-SACK blocks for a range mark the n most recent retransmissions that cover it, or all if there are fewer, and nothing else |
| `Spurious.DSacksMarkMostRecent` | src/tcp_endpoint.cc:566-576 | an ACK whose D-SACK blocks are all for one range marks as many |
| `Spurious.LossesTakenBack` | src/packet.cc:57-59 | such an ACK takes back exactly the losses whose retransmission is one of those marked: a packet is lost while it was retransmitted and the retransmission is not known to be spurious |
| `Spurious.CandidateExact` | src/tcp_endpoint.cc:587-592 | in terms of positions, the packets considered are the unmarked retransmissions that contain the block |
| `Spurious.DSackExact` | src/tcp_endpoint.cc:570-571 | a D-SACK block begins below the cumulative ACK and ends at or below it |
| `DelayModel.ConsumedBounds` | src/delay_analysis.cc:249-255 | rounding down loses less than one byte per ACK |
| `DelayModel.GainedExact` | src/delay_analysis.cc:259-262 | the bytes gained are the advance of the highest ACK number, across wraparounds |
| `DelayModel.BalanceFits` | src/delay_analysis.cc:244-262 | the signed 32-bit balance does not overflow while the totals fit |
| `DelayModel.NeedIsLeast` | src/delay_analysis.cc:237-266 | data buffered in advance covers the consumption at every ACK if and only if it is at least the amount computed |
| `DelayAnalysis.Analysis.ComputeBufferNeed` | src/delay_analysis.cc:237-266 | the loop finds the least amount that covers every balance |
| `DelayModel.ConsideredExact` | src/delay_analysis.cc:117-122 | the scan for the worst packet covers the packets up to the first one that starts after the limit, in terms of unbounded positions |
| `DelayAnalysis.Analysis.FindWorstPacket` | src/delay_analysis.cc:116-138 | the scan finds the first data packet with the largest delay below the limit |
| `DelayAnalysis.Analysis.AnalyzeTailLatency` | src/delay_analysis.cc:107-214 | the result is the attribution of what was measured for the worst packet, with the queueing and trigger delays of the chosen line; `LostAnalyzed` and `NotLostAnalyzed` say what that is |
| `DelayAnalysis.Analysis.CalculateRttLinearFit` | src/delay_analysis.cc:269-323 | the loop over the three sample sets finds that line |
| `DelayAnalysis.Analysis.GetTriggerDelay` | src/delay_analysis.cc:349-431 | both walks terminate and compute `TriggerDelay`, which `TriggerDelayExact` and `ShareExact` describe |
| `TcpFlow.DeliverInvariant` | src/tcp_flow.cc:24-68 | routing one packet keeps the invariant of both endpoints; only a packet that opens an endpoint must not be numbered zero |
| `Captures.UsableMssExact` | src/tcp_flow.cc:76-85 | the size that the peer can use and the 12 bytes of the timestamps make up the announced size, exactly when it is not below 12 |
| `TcpFlow.Flow.AddPacket` | src/tcp_flow.cc:24-68 | the method opens endpoints, passes on the MSS and routes as the model says, and the two endpoints share nothing |

## Left out

- Packet objects: packets are values in the list of their sender and links are positions in it, so the sharing of one
  packet object by its sender's list and its receiver's ACK handling is not captured. The trigger packet of an ACK is
  kept in a map by the ACK's number in the capture.
- Segments replayed with `process_packet` false, flow maps, percentiles and plain counters: easy members.
- `Captures.CaptureExact`: does not cover captures with queued SACK lookalikes, because their insertion leaves the byte
  counter stale and corrects earlier counts by a search that cannot find the peer's packet, nor ACKs for more than was
  sent, for which it fails (`AckBeyondIff`). The invariant of `EndpointInvariants` covers those runs.
- `Refinement.ReconstructionExact`: has the same limits.
- `Refinement.Observes`: takes the split into wire packets that the endpoint infers as the real one.
- `TcpEndpoint.Connection.ProcessAck`: does not record the duplicate-ACK mark of the ACK, which the modelled code never
  reads.
- `TcpEndpoint.Connection.CheckForRTO`: does not write a cleared probe or timeout flag back into an armer that is the
  peer's packet; the endpoint does not read it again.
- `Timeouts.TimeoutsInARow`: is about rows that begin without queued SACK lookalikes, and of at most 255 packets, because
  the count of timeouts has 8 bits.
- `Triggers.RtxAfterAck`: is about retransmissions without queued SACK lookalikes; `Lookalikes.TieFindsFirst` says what
  tying one changes.
- `DelayAnalysis.Analysis.AnalyzeTailLatency`: leaves the goodput step to `ComputeBufferNeed`, and takes the recomputed
  timeouts and the trigger delay of an earlier loss as parameters.
- `DelayAnalysis.Analysis.GetTriggerDelay`: takes the recomputed timeouts and the trigger delay of an earlier loss as
  parameters; no measure for that recursion follows from the endpoint's invariants.
- Unsigned 64-bit counters and timestamps are unbounded; differences of timestamps wrap as in the source. The products
  in the goodput computation are unbounded, and the goodput itself is a parameter of `ComputeBufferNeed`.
- The comparison with a fifth of a timeout is the integer comparison that the floating-point expression makes.
- `LinearFit` computes with real numbers and compares squared correlations; the rounding of floating-point numbers is
  not modelled, and a queueing delay of 2^32 us or more, which the source leaves undefined, wraps. The timeout looked up
  by `GetQueueFreeTimeouts` depends on packet indices that split packets do not carry.
- Relative ACK numbers, HandleSpuriousRtx beyond the flag it sets, `GetTimerEstimates`, `GetGoodputBps`: easy members.
- Reading captures and parsing headers below the SACK option: input and output.
