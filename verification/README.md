# tcpvisr engine: a verified model

tcpvisr turns a stream of decoded TCP segments into connections, their lifecycles, and six
time series per connection that a user can scrub through. This project models the engine
that does so, as Dafny classes, methods and functions, and proves what the engine is for:

- **Serial numbers** (`Serial`): RFC 1982 comparison on 32-bit numbers agrees with the true
  positions behind them, and exactly how far that goes.
- **Metrics** (`MetricSpec`, `MetricEngine`, `IdealMetrics`, `Flow`, `Karn`, `Window`,
  `PlainRates`, `Srtt`, `Unwrap`): bytes in flight, retransmission and reordering verdicts, round-trip times and
  trailing-window rates. The wrapping engine refines one over unbounded integers; the bounded
  window queue answers as the whole history would; every round-trip time measures one
  unambiguous send.
- **Tracker** (`Lifecycle`, `TrackerSpec`, `Connection`, `TrackerEngine`): a state machine over
  segments and clock ticks. `TrackerSpec.Run` is its value after a stream. The classes
  `TrackerEngine.Tracker`, `Connection.ConnTrack` and `MetricEngine.MetricState` update their
  fields in place as the program does, and every method is proved to do to the value what the
  function says. The theorems about runs (`TrackerIndex`, `Splits`, `IdReuse`, `Report`,
  `Accounting`, `Ceiling`, `EnoughRoom`, `Chronology`, `Attribution`, `ReadOff`, `DerivedSeries`,
  `SeriesFolds`, `Stories`, `PlainSeries`, `RecordedTruth`, `Shapes`, `WrapOrReset`, `LiveView`) are
  about that function, so about the classes. `Walk` takes the recorders apart once for all of them: whatever a segment or a tick
  records is a sequence of two kinds of move.
- **Retention** (`Backstop`, `OldestFirst`, `Eviction`, `RetentionByTime`, `LiveRetention`): what the
  memory backstop drops and keeps, and what the window retains.
- **Timeline** (`Timeline`, `Seek`, `SeekAnyOrder`, `LiveSeek`): sorting, the event index, binary
  search, the law that seeking to a time is re-running the tracker up to it, what seeking shows
  when timestamps are not in order, and what seeking back in the live view does.
- **Plots** (`Canvas`, `SequencePlot`, `RatePlot`, `PlainPlots`, `PlotInputs`): the in-place bucketing of
  samples into a cell grid against a declarative account of what every cell must show, for the
  series the tracker really hands over.
- **Documents** (`GapRule`, `Anchor`): where the documented rules and the code's part, and
  exactly when they agree.
- **Link** (`Link`): stripping inverts encapsulation, on every link type.

Times are nanoseconds in 64 bits, sequence numbers wrap at 2^32, byte and instance counts are
unbounded. `dafny verify dfyconfig.toml` checks everything.

Specification functions are pure; each loop of the source is a loop here, proved against them.
Each connection of a run has a *log*, the segments attributed to it (`Attribution.Logs`): its
life and its derived state are folds of its log, which is how the theorems about one
instance's segments reach every connection of every reachable tracker. Its *story*
(`Stories.StoriesOf`) is the log with the ticks that sampled its decay in between: what a live
run retains of each series is the end of what the story tells.

`Flow`, `ReadOff`, `Splits`, `PlainRates`, `PlainSeries` and `PlainPlots` say what comes out in terms
of what goes in, without the functions that compute it: numbers and flags of the segments, sums,
products and literals.

## Where the code and its documentation part

The model follows the code.

- docs/adr/0016-live-capture-streaming-timeline.md:43-44 and
  crates/tcpvisr-engine/src/config.rs:12-13 call `max_samples` a hard backstop that evicts the
  oldest. The code drops the front of the longest series of the *recording* connection, and
  passes the ceiling when that connection has nothing to give up. So it is not hard:
  `Accounting.BackstopHoldsExactly` says exactly when it holds, `Backstop.BackstopCanBePassed`
  gives a run for every window and every ceiling, and `Accounting.CounterIsExactAndBounded`
  bounds the excess by two per connection. And it need not evict the oldest:
  `OldestFirst.NewerCanGoFirst` gives, for every window and every ceiling from 25 on, a run in
  order of time whose next segment drops a sample newer than one still held that could go, and
  `OldestFirst.EveryDropIsJudged` says exactly which drops of such runs take the oldest: those
  where no series with something to give up has an older front than the longest series of the
  recording connection.
- docs/adr/0016-live-capture-streaming-timeline.md:62-63 lets the live user seek back to the
  retention horizon. A connection open there is missing from the list when the state in force
  there has aged away, the window keeping an old state only where it is the last.
  `LiveSeek.SeekBackExactly` says exactly when a connection shows there what its whole log gives;
  `LiveSeek.SeekBackCanMiss` gives a run, under every window, that shows nothing.
- docs/adr/0007-metric-derivation-model.md:75 measures the reordering gap from the previous
  segment of the direction; the code measures it from the previous *data* segment.
  `GapRule.RulesCanDiffer` gives data, a pure acknowledgement and late data that the two rules
  judge differently; `GapRule.RulesAgreeExactly` says for which arrangements of segments they
  agree at every timing.
- docs/adr/0011-detail-seq-timeline-and-rendering.md:59-60 and
  crates/tcpvisr-engine/src/timeline.rs:24-26 anchor a direction at its first data sequence
  number; a SACK edge that comes before any data anchors it instead.
  `Anchor.AnchorCanBeSackEdge` gives the run, and `Anchor.AnchoredAtFirstDataExactly` says exactly
  when the documented anchor is the code's.
- The window eviction answers queries before the newest data timestamp too, but not always
  rightly. `Window.WindowIsExactExactly` says for which it can be trusted on every run, and
  `Window.OtherQueriesMissBytes` gives a run that goes wrong for each of the others.
- The arm for a direction that has sent but has nothing acknowledged
  (crates/tcpvisr-engine/src/metrics.rs:102) never decides: `MetricSpec.AckedWithFirstSend`.
- A connection id is a pair and an instance number, and the number starts again at 0 once all
  the pair's instances have been collected (crates/tcpvisr-engine/src/tracker.rs:653-654), so an
  id held from earlier may come to name another connection. `IdReuse.IdsCanBeReused` gives the run
  under every evicting configuration; `IdReuse.IdsAreNeverReusedExactly` says exactly which runs
  never give an id twice.

## Model

| member | source | states |
|---|---|---|
| Serial.SerialIsPositional | crates/tcpvisr-core/src/seq.rs:12-27 | For positions less than 2^31 apart, wrapped comparison is position order and wrapped distance is distance, wherever the wraps fall |
| Serial.SerialOrderExactly | crates/tcpvisr-core/src/seq.rs:12-15 | For any two positions the comparison holds exactly when their distance modulo 2^32 is below half; at half neither direction holds |
| MetricEngine.MetricState.constructor | crates/tcpvisr-engine/src/metrics.rs:78-83 | A new metric state has two untouched directions |
| MetricEngine.MetricState.Observe | crates/tcpvisr-engine/src/metrics.rs:85-186 | Updates both directions in place and returns the sample exactly as the two per-direction machines (send, acknowledge) do |
| MetricEngine.MetricState.ObserveSequence | crates/tcpvisr-engine/src/metrics.rs:91-167 | In-flight, verdict and round-trip time of a segment, with the acknowledgement test taken before any update |
| MetricEngine.MetricState.ClassifyData | crates/tcpvisr-engine/src/metrics.rs:123-141 | Data behind the frontier is reordered within the window of the previous data, else retransmitted; the frontier moves to the serial maximum |
| MetricEngine.MetricState.PopCovered | crates/tcpvisr-engine/src/metrics.rs:153-167 | Pops the longest covered prefix of the waiting sends and times its oldest |
| MetricEngine.MetricState.WindowPushAndEvict | crates/tcpvisr-engine/src/metrics.rs:205-238 | Appends a data chunk and drops the expired front of the window, keyed to the newest data timestamp |
| MetricEngine.MetricState.ReadThroughput | crates/tcpvisr-engine/src/metrics.rs:245-276 | The trailing-window rates: nothing before any data, zero for an empty window, else the scaled sums over the chunks in (t - window, t] |
| MetricSpec.DirectionsAreIndependent | crates/tcpvisr-engine/src/metrics.rs:85-186 | Over whole runs the two directions of a connection evolve independently: each is the fold of what its side sent and the other acknowledged |
| MetricSpec.AckedWithFirstSend | crates/tcpvisr-engine/src/metrics.rs:99-115 | In every run, send frontier and acknowledged number exist together, exactly once the direction has sent, so the unacknowledged arm never decides |
| GapRule.EngineTimesData | crates/tcpvisr-engine/src/metrics.rs:107-141 | In every run the code's verdict is the documented one with the gap taken from the direction's last data segment |
| GapRule.RulesCanDiffer | crates/tcpvisr-engine/src/metrics.rs:123-141 | Data, a pure acknowledgement one reorder window later, and the data again at once: reordered by the documented rule, retransmitted by the code's |
| GapRule.RulesAgreeExactly | crates/tcpvisr-engine/src/metrics.rs:123-141 | For any arrangement of segments the two rules agree on every segment of a direction at every timing (or every timing in order) iff the window is empty or no late data follows, in its direction, a segment without data |
| IdealMetrics.RunRefinesIdeal | crates/tcpvisr-engine/src/metrics.rs:85-167 | On runs whose held and arriving positions lie within 2^31 of each other, the wrapping engine holds the residues of an engine over unbounded integers, through any number of wraps |
| IdealMetrics.SamplesRefineIdeal | crates/tcpvisr-engine/src/metrics.rs:110-185 | So every sample's in-flight bytes (0 when the ack is ahead), retransmit and out-of-order verdicts and round-trip time are the unbounded engine's |
| IdealMetrics.ReadingRefines | crates/tcpvisr-engine/src/metrics.rs:191-200 | The in-flight reading of either direction after a coherent run is the unbounded engine's, or absent when that has none |
| IdealMetrics.FrontiersAreMaxima | crates/tcpvisr-engine/src/metrics.rs:112-113 | The unbounded send frontier is the furthest end of anything sent, the data frontier of any data |
| IdealMetrics.AckedIsFurthest | crates/tcpvisr-engine/src/metrics.rs:98-116 | The unbounded acknowledged position is the furthest acknowledgement since the first send, never before where that send began |
| Flow.InFlightIsVolume | crates/tcpvisr-engine/src/metrics.rs:22-30 | For every run in which a direction sends without gap or overlap, less than 2^31 in all, the bytes in flight are its payload plus one for each SYN and each FIN, less what has been acknowledged of that |
| Flow.NothingAcknowledged | crates/tcpvisr-engine/src/metrics.rs:191-200 | Without any acknowledgement nothing is taken off |
| Flow.LateExactly | crates/tcpvisr-engine/src/metrics.rs:123-141 | Data at a position of such a flow is judged late iff the last data segment before it reaches beyond that position |
| Window.WindowInvariant | crates/tcpvisr-engine/src/metrics.rs:205-238 | In every run the window queue has forgotten only chunks already expired at the newest data timestamp |
| Window.WindowIsExact | crates/tcpvisr-engine/src/metrics.rs:205-276 | From the newest data timestamp on (or before a full window has passed), the bounded queue gives the rates of the full history, even when timestamps were reordered |
| Window.OtherQueriesMissBytes | crates/tcpvisr-engine/src/metrics.rs:225-237 | For any earlier time, with a window already passed at the newest data, a run on which the query misses bytes |
| Window.WindowIsExactExactly | crates/tcpvisr-engine/src/metrics.rs:205-276 | For any query time, newest timestamp and window: the bounded queue agrees with the full history on every such run iff the query is not earlier than the newest data, or no full window has passed yet at it, or the window is empty |
| Window.RatesFall | crates/tcpvisr-engine/src/metrics.rs:245-276 | From the newest data on both rates only fall |
| Window.RatesReachZero | crates/tcpvisr-engine/src/metrics.rs:245-276 | One window after the newest data both rates are zero |
| Window.GoodputAtMostThroughput | crates/tcpvisr-engine/src/metrics.rs:245-276 | Goodput never exceeds throughput, at any time and window |
| Window.GapIsRetransmittedRate | crates/tcpvisr-engine/src/metrics.rs:245-282 | Absent saturation throughput less goodput is the retransmitted rate to within one bit per second |
| PlainRates.UnsaturatedRate | crates/tcpvisr-engine/src/metrics.rs:278-282 | Below 64 bits the rate of n bytes over w nanoseconds is 8,000,000,000 n / w rounded down, and above that the greatest 64-bit number |
| PlainRates.RatesPlainly | crates/tcpvisr-engine/src/metrics.rs:245-282 | Where the window can be trusted, the rates of a direction at t are those of the payload lengths of its data segments stamped after t less the window and not after t, for goodput of those not judged retransmitted |
| Window.KeptAreNoNewer | crates/tcpvisr-engine/src/metrics.rs:205-238 | In every run no kept chunk is newer than the recorded newest timestamp, the premise of the two laws on falling rates |
| Karn.QueueIsUnambiguous | crates/tcpvisr-engine/src/metrics.rs:146-165 | Every waiting entry is a sequence-consuming send with no retransmission classified since, in sending order |
| Karn.RttMeasuresUnambiguousSend | crates/tcpvisr-engine/src/metrics.rs:146-167 | Every reported round-trip time is the saturating time from an earlier opposite send that the ack covers, with no retransmission in that direction since |
| Karn.NoSendMeasuredTwice | crates/tcpvisr-engine/src/metrics.rs:153-167 | Later reports measure strictly later sends |
| Karn.QueueIsUnacknowledged | crates/tcpvisr-engine/src/metrics.rs:146-167 | When new sends end past the frontier and acks never pass it, the unbounded queue is exactly the unacknowledged sends since the last retransmission |
| Karn.EngineQueueIsUnacknowledged | crates/tcpvisr-engine/src/metrics.rs:146-167 | The same for the wrapping engine on coherent runs |
| Unwrap.OffsetExactly | crates/tcpvisr-engine/src/tracker.rs:84-103 | One unwrapping step returns the true distance exactly when the value is less than 2^31 ahead of or at most 2^31 behind the frontier, and then the frontier is the maximum |
| Unwrap.UnwrapInvertsWrap | crates/tcpvisr-engine/src/tracker.rs:75-103 | Over any such sequence of positions, however many wraps, each comes back as its distance from the first |
| Srtt.TracksExactAverage | crates/tcpvisr-engine/src/tracker.rs:521-547 | The floor-divided average is never above the exact rational one and less than 7 ns below it, for any number of samples |
| Srtt.StaysInRange | crates/tcpvisr-engine/src/tracker.rs:521-547 | It stays between the least and greatest round-trip time seen |
| Srtt.SettlesOnConstantInput | crates/tcpvisr-engine/src/tracker.rs:521-547 | On constant input it reaches the input from above and within 7 ns from below, at one nanosecond a step or faster, and stays |
| DerivedSeries.TrackedSrttIsAverage | crates/tcpvisr-engine/src/tracker.rs:521-547 | For every connection of every unfailed run: smoothed time exists iff something was measured, and is within 7 ns below the exact average of all that was measured |
| DerivedSeries.TrackedPointsAreTrue | crates/tcpvisr-engine/src/tracker.rs:289-321 | For every connection of every unfailed run whose fed positions stay within reach, each data and SACK point made lies at its true distance from the first value fed, through any wraps; Anchor.AnchoredAtFirstDataExactly says when that is the first data |
| Core.CanonicalIdentifiesUnorderedPairs | crates/tcpvisr-engine/src/conn.rs:14-24 | Two unordered pairs of endpoints share a grouping key exactly when they are the same pair |
| Core.CanonicalPutsLowerFirst | crates/tcpvisr-engine/src/conn.rs:14-24 | The key holds both endpoints, the lower address first, or the lower port where the addresses are the same |
| Lifecycle.RankNeverFalls | crates/tcpvisr-engine/src/state.rs:17-33 | Over any instance's run the lifecycle rank never decreases |
| Lifecycle.ResetIsAbsorbing | crates/tcpvisr-engine/src/tracker.rs:240-247 | Once Reset, always Reset |
| Lifecycle.StateReadsTheSegments | crates/tcpvisr-engine/src/tracker.rs:240-275 | Reset iff a later segment carried RST or the first carried RST without SYN; else Closed iff both sides sent FIN, and FinWait implies exactly one did |
| Lifecycle.CountsAreExact | crates/tcpvisr-engine/src/tracker.rs:225-238 | Segments and payload are each counted once, and last activity is the latest timestamp in any arrival order |
| ReadOff.StateReadsTheHandshake | crates/tcpvisr-engine/src/tracker.rs:249-262 | Read off the segments, where no RST and no FIN but an opening SYN's was seen: Established iff the first carries no SYN or an answer (SYN-ACK, or later a bare SYN of the other side) is followed, or itself completed, by ACK or data; SynReceived iff answered and not so completed; SynSent iff opened by a bare SYN and unanswered |
| ReadOff.BytesAreBySide | crates/tcpvisr-engine/src/tracker.rs:228-238 | The two byte counts of an instance are the payload of the segments from its opener and of the others |
| ReadOff.OriginIsOpener | crates/tcpvisr-engine/src/tracker.rs:748-760 | The origin is the destination of the first segment when that is a SYN-ACK and else its source, the responder the other end, and it is inferred iff the first segment carries no SYN |
| Lifecycle.IdentityIsFixed | crates/tcpvisr-engine/src/tracker.rs:743-792 | Origin, responder and opening time are settled by the first segment for good |
| Lifecycle.IdentityKeepsPair | crates/tcpvisr-engine/src/tracker.rs:748-760 | Origin and responder canonicalize to the instance's pair however the first segment was oriented |
| Lifecycle.BackwardResetExactly | crates/tcpvisr-engine/src/tracker.rs:20-22 | Within 2^31 of the running maximum the reset test holds iff the segment is behind by more than the threshold |
| Connection.ConnTrack.constructor | crates/tcpvisr-engine/src/tracker.rs:760-784 | A new instance has no traffic, no derived state and six empty series |
| Connection.ConnTrack.Account | crates/tcpvisr-engine/src/tracker.rs:225-238 | Counts a segment in place and nothing else: activity, bytes of its side, serial maximum baseline |
| Connection.ConnTrack.ApplyState | crates/tcpvisr-engine/src/tracker.rs:240-275 | Advances the lifecycle in place and nothing else, with the value-level law's branches |
| Connection.ConnTrack.PushSeqPoints | crates/tcpvisr-engine/src/tracker.rs:289-321 | Moves the unwrapping frontiers over the data point and every SACK block and returns their points |
| Connection.ConnTrack.LongestSeries | crates/tcpvisr-engine/src/tracker.rs:156-171 | The last of the longest evictable series, the states always keeping one |
| Connection.ConnTrack.PopLongestFront | crates/tcpvisr-engine/src/tracker.rs:156-180 | Drops the oldest sample of that series iff one can go, and no other |
| Connection.ConnTrack.Age | crates/tcpvisr-engine/src/tracker.rs:397-412 | Ages all six series in place and takes exactly what went off the count |
| Connection.DropOld | crates/tcpvisr-engine/src/tracker.rs:142-152 | The front-dropping loop, with its saturating count |
| TrackerSpec.Longest | crates/tcpvisr-engine/src/tracker.rs:156-171 | The chosen series is longest, and strictly longer than every later one |
| TrackerSpec.PushEffect | crates/tcpvisr-engine/src/tracker.rs:381-431 | One recording, whole: refuse, or make room if full and append, with the count that results |
| TrackerEngine.Tracker.constructor | crates/tcpvisr-engine/src/tracker.rs:356-366 | An empty tracker |
| TrackerEngine.Tracker.Admit | crates/tcpvisr-engine/src/tracker.rs:381-394 | Admission in place: count, evict one and count, or fail for good |
| TrackerEngine.Tracker.Record | crates/tcpvisr-engine/src/tracker.rs:421-451 | The guarded admit-and-append all six recorders share |
| TrackerEngine.Tracker.CollectSeqPoints | crates/tcpvisr-engine/src/tracker.rs:453-469 | Moves the frontiers, then records the points one by one |
| TrackerEngine.Tracker.CollectInFlight | crates/tcpvisr-engine/src/tracker.rs:489-506 | Records an in-flight point for each direction that has one |
| TrackerEngine.Tracker.CollectRttPoint | crates/tcpvisr-engine/src/tracker.rs:521-548 | Smooths a reported round-trip time into the measured direction and records it |
| TrackerEngine.Tracker.CollectThroughput | crates/tcpvisr-engine/src/tracker.rs:570-590 | Records a rate point for each direction that has sent data |
| TrackerEngine.Tracker.SplitsFrom | crates/tcpvisr-engine/src/tracker.rs:725-741 | The split decision read from the live instance |
| TrackerEngine.Tracker.Create | crates/tcpvisr-engine/src/tracker.rs:743-819 | Opens the pair's next instance, makes it live, and records its first segment |
| TrackerEngine.Tracker.ObserveOne | crates/tcpvisr-engine/src/tracker.rs:684-722 | Joins the live instance of the pair or opens a new one, whole new state |
| TrackerEngine.Tracker.AgeSamples | crates/tcpvisr-engine/src/tracker.rs:397-412 | Ages every connection and keeps the count exact |
| TrackerEngine.Tracker.DecaySamples | crates/tcpvisr-engine/src/tracker.rs:621-636 | Rate and in-flight decay points for every connection that is not idle |
| TrackerEngine.Tracker.EvictDeadConnections | crates/tcpvisr-engine/src/tracker.rs:638-665 | Keeps the survivors in order and, if any went, rebuilds index and instance numbers and recounts |
| TrackerEngine.Tracker.Recount | crates/tcpvisr-engine/src/tracker.rs:669-682 | The count is set to the sum of all series lengths |
| TrackerEngine.Tracker.ObserveTickAt | crates/tcpvisr-engine/src/tracker.rs:608-617 | A tick: nothing under fail-fast, else advance the clock, decay, age, collect |
| TrackerEngine.Tracker.Observe | crates/tcpvisr-engine/src/tracker.rs:594-606 | One item moves the tracker's value by exactly one step of the specification |
| TrackerEngine.Tracker.Snapshot | crates/tcpvisr-engine/src/tracker.rs:899-915 | The live timeline, ending at the tracker's clock, state untouched |
| TrackerEngine.Tracker.IntoTimeline | crates/tcpvisr-engine/src/tracker.rs:856-878 | The finished timeline, or the ceiling error with its numbers if collection failed |
| TrackerEngine.Tracker.IntoConnections | crates/tcpvisr-engine/src/tracker.rs:823-827 | The connections as the object holds them, in the order of the report |
| TrackerEngine.Tracker.IntoMetrics | crates/tcpvisr-engine/src/tracker.rs:833-850 | The same with their metric series, or the ceiling error with its numbers if collection failed |
| TrackerEngine.Track | crates/tcpvisr-engine/src/tracker.rs:920-929 | Tracking a stream with the object reports the connections of the specification's run, in the order of the report |
| Report.ReportIsDetermined | crates/tcpvisr-engine/src/tracker.rs:823-850 | For every reachable tracker the report is its connections, none lost or added, by opening time, pair and instance, and no other sequence of them is in that order |
| Report.ReportPlainly | crates/tcpvisr-engine/src/tracker.rs:823-850 | Every run reports each connection once, with its metric samples, the numbers (opening time, lower address and port, higher address and port, instance) rising lexicographically |
| Report.WithheldExactly | crates/tcpvisr-engine/src/tracker.rs:833-878 | Both results are withheld iff collection failed, and then name one sample more than the ceiling, and the ceiling |
| TrackerLives.SegmentLives | crates/tcpvisr-engine/src/tracker.rs:684-722 | One segment changes exactly one life (or adds one), whatever is recorded or evicted |
| TrackerLives.TickLives | crates/tcpvisr-engine/src/tracker.rs:608-636 | Decay and aging change no life |
| TrackerLives.SurvivorsAreSubsequence | crates/tcpvisr-engine/src/tracker.rs:638-652 | Collection keeps a subsequence, each member of which survives |
| TrackerIndex.RunIndexed | crates/tcpvisr-engine/src/tracker.rs:638-665 | In every reachable state, a pair is live iff tracked and points at its greatest index; instances of a pair increase below the next number; every origin and responder canonicalize to the pair |
| TrackerIndex.IdsAreDistinct | crates/tcpvisr-engine/src/tracker.rs:743-805 | In every reachable state all connection ids are distinct |
| Splits.UntrackedSegmentAdds | crates/tcpvisr-engine/src/tracker.rs:684-722 | On every run a segment of an untracked pair adds a connection |
| Splits.SegmentAddsExactly | crates/tcpvisr-engine/src/tracker.rs:725-741 | On every run a segment of a tracked pair adds a connection iff the pair's last one is Closed, Reset or silent for longer than the idle limit and the segment is a bare SYN, or it is Established and the segment lies behind its side's furthest number by more than the threshold and less than 2^31; otherwise it joins that connection and changes no other life |
| Splits.InstancesAreConsecutive | crates/tcpvisr-engine/src/tracker.rs:743-763 | In replays and runs without ticks the instances of a pair are numbered 0, 1, 2 and so on in the order they open |
| Chronology.ClockIsExact | crates/tcpvisr-engine/src/tracker.rs:594-617 | The clock is the latest time heard, of every segment and, under eviction only, of every tick |
| IdReuse.OpenedIdIsCarried | crates/tcpvisr-engine/src/tracker.rs:743-763 | The ids counted as opened by a run are those its new connections carry |
| IdReuse.IdsCanBeReused | crates/tcpvisr-engine/src/tracker.rs:650-661 | Under every evicting configuration: a segment, a tick past the window and the idle limit, and any later segment of the pair open instance 0 twice |
| IdReuse.IdsAreNeverReusedExactly | crates/tcpvisr-engine/src/tracker.rs:650-661 | All ids a run ever opens are distinct iff no segment opens a pair that was tracked before and is wholly untracked then |
| IdReuse.ReplayNeverReuses | crates/tcpvisr-engine/src/tracker.rs:743-763 | So no fail-fast run, and no run without ticks, gives an id twice |
| Recording.ObserveSegmentIsPut | crates/tcpvisr-engine/src/tracker.rs:684-819 | Unless collection fails, a segment is placement followed by recording a list that retention has no say in |
| Accounting.CounterIsExactAndBounded | crates/tcpvisr-engine/src/tracker.rs:381-418 | In every reachable state the counter is the number of samples held; fail-fast never passes the ceiling and fails only at it; eviction never fails and passes it by at most two per connection |
| Accounting.BackstopHoldsExactly | crates/tcpvisr-engine/src/tracker.rs:381-394 | Under eviction, from any count, the count after a recording is within the ceiling iff it was below it before, or at it with something to give up in the connection |
| Backstop.OpeningFills | crates/tcpvisr-engine/src/tracker.rs:381-418 | While nothing has aged, the first segment of an untracked pair stays within a ceiling not yet met, and passes a met one by exactly one |
| Backstop.BackstopCanBePassed | crates/tcpvisr-engine/src/tracker.rs:414-418 | For every window, every ceiling N and any further gates: a run that holds exactly N samples, and then a new pair's segment after which it holds N + 1 |
| OldestFirst.DropsDropped | crates/tcpvisr-engine/src/tracker.rs:156-180 | A recording that drops takes exactly the front of the longest series of its own connection |
| OldestFirst.DropsOldestExactly | crates/tcpvisr-engine/src/config.rs:12-13 | Where series are in order, the sample dropped is no newer than any that could go, of its connection or of all, iff no series there with something to give up has an older front than the longest series of the recording connection |
| OldestFirst.NothingElseIsRecorded | crates/tcpvisr-engine/src/tracker.rs:621-722 | The recordings of a segment are those of what it produces, one by one, and of a tick those of what it samples of each connection that is not idle |
| OldestFirst.EveryDropIsJudged | crates/tcpvisr-engine/src/config.rs:12-13 | That holds at every one of these recordings that drops, by whatever segment or tick, of every run in which no segment comes before an earlier item |
| OldestFirst.NewerCanGoFirst | crates/tcpvisr-engine/src/tracker.rs:414-418 | For every window, every ceiling from 25 on and any further gates: a run in order of time that fills the ceiling with two clients, after which a segment drops a sample of its client newer than one of the other that could go and stays |
| Chronology.SeriesAreOrdered | crates/tcpvisr-engine/src/tracker.rs:594-665 | Where no segment comes before an earlier item, every retained series of every reachable tracker is in order and none runs past the clock, under either policy, through aging, backstop and ticks |
| Ceiling.SuccessIsCeilingFree | crates/tcpvisr-engine/src/tracker.rs:833-862 | A fail-fast run that succeeds is, field for field, the run under any higher ceiling |
| Ceiling.FailsExactly | crates/tcpvisr-engine/src/tracker.rs:381-394 | A replay fails iff the stream makes more samples than its ceiling: more than the replay holds under any ceiling at which it does not fail |
| EnoughRoom.SegmentGrows | crates/tcpvisr-engine/src/tracker.rs:684-722 | No segment records more than its SACK blocks plus eight samples |
| EnoughRoom.SomeCeilingSuffices | crates/tcpvisr-engine/src/tracker.rs:833-839 | Every stream succeeds under some ceiling and all higher ones, so an unbounded tracker exists to compare with |
| EnoughRoom.EvictingAgreesWithUnbounded | crates/tcpvisr-engine/src/tracker.rs:397-418 | On every segment stream the evicting tracker agrees with the unbounded one on all but the series, each of which it holds a suffix of |
| Eviction.EvictionNeverCorrupts | crates/tcpvisr-engine/src/tracker.rs:381-418 | The same against any fail-fast run that did not overflow |
| Eviction.RetentionIsExact | crates/tcpvisr-engine/src/tracker.rs:142-152 | With the ceiling never met, each retained series is exactly what aging the unbounded one at the current horizon leaves, whatever the timestamp order |
| RetentionByTime.EvictFrontIsSince | crates/tcpvisr-engine/src/tracker.rs:142-152 | On a sorted series front-dropping keeps exactly the samples since the horizon, or the last one if one must stay |
| RetentionByTime.RetainsLastWindow | crates/tcpvisr-engine/src/tracker.rs:397-412 | On in-order streams every series is exactly its samples of the last window, the states keeping at least their last |
| LiveRetention.LiveRetentionIsExact | crates/tcpvisr-engine/src/tracker.rs:397-412 | As long as the ceiling is never met (at each item there is room, beside what aging and collection have left, for what it records), and for any order of segments and ticks, a live run retains exactly what aging at its horizon leaves of all each connection's story tells, however much was recorded before |
| LiveRetention.RoomForAllIsNeverFull | crates/tcpvisr-engine/src/tracker.rs:381-394 | A ceiling with room for all the stream could ever record is never met |
| LiveRetention.LiveRetainsLastWindow | crates/tcpvisr-engine/src/tracker.rs:397-412 | And where no segment comes before an earlier item, that is the samples of the last window, of segments and of ticks, the states keeping at least their last |
| Attribution.LivesAreFolds | crates/tcpvisr-engine/src/tracker.rs:684-722 | In every reachable state each connection's life is the fold of the segments attributed to it, all of its own pair |
| Attribution.TrackedStateReadsSegments | crates/tcpvisr-engine/src/tracker.rs:225-275 | So every tracked connection reads off its own segments: state through handshake, close and reset, both byte counts by side, segment count, last activity, and who the origin is |
| Attribution.StreamIsConserved | crates/tcpvisr-engine/src/tracker.rs:684-722 | Until a whole connection is collected, segments and payload bytes summed over connections equal the stream's, per pair and overall, through splits and overflow |
| Attribution.ReplayCollectsNothing | crates/tcpvisr-engine/src/tracker.rs:638-641 | Fail-fast runs, and runs without ticks, never collect a connection |
| Attribution.DerivedAreFolds | crates/tcpvisr-engine/src/tracker.rs:694-722 | In every unfailed run each connection's metrics, smoothing and unwrapping are a fold of its own segments alone |
| Attribution.TrackedMetricsAreRun | crates/tcpvisr-engine/src/tracker.rs:694-722 | So the metric theorems hold of every tracked connection |
| SeriesFolds.SeriesAreFolds | crates/tcpvisr-engine/src/tracker.rs:684-722 | In every unfailed replay each of a connection's six series is exactly what its own segments produced, in order, whatever other connections do |
| SeriesFolds.RecordedPointsAreTrue | crates/tcpvisr-engine/src/tracker.rs:453-469 | So the recorded sequence series of such a replay is, point for point in each direction, the true distances from the first value fed, through any wraps |
| Anchor.AnchoredAtFirstDataExactly | crates/tcpvisr-engine/src/timeline.rs:24-26 | Under the same premises every recorded data point lies at its distance from the first data position iff no SACK edge was fed before that data, or the first value fed stands at the same position |
| Anchor.AnchorCanBeSackEdge | crates/tcpvisr-engine/src/tracker.rs:289-321 | A SACK edge and then the first data at another sequence number: the replay records that data away from 0 |
| Stories.SeriesAreTold | crates/tcpvisr-engine/src/tracker.rs:594-636 | In every unfailed run, under either policy, with segments and ticks in any order, each series a connection retains is the end of what its own segments, and the ticks that sampled it, produced in order |
| Stories.StoriesAreDated | crates/tcpvisr-engine/src/tracker.rs:608-636 | No story runs past the clock or past a tick in it; it is in order where no segment comes before an earlier item, and a replay's has no ticks |
| Stories.RetainedOfLog | crates/tcpvisr-engine/src/tracker.rs:594-636 | Of the four series no tick adds to, the end of what the log alone makes is retained, and in a replay all of every series |
| PlainSeries.EventAdds | crates/tcpvisr-engine/src/tracker.rs:421-590 | Each of the six series grows event by event by just this: for a segment its state and byte counts, its metric sample with verdict, in-flight bytes and rate, a point with its length and verdict if it carries data and one for each SACK block in the direction acknowledged, and the round-trip time it reports; for a segment or sampling tick a reading for each direction that has sent and a rate for each that has sent data; nothing where a series is switched off |
| PlainSeries.SwitchedOffIsEmpty | crates/tcpvisr-engine/src/tracker.rs:421-590 | A series that is switched off, or a metric series of an instance not asked for, is empty in every connection of every unfailed run |
| RecordedTruth.RecordedRttsAreTrue | crates/tcpvisr-engine/src/tracker.rs:521-548 | In every unfailed run the round-trip series of a connection's log has one sample for each acknowledgement that reports a time, in order, each measuring one unambiguous send and carrying the average so far; a replay records all of it, a live run retains its end |
| RecordedTruth.RecordedRttsDiffer | crates/tcpvisr-engine/src/tracker.rs:521-548 | Two samples of one direction measure different sends, in order |
| RecordedTruth.RetainedPointsAreTrue | crates/tcpvisr-engine/src/tracker.rs:453-469 | The sequence series retained by any unfailed run is the end of a series whose points are the true distances from the first value fed |
| RecordedTruth.RecordedInFlightIsIdeal | crates/tcpvisr-engine/src/tracker.rs:489-506 | In any unfailed run, where a connection's segments stand at coherent positions, every retained in-flight sample is what the unbounded engine has in flight at the segment or tick that made it |
| RecordedTruth.RecordedRatesAreNaive | crates/tcpvisr-engine/src/tracker.rs:570-590 | In any unfailed run every retained rate sample is the scaled sum over all data its direction ever sent whenever the window can be trusted at the segment or tick that made it: at every tick, and at every segment where none comes before an earlier item |
| Shapes.SeriesAlwaysFit | crates/tcpvisr-engine/src/tracker.rs:570-590 | In every reachable state, under either policy, each series holds only its own kind of sample and no rate sample's goodput exceeds its throughput, which the throughput plot relies on |
| WrapOrReset.WrapNeverSplits | crates/tcpvisr-engine/src/tracker.rs:225-238 | A one-pair stream that stays within the threshold behind and 2^31 ahead of each side's maximum, with no bare SYN after its first segment, is one instance through any number of wraps |
| WrapOrReset.ResetSplitsExactly | crates/tcpvisr-engine/src/tracker.rs:725-741 | On an established instance a segment within 2^31 that is no bare SYN splits iff it is behind by more than the threshold |
| WrapOrReset.ResetSplitsRunExactly | crates/tcpvisr-engine/src/tracker.rs:725-741 | After a steady, established one-pair run, a further segment within 2^31 of the true maximum of its side and no bare SYN leaves two instances iff it is behind by more than the threshold, else one |
| WrapOrReset.SplitOpensFreshInstance | crates/tcpvisr-engine/src/tracker.rs:743-805 | A split adds one live, higher-numbered instance holding that segment and leaves every other life alone |
| Timeline.WithSeqEnding | crates/tcpvisr-engine/src/timeline.rs:155-192 | The constructor's loops build the specified timeline |
| Timeline.SortSorts | crates/tcpvisr-engine/src/timeline.rs:164-168 | Sorting orders by time and keeps the multiset |
| Timeline.SortIsStable | crates/tcpvisr-engine/src/timeline.rs:164-168 | Samples stamped alike keep their order |
| Timeline.EventIndexIsExact | crates/tcpvisr-engine/src/timeline.rs:169-185 | The event index is strictly increasing and holds exactly the state times of the input |
| Timeline.StartIsFirstEvent | crates/tcpvisr-engine/src/timeline.rs:156-160 | The timeline starts at its first event, or at zero when there is none |
| Timeline.PartitionPointSplits | crates/tcpvisr-engine/src/timeline.rs:275 | Binary search finds the boundary of any partitioned sequence |
| Timeline.NextEventIsLeastAfter | crates/tcpvisr-engine/src/timeline.rs:289-292 | The next event is the least event time after t over the unsorted, duplicated input, or there is none |
| Timeline.PrevEventIsGreatestBefore | crates/tcpvisr-engine/src/timeline.rs:296-299 | The previous event is the greatest before t, or there is none |
| Timeline.SteppingInverts | crates/tcpvisr-engine/src/timeline.rs:289-299 | On event times stepping forward and back invert each other |
| Timeline.WalkVisitsEverything | crates/tcpvisr-engine/src/timeline.rs:289-292 | Repeated stepping from before the first event visits each event time once, in order, and stops |
| Seek.SeekingIsReRunning | crates/tcpvisr-engine/src/timeline.rs:270-285 | For in-order streams with state collection and no overflow, resolving at T lists exactly the connections of the run on the prefix up to T not yet ended, in order, with that run's states and bytes |
| Seek.AxisOfReplay | crates/tcpvisr-engine/src/tracker.rs:856-878 | The finished timeline of an unfailed replay has an event at the time of every segment and at no other, and runs from the first of them to the last |
| SeekAnyOrder.SeekingShowsPicks | crates/tcpvisr-engine/src/timeline.rs:270-285 | For any order of timestamps, with state collection and no overflow, resolving at T lists exactly the connections open by T and not over before it, in order, each as it was after the last of its segments among those with the greatest timestamp not after T |
| SeekAnyOrder.PickPicks | crates/tcpvisr-engine/src/timeline.rs:270-285 | There is such a segment iff some timestamp is not after T, and it is the one chosen |
| LiveSeek.SnapshotShows | crates/tcpvisr-engine/src/tracker.rs:899-915 | After any mix of items in any order of time, the live snapshot resolved at any T lists each connection open by T, not over before it and retaining a state not after it, as it was after the last of its segments with retained states among those with the greatest timestamp not after T |
| LiveSeek.SeekBackExactly | docs/adr/0016-live-capture-streaming-timeline.md:60-64 | At any T from the horizon on, where the ceiling is never met and no segment comes before an earlier item, a connection shows just what its whole log gives, except that it is missing iff its last segment by T is older than the horizon and a later one has followed |
| LiveSeek.SeekBackCanMiss | docs/adr/0016-live-capture-streaming-timeline.md:60-64 | For every window above zero and every ceiling with room for two segments: a client opens, is silent for longer than the window and is heard again, and the snapshot at the horizon is empty although it was open there and has not ended |
| LiveView.ResolvableExactly | crates/tcpvisr-engine/src/tracker.rs:899-915 | Under eviction with state collection, after any mix of items the snapshot at now lists a tracked connection iff it is not closed or reset, or was last active at now |
| LiveView.UnfinishedResolveToCurrent | crates/tcpvisr-engine/src/tracker.rs:899-915 | And then with its current state and bytes when segment times never go back |
| LiveView.SurvivorsAreRecent | crates/tcpvisr-engine/src/tracker.rs:608-652 | After a tick every connection was last active within the longer of window and idle limit |
| LiveView.SurvivorsAreKept | crates/tcpvisr-engine/src/tracker.rs:638-652 | A tick loses no connection that is recent, or neither finished nor idle |
| LiveView.TickCollectsExactly | crates/tcpvisr-engine/src/tracker.rs:638-652 | What is tracked after a tick is what was tracked before, less the connections that are Closed, Reset or silent for longer than the idle limit, and were last active before the window |
| LiveView.SpansAreOrdered | crates/tcpvisr-engine/src/timeline.rs:254-259 | In every reachable state the live timeline, and the finished one when collection succeeded, give each tracked connection its own span, from its opening to its last activity if ended and the timeline's end otherwise, never inverted |
| Canvas.Cell | crates/tcpvisr-tui/src/detail.rs:67-73 | A scaled value is always a cell of the axis |
| Canvas.CellExactly | crates/tcpvisr-tui/src/detail.rs:57-73 | A value on the axis lands in cell c iff it lies in the c-th of the equal steps |
| Canvas.CellIsMonotone | crates/tcpvisr-tui/src/throughput.rs:72-80 | Larger values never land lower |
| PlainPlots.ColumnPlainly | crates/tcpvisr-tui/src/detail.rs:57-64 | In either plot a time within a span that is not empty lies in column c iff c times the span is at most its distance from the start times (width - 1), and c + 1 times the span exceeds that; in an empty span in column 0 |
| PlainPlots.SmallestPlot | crates/tcpvisr-tui/src/detail.rs:87-89 | A rectangle is too small iff it is narrower than 8 or lower than 3 |
| Canvas.IndexIsOneToOne | crates/tcpvisr-tui/src/throughput.rs:82-84 | Every cell of the rectangle has its own index, inside the grid |
| Canvas.DrawCursor | crates/tcpvisr-tui/src/detail.rs:125-130 | Fills exactly the empty cells of the cursor column |
| Canvas.CollectMarks | crates/tcpvisr-tui/src/detail.rs:132-139 | One mark for each filled cell and no other, in row-major order |
| Canvas.RowMajorIsDetermined | crates/tcpvisr-tui/src/detail.rs:132-139 | A row-major list of marks is determined by its set of marks |
| SequencePlot.Project | crates/tcpvisr-tui/src/detail.rs:79-148 | Nothing below the minimum rectangle; else axes over the whole focus direction, and a mark in a cell iff it is the most salient revealed sample landing there, or the cursor where none does |
| SequencePlot.MostSalientIsUnique | crates/tcpvisr-tui/src/detail.rs:39-54 | A cell has at most one most salient content |
| SequencePlot.PlotIgnoresOrder | crates/tcpvisr-tui/src/detail.rs:79-148 | Two plots of the same set of samples, in any order and repetition, are equal |
| SequencePlot.RevealOnlyAdds | crates/tcpvisr-tui/src/detail.rs:109-121 | Moving the cursor later keeps the axes, and a cell goes on showing a sample at least as salient |
| PlainPlots.SequencePlotPlainly | crates/tcpvisr-tui/src/detail.rs:39-148 | The whole plot in plain terms: a cell shows a retransmission if one revealed by the cursor lies in it, else a SACK, else late data, else data in turn, else the cursor in its column, each by its glyph, columns and rows given by products alone |
| RatePlot.FindPeaks | crates/tcpvisr-tui/src/throughput.rs:97-108 | Each column's peak is the highest row of a revealed sample in it, or nothing |
| RatePlot.Place | crates/tcpvisr-tui/src/throughput.rs:89-120 | Overwrites exactly each column's peak cell |
| RatePlot.Project | crates/tcpvisr-tui/src/throughput.rs:130-205 | A mark in a cell iff it is the column's goodput peak, or else its throughput peak, or else the cursor's column |
| RatePlot.PlotIgnoresOrder | crates/tcpvisr-tui/src/throughput.rs:130-205 | Two plots of the same set of samples are equal |
| RatePlot.GoodputNeverAboveTotal | crates/tcpvisr-tui/src/throughput.rs:123-128 | When no sample's goodput exceeds its throughput, a column's goodput peak has a throughput peak at or above it |
| RatePlot.PlotKeepsGoodputBelow | crates/tcpvisr-tui/src/throughput.rs:123-128 | In a plot of such samples every goodput mark has the total of its column at its own height or marked above it |
| PlainPlots.RatePlotPlainly | crates/tcpvisr-tui/src/throughput.rs:60-205 | The whole plot in plain terms: a cell shows goodput iff it is the row of its column's greatest revealed goodput, else throughput iff it is that of the greatest throughput, else the cursor in its column |
| PlotInputs.TimelinesFit | crates/tcpvisr-engine/src/timeline.rs:24-71 | In every reachable state the series of the live and of the finished timeline are what the plots take, goodput never above throughput |
| PlotInputs.GoodputMarksSitBelow | crates/tcpvisr-tui/src/throughput.rs:123-128 | So no throughput plot of a tracked connection ever shows goodput above the total |
| RatePlot.PeakIsRowOfGreatest | crates/tcpvisr-tui/src/throughput.rs:86-88 | A column's peak is the row of its greatest revealed rate |
| Link.StripEthernet | crates/tcpvisr-ingest/src/link.rs:76-92 | The loop terminates on every byte string and computes the recursive stripper |
| Link.StripUndoesEncapsulation | crates/tcpvisr-ingest/src/link.rs:76-92 | Any payload behind any addresses and any stack of 802.1Q and 802.1ad tags comes back whole |
| Link.IpExactly | crates/tcpvisr-ingest/src/link.rs:76-92 | The result is a payload iff the frame encapsulates it |
| Link.NonTcpExactly | crates/tcpvisr-ingest/src/link.rs:87-89 | A frame is skipped as non-IP iff its tags end in some other ethertype |
| Link.IpIsSuffix | crates/tcpvisr-ingest/src/link.rs:49-74 | On every link type the IP bytes are a suffix of the frame |
| Link.HeadersComeOff | crates/tcpvisr-ingest/src/link.rs:49-92 | On every link type the result is a payload iff the frame is that payload behind a header of the link: none, four bytes, sixteen with the type at 14, twenty with the type at 0, or twelve and any tags and the type; the type being bytes 08 00 or 86 DD and tags opening with 81 00 or 88 A8 |
| Link.OthersArePassedOver | crates/tcpvisr-ingest/src/link.rs:49-92 | On every link type a frame is skipped as not TCP iff its type is there and is something else |

## Left out

- Overflow of 64-bit byte totals, sample counts, relative offsets and 32-bit instance numbers: these are unbounded here.
- Endpoints: an IP address is its rank in address order; TCP flags are the four bits the engine reads; of TCP options only the left edges of SACK blocks are kept.
- Deques are sequences that the classes' methods reassign. The tracker's two hash maps are maps; iteration order never matters.
- The six near-identical recorders of the tracker are one method, taking the series; the sample-direction type is merged with the engine's own.
- The accessors that return one series of a timeline.
- `resolve_at`, `next_event` and `prev_event` search by a recursive binary search, since the library's own is not part of the source.
- SeriesFolds.RecordedPointsAreTrue: measures from the first value fed, as the code does, not from the first data.
- RecordedTruth.RetainedPointsAreTrue: measures from the first value fed, as the code does, not from the first data.
- Canvas.Cell: does not model 128-bit intermediate products, which these operands cannot exceed.
- RatePlot.Place: grid cells hold a mark's glyph and series without repeating its position; the position is the cell.
- SequencePlot.Project: an inverted time span is excluded, as the clamp of the source panics on one; LiveView.SpansAreOrdered shows that no timeline of the tracker has one.
- RatePlot.Project: the same exclusion.
- PlainPlots.ColumnPlainly: the same exclusion.
- PlainPlots.SequencePlotPlainly: the same exclusion.
- PlainPlots.RatePlotPlainly: the same exclusion.
- DerivedSeries.TrackedPointsAreTrue: measures from the first value fed, as the code does, not from the first data; speaks of all points made; a replay records exactly these (SeriesFolds.RecordedPointsAreTrue), and any other run retains their end (RecordedTruth.RetainedPointsAreTrue).
- The in-flight and round-trip plots: the same bucketing as the throughput plot.
- Frame decoding past the link layer, DNS and names, capture sources, threads, the clock, the command line, rendering and key handling.
