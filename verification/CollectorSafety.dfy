/** Selector soundness and the interval map invariant of the collector, over every run:
    crashes, rejected writes, lost acknowledgements, late deliveries and restarts included. */
module CollectorSafety {
  import opened Common
  import opened Schedule
  import opened RoundRobin
  import opened Publication
  import opened CollectorMachine

  predicate ValidConfig(c: Config) {
    ValidSettings(c.settings)
  }

  /*** The invariant ***/

  /** The map covers exactly the hours of one past window. */
  ghost predicate BookOk(c: Config, clock: nat, b: Book) {
    && Aligned(b.origin) && Aligned(b.start) && Aligned(b.end)
    && b.origin <= b.start
    && b.start == HoursBefore(b.end, c.settings.historyHours)
    && b.end <= WindowEnd(c.settings, clock)
    && b.status.intervals.Keys == Grid(b.start, b.end)
    && b.status.binding == c.binding
  }

  ghost predicate Known(b: Book, hours: seq<nat>) {
    forall t :: t in hours ==> t in b.status.intervals
  }

  ghost predicate NextOk(b: Book, next: Next) {
    next.ThenCollect? ==> Known(b, next.todo)
  }

  /** A pending snapshot passes its replay checks and is for an hour of the durable map. */
  ghost predicate PendingOk(s: State) {
    s.pending.Some? ==>
      && GoodPending(s.pending.value)
      && s.durable.Some? && s.pending.value.start in s.durable.value.status.intervals
      && (!s.pc.Down? ==> s.pending.value.start in s.volatile.status.intervals)
  }

  ghost predicate PcOk(s: State)
    requires PendingOk(s)
  {
    match s.pc
    case Down => true
    case Idle => true
    case Publishing(sent, next) =>
      s.pending.Some? && NextOk(s.volatile, next)
      && sent <= |Batches(s.pending.value)| && Written(s.pending.value, sent) <= s.sink.records
    case Committing(next) =>
      s.pending.Some? && NextOk(s.volatile, next) && AllRecords(s.pending.value) <= s.sink.records
    case Removing(next) =>
      s.pending.Some? && NextOk(s.volatile, next) && AllRecords(s.pending.value) <= s.sink.records
      && s.durable == Some(s.volatile)
    case Scheduling => s.pending.None?
    case Scheduled(todo) => s.pending.None? && Known(s.volatile, todo)
    case Collecting(todo) => s.pending.None? && Known(s.volatile, todo) && s.durable == Some(s.volatile)
    case Captured(todo) => s.pending.Some? && Known(s.volatile, todo)
  }

  /** A selector names only snapshots whose every point is stored. */
  ghost predicate SelectorsSound(sink: Sink) {
    forall t :: t in sink.selected ==>
      sink.selected[t].start == t && AllRecords(sink.selected[t]) <= sink.records
  }

  /** Undelivered selector writes are for fully stored snapshots; undelivered batches repeat
      stored points, unless their snapshot is still pending. */
  ghost predicate LateOk(s: State) {
    forall w :: w in s.late ==>
      match w
      case SelectorWrite(x) => AllRecords(x) <= s.sink.records
      case BatchWrite(x, index) => AllRecords(x) <= s.sink.records || s.pending == Some(x)
  }

  ghost predicate Safe(c: Config, s: State) {
    && (!s.pc.Down? ==> s.durable.Some? && BookOk(c, s.clock, s.volatile))
    && (s.durable.Some? ==> BookOk(c, s.clock, s.durable.value))
    && PendingOk(s)
    && PcOk(s)
    && SelectorsSound(s.sink)
    && LateOk(s)
  }

  /** The part of the invariant that does not look at the sink. */
  ghost predicate Shape(c: Config, s: State) {
    && (!s.pc.Down? ==> s.durable.Some? && BookOk(c, s.clock, s.volatile))
    && (s.durable.Some? ==> BookOk(c, s.clock, s.durable.value))
    && PendingOk(s)
    && (s.pc.Publishing? || s.pc.Committing? || s.pc.Removing? || s.pc.Captured? ==> s.pending.Some?)
    && (s.pc.Scheduling? || s.pc.Scheduled? || s.pc.Collecting? ==> s.pending.None?)
    && (s.pc.Removing? || s.pc.Collecting? ==> s.durable == Some(s.volatile))
  }

  lemma SafeShape(c: Config, s: State)
    requires Safe(c, s)
    ensures Shape(c, s)
  {
  }

  /*** Steps ***/

  lemma WrittenStep(x: Snapshot, n: nat)
    requires Buildable(x) && n < |Batches(x)|
    ensures Written(x, n + 1) == Written(x, n) + RecordsOf(x, Batches(x)[n])
  {
    assert Batches(x)[..n + 1] == Batches(x)[..n] + [Batches(x)[n]];
    FlattenSnoc(Batches(x)[..n], Batches(x)[n]);
  }

  lemma WrittenAll(x: Snapshot)
    requires Buildable(x)
    ensures Written(x, |Batches(x)|) == AllRecords(x)
  {
    assert Batches(x)[..|Batches(x)|] == Batches(x);
    GroupsKeepLines(Lines(x));
  }

  lemma BatchWithin(x: Snapshot, index: nat)
    requires Buildable(x) && index < |Batches(x)|
    ensures RecordsOf(x, Batches(x)[index]) <= AllRecords(x)
  {
    WrittenStep(x, index);
    WrittenAll(x);
    WrittenMonotone(x, index + 1, |Batches(x)|);
  }

  lemma {:induction false} WrittenMonotone(x: Snapshot, n: nat, m: nat)
    requires Buildable(x) && n <= m <= |Batches(x)|
    ensures Written(x, n) <= Written(x, m)
    decreases m - n
  {
    if n < m {
      WrittenStep(x, n);
      WrittenMonotone(x, n + 1, m);
    }
  }

  lemma BookLater(c: Config, clock: nat, now: nat, b: Book)
    requires BookOk(c, clock, b) && clock <= now
    ensures BookOk(c, now, b)
  {
    WindowMonotone(c.settings, clock, now);
  }

  lemma BookSize(c: Config, clock: nat, b: Book)
    requires ValidConfig(c) && BookOk(c, clock, b)
    ensures |b.status.intervals| <= c.settings.historyHours <= MAX_INTERVALS
  {
    WindowCount(c.settings, b.start, b.end);
    assert |b.status.intervals| == |b.status.intervals.Keys|;
  }

  lemma CommitKeepsBook(c: Config, clock: nat, b: Book, x: Snapshot)
    requires ValidConfig(c) && BookOk(c, clock, b) && x.start in b.status.intervals
    ensures BookOk(c, clock, CommitBook(b, x))
    ensures CommitBook(b, x).status.intervals == b.status.intervals[x.start := IsCollected(x)]
    ensures CommitBook(b, x).status.expiredGaps == b.status.expiredGaps
  {
    BookSize(c, clock, b);
    CommitKnownHour(b.status, x.start, IsCollected(x), |Lines(x)|);
  }

  lemma ScheduleKeepsBook(c: Config, clock: nat, now: nat, b: Book)
    requires ValidConfig(c) && BookOk(c, clock, b) && clock <= now
    ensures BookOk(c, now, ScheduleBook(c, now, b))
  {
    WindowShape(c.settings, now);
    WindowMonotone(c.settings, clock, now);
  }

  lemma PicksKnown(c: Config, now: nat, st: Status)
    requires ValidConfig(c)
    requires st.intervals.Keys == Grid(WindowStart(c.settings, now), WindowEnd(c.settings, now))
    ensures forall t :: t in Picks(c.settings, now, st) ==> t in st.intervals
  {
    QueueShape(c.settings, now, st);
    assert forall t :: t in Picks(c.settings, now, st) ==> t in Queue(c.settings, now, st);
  }

  lemma InitSafe(c: Config)
    ensures Safe(c, Init(c))
  {
  }

  lemma RestartSafe(c: Config, s: State, disk: Disk)
    requires ValidConfig(c) && Safe(c, s) && s.pc.Down?
    ensures Safe(c, DoRestart(c, s, disk))
  {
    assert Grid(0, 0) == {};
    assert BookOk(c, s.clock, FreshBook(c));
  }

  lemma AcknowledgeSafe(c: Config, s: State)
    requires ValidConfig(c) && Safe(c, s) && Sending(s)
    ensures Safe(c, DoAcknowledge(s))
  {
    var x := s.pending.value;
    var sent := s.pc.sent;
    if sent < |Batches(x)| {
      WrittenStep(x, sent);
    } else {
      WrittenAll(x);
      CommitKeepsBook(c, s.clock, s.volatile, x);
    }
  }

  /** More stored points never hurt. */
  lemma GrowSafe(c: Config, s: State, points: set<Record>)
    requires Safe(c, s)
    ensures Safe(c, s.(sink := s.sink.(records := s.sink.records + points)))
  {
  }

  lemma SelectSafe(c: Config, s: State, x: Snapshot)
    requires Safe(c, s) && AllRecords(x) <= s.sink.records
    ensures Safe(c, s.(sink := s.sink.(selected := s.sink.selected[x.start := x])))
  {
  }

  /** A worker gives up: its write may still be under way, and only its availability flag changes. */
  lemma GiveUpSafe(c: Config, s: State, late: set<Write>, status: Status)
    requires Safe(c, s) && !s.pc.Down? && LateOk(s.(late := late))
    requires status == s.volatile.status.(sinkAvailable := status.sinkAvailable)
    ensures Safe(c, s.(late := late, volatile := s.volatile.(status := status), pc := Idle))
  {
  }

  lemma LateWrite(s: State, w: Write, delayed: bool)
    requires LateOk(s)
    requires if w.SelectorWrite? then AllRecords(w.origin) <= s.sink.records else s.pending == Some(w.origin)
    ensures LateOk(s.(late := if delayed then s.late + {w} else s.late))
  {
  }

  /** A failed write has been applied in part, in full or not at all. */
  lemma FailedSinkSafe(c: Config, s: State, partial: set<Record>, applied: bool, delayed: bool)
    requires Safe(c, s) && Sending(s)
    ensures Safe(c, s.(sink := DoWriteFails(s, partial, applied, delayed).sink))
  {
    var x := s.pending.value;
    WrittenAll(x);
    if s.pc.sent < |Batches(x)| {
      GrowSafe(c, s, partial * RecordsOf(x, Batches(x)[s.pc.sent]));
    } else if applied {
      SelectSafe(c, s, x);
    }
  }

  lemma SelectorStored(c: Config, s: State)
    requires Safe(c, s) && Sending(s) && s.pc.sent >= |Batches(s.pending.value)|
    ensures AllRecords(s.pending.value) <= s.sink.records
  {
    WrittenAll(s.pending.value);
  }

  lemma FailedSinkGrows(s: State, partial: set<Record>, applied: bool, delayed: bool)
    requires Sending(s)
    ensures s.sink.records <= DoWriteFails(s, partial, applied, delayed).sink.records
  {
  }

  lemma WriteFailsSafe(c: Config, s: State, partial: set<Record>, applied: bool, delayed: bool)
    requires Safe(c, s) && Sending(s)
    ensures Safe(c, DoWriteFails(s, partial, applied, delayed))
  {
    var s' := DoWriteFails(s, partial, applied, delayed);
    var s1 := s.(sink := s'.sink);
    FailedSinkSafe(c, s, partial, applied, delayed);
    FailedSinkGrows(s, partial, applied, delayed);
    if s.pc.sent >= |Batches(s.pending.value)| { SelectorStored(c, s); }
    LateWrite(s1, NextWrite(s.pending.value, s.pc.sent), delayed);
    GiveUpSafe(c, s1, s'.late, s'.volatile.status);
  }

  lemma ScheduleSafe(c: Config, s: State, now: nat)
    requires ValidConfig(c) && Safe(c, s) && Enabled(c, s, CallSchedule(now))
    ensures Safe(c, Do(c, s, CallSchedule(now)))
  {
    var s' := Do(c, s, CallSchedule(now));
    ScheduleKeepsBook(c, s.clock, now, s.volatile);
    BookLater(c, s.clock, now, s.durable.value);
    PicksKnown(c, now, s'.volatile.status);
  }

  lemma CollectSafe(c: Config, s: State, result: Option<Snapshot>, disk: Disk)
    requires Safe(c, s) && Enabled(c, s, Collect(result, disk))
    ensures Safe(c, Do(c, s, Collect(result, disk)))
  {
    assert s.pc.todo[0] in s.pc.todo;
  }

  lemma DeliverSafe(c: Config, s: State, w: Write)
    requires Safe(c, s) && Enabled(c, s, Deliver(w))
    ensures Safe(c, Do(c, s, Deliver(w)))
  {
    match w
    case BatchWrite(x, index) => GrowSafe(c, s, RecordsOf(x, Batches(x)[index]));
    case SelectorWrite(x) => SelectSafe(c, s, x);
  }

  lemma SaveSafe(c: Config, s: State, disk: Disk)
    requires Safe(c, s) && Enabled(c, s, Save(disk))
    ensures Safe(c, DoSave(s, disk))
  {
    if s.pc.Captured? && disk == Done {
      assert Flatten(Batches(s.pending.value)[..0]) == [];
    }
  }

  lemma RemoveSafe(c: Config, s: State, disk: Disk)
    requires Safe(c, s) && s.pc.Removing?
    ensures Safe(c, DoRemove(s, disk))
  {
  }

  lemma BeginSafe(c: Config, s: State)
    requires Safe(c, s) && s.pc.Idle?
    ensures Safe(c, Resume(s, ThenSchedule))
  {
    if s.pending.Some? {
      assert Flatten(Batches(s.pending.value)[..0]) == [];
    }
  }

  lemma ReportSafe(c: Config, s: State, now: nat, error: Option<string>, disk: Disk)
    requires Safe(c, s) && s.pc.Idle?
    ensures Safe(c, DoReport(s, now, error, disk))
  {
  }

  /** Every step keeps the invariant. */
  lemma StepSafe(c: Config, s: State, step: Step)
    requires ValidConfig(c) && Safe(c, s) && Enabled(c, s, step)
    ensures Safe(c, Do(c, s, step))
  {
    match step
    case Crash =>
    case Restart(disk) => RestartSafe(c, s, disk);
    case BeginCycle => BeginSafe(c, s);
    case Acknowledge => AcknowledgeSafe(c, s);
    case WriteFails(partial, applied, delayed) => WriteFailsSafe(c, s, partial, applied, delayed);
    case Save(disk) => SaveSafe(c, s, disk);
    case Remove(disk) => RemoveSafe(c, s, disk);
    case CallSchedule(now) => ScheduleSafe(c, s, now);
    case Collect(result, disk) => CollectSafe(c, s, result, disk);
    case EndCycle =>
    case Report(now, error, disk) => ReportSafe(c, s, now, error, disk);
    case Deliver(w) => DeliverSafe(c, s, w);
  }

  lemma {:induction false} RunSafe(c: Config, s: State, steps: seq<Step>, to: State)
    requires ValidConfig(c) && Safe(c, s) && Runs(c, s, steps, to)
    ensures Safe(c, to)
    decreases |steps|
  {
    if steps != [] {
      StepSafe(c, s, steps[0]);
      RunSafe(c, Do(c, s, steps[0]), steps[1..], to);
    }
  }

  /*** Results over whole runs ***/

  /** Selector soundness: in every run, a selected snapshot is stored completely. */
  lemma SelectorSoundness(c: Config, steps: seq<Step>, s: State, t: nat)
    requires ValidConfig(c) && Runs(c, Init(c), steps, s) && t in s.sink.selected
    ensures s.sink.selected[t].start == t
    ensures AllRecords(s.sink.selected[t]) <= s.sink.records
  {
    InitSafe(c);
    RunSafe(c, Init(c), steps, s);
  }

  /** What a query joined on the selector sees for an hour: points of that hour whose revision is
      the selected one. */
  function Joined(sink: Sink, digest: Snapshot -> Text, t: nat): set<Record>
    requires t in sink.selected
  {
    set r | r in sink.records && r.origin.start == t && digest(r.origin) == digest(sink.selected[t])
  }

  /** Every stored point belongs to the publication of its snapshot. */
  ghost predicate RecordsGenuine(s: State) {
    forall r :: r in s.sink.records ==> r in AllRecords(r.origin)
  }

  lemma BatchGenuine(records: set<Record>, x: Snapshot, index: nat)
    requires Buildable(x) && index < |Batches(x)|
    requires forall r :: r in records ==> r in AllRecords(r.origin)
    ensures forall r :: r in records + RecordsOf(x, Batches(x)[index]) ==> r in AllRecords(r.origin)
  {
    BatchWithin(x, index);
  }

  lemma SendGenuine(s: State, step: Step, c: Config)
    requires Enabled(c, s, step) && RecordsGenuine(s) && (step.Acknowledge? || step.WriteFails?)
    ensures RecordsGenuine(Do(c, s, step))
  {
    var x := s.pending.value;
    if s.pc.sent < |Batches(x)| { BatchGenuine(s.sink.records, x, s.pc.sent); }
  }

  lemma StepGenuine(c: Config, s: State, step: Step)
    requires Enabled(c, s, step) && RecordsGenuine(s)
    ensures RecordsGenuine(Do(c, s, step))
  {
    if step.Acknowledge? || step.WriteFails? {
      SendGenuine(s, step, c);
    } else if step.Deliver? {
      if step.write.BatchWrite? { BatchGenuine(s.sink.records, step.write.origin, step.write.index); }
    } else {
      StepSink(c, s, step);
    }
  }

  lemma {:induction false} RunGenuine(c: Config, s: State, steps: seq<Step>, to: State)
    requires RecordsGenuine(s) && Runs(c, s, steps, to)
    ensures RecordsGenuine(to)
    decreases |steps|
  {
    if steps != [] {
      StepGenuine(c, s, steps[0]);
      RunGenuine(c, Do(c, s, steps[0]), steps[1..], to);
    }
  }

  /** The digest tells the selected revision of an hour from every other stored one. */
  predicate Separates(digest: Snapshot -> Text, sink: Sink, t: nat)
    requires t in sink.selected
  {
    forall r :: r in sink.records && r.origin != sink.selected[t] && r.origin.start == t ==>
      digest(r.origin) != digest(sink.selected[t])
  }

  /** Query correctness: with a digest that separates the stored revisions of an hour, joining on
      the selector returns exactly the points of the selected snapshot. Points of replaced or
      half-written revisions are never visible. */
  lemma JoinIsSelectedSnapshot(c: Config, steps: seq<Step>, s: State, digest: Snapshot -> Text, t: nat)
    requires ValidConfig(c) && Runs(c, Init(c), steps, s) && t in s.sink.selected
    requires Separates(digest, s.sink, t)
    ensures Joined(s.sink, digest, t) == AllRecords(s.sink.selected[t])
  {
    SelectorSoundness(c, steps, s, t);
    RunGenuine(c, Init(c), steps, s);
  }

  /** End to end: in every run, decoding the archive points that a query joined on the selector returns,
      in numeric part order, gives the exact archive bytes of the selected snapshot. */
  lemma JoinedArchive(c: Config, steps: seq<Step>, s: State, digest: Snapshot -> Text, t: nat)
    requires ValidConfig(c) && Runs(c, Init(c), steps, s) && t in s.sink.selected
    requires Separates(digest, s.sink, t) && PlainTexts(s.sink.selected[t])
    ensures var x := s.sink.selected[t];
            ReadArchive(set r | r in Joined(s.sink, digest, t) :: r.line, 0, |Chunks(x.archive)|) == Some(x.archive)
  {
    var x := s.sink.selected[t];
    JoinIsSelectedSnapshot(c, steps, s, digest, t);
    var points := set r | r in Joined(s.sink, digest, t) :: r.line;
    forall line ensures line in points <==> line in Lines(x) {
      if line in Lines(x) { assert Record(x, line) in AllRecords(x); }
    }
    assert points == Elements(Lines(x));
    ArchiveFromPoints(x);
  }

  /** The interval map: in every run its keys are the hours of one window of at most 168 hours, a
      pending snapshot is for one of them, and a restart accepts what was saved. */
  lemma DurableMapInvariant(c: Config, steps: seq<Step>, s: State)
    requires ValidConfig(c) && Runs(c, Init(c), steps, s) && s.durable.Some?
    ensures var b := s.durable.value;
            && b.status.intervals.Keys == Grid(b.start, b.end)
            && b.start == HoursBefore(b.end, c.settings.historyHours)
            && |b.status.intervals| <= c.settings.historyHours
            && Accepts(c, b.status)
            && (s.pending.Some? ==> s.pending.value.start in b.status.intervals && GoodPending(s.pending.value))
  {
    InitSafe(c);
    RunSafe(c, Init(c), steps, s);
    BookSize(c, s.clock, s.durable.value);
  }

  /** A restart is never refused: a worker that was down comes up whenever its save succeeds. */
  lemma RestartComesUp(c: Config, steps: seq<Step>, s: State)
    requires ValidConfig(c) && Runs(c, Init(c), steps, s) && s.pc.Down?
    ensures Do(c, s, Restart(Done)).pc == Idle
  {
    InitSafe(c);
    RunSafe(c, Init(c), steps, s);
    if s.durable.Some? { BookSize(c, s.clock, s.durable.value); }
  }

  /** No new revision is fetched, and no window is moved, while one is pending. */
  lemma NoFetchWhilePending(c: Config, steps: seq<Step>, s: State, step: Step)
    requires ValidConfig(c) && Runs(c, Init(c), steps, s) && Enabled(c, s, step)
    ensures step.Collect? || step.CallSchedule? ==> s.pending.None?
  {
    InitSafe(c);
    RunSafe(c, Init(c), steps, s);
  }
}
