/** The collector as a machine of atomic steps over durable files, volatile status and the
    sink. A crash, a lost acknowledgement, a failed file operation or a late delivery may
    happen at any point where the worker can be interrupted. */
module CollectorMachine {
  import opened Common
  import opened Schedule
  import opened RoundRobin
  import opened Publication

  /*** The sink ***/

  /** A stored point: a line of the publication of a snapshot. Points carry the hour and the
      revision of their snapshot, so rewriting a point changes nothing. */
  datatype Record = Record(origin: Snapshot, line: Text)

  /** The stored points, and for each hour the snapshot whose selector was written last. */
  datatype Sink = Sink(records: set<Record>, selected: map<nat, Snapshot>)

  datatype Write = BatchWrite(origin: Snapshot, index: nat) | SelectorWrite(origin: Snapshot)

  function RecordsOf(s: Snapshot, lines: seq<Text>): set<Record> {
    set line | line in lines :: Record(s, line)
  }

  function AllRecords(s: Snapshot): set<Record> {
    RecordsOf(s, Lines(s))
  }

  function Batches(s: Snapshot): seq<seq<Text>>
    requires Buildable(s)
  {
    Groups(Lines(s))
  }

  /** The points of the first `n` batches. */
  function Written(s: Snapshot, n: nat): set<Record>
    requires Buildable(s) && n <= |Batches(s)|
  {
    RecordsOf(s, Flatten(Batches(s)[..n]))
  }

  function ApplyWrite(sink: Sink, w: Write): Sink
    requires Buildable(w.origin) && (w.BatchWrite? ==> w.index < |Batches(w.origin)|)
  {
    match w
    case BatchWrite(s, index) => sink.(records := sink.records + RecordsOf(s, Batches(s)[index]))
    case SelectorWrite(s) => sink.(selected := sink.selected[s.start := s])
  }

  /*** The worker ***/

  /** A status together with what it stands for: the window and origin of its map, and for each hour
      the snapshot its flag was recorded from. Only `status` exists in the program. */
  datatype Book = Book(status: Status, origin: nat, start: nat, end: nat, recorded: map<nat, Snapshot>)

  datatype Config = Config(settings: Settings, binding: string)

  function FreshBook(c: Config): Book {
    Book(Fresh.(binding := c.binding), 0, 0, 0, map[])
  }

  ghost function ScheduleBook(c: Config, now: nat, b: Book): Book {
    var start, end := WindowStart(c.settings, now), WindowEnd(c.settings, now);
    Book(ScheduleStatus(c.settings, now, b.status), if b.status.intervals == map[] then start else b.origin, start, end, b.recorded)
  }

  ghost function CommitBook(b: Book, s: Snapshot): Book {
    b.(status := CommitStatus(b.status, s.start, IsCollected(s), |Lines(s)|),
       recorded := b.recorded[s.start := s])
  }

  /** What follows a publication: the scheduler at the start of a cycle, else the rest of the picks. */
  datatype Next = ThenSchedule | ThenCollect(todo: seq<nat>)

  datatype Pc =
    | Down
    | Idle
    | Publishing(sent: nat, next: Next)
    | Committing(next: Next)
    | Removing(next: Next)
    | Scheduling
    | Scheduled(todo: seq<nat>)
    | Collecting(todo: seq<nat>)
    | Captured(todo: seq<nat>)

  datatype State = State(
    clock: nat, pc: Pc, volatile: Book, durable: Option<Book>, pending: Option<Snapshot>,
    sink: Sink, late: set<Write>)

  function Init(c: Config): State {
    State(0, Down, FreshBook(c), None, None, Sink({}, map[]), {})
  }

  /** A file operation succeeds, fails without effect, or fails after taking effect. */
  datatype Disk = Done | Lost | Unsynced

  datatype Step =
    | Crash
    | Restart(disk: Disk)
    | BeginCycle
    | Acknowledge
    | WriteFails(partial: set<Record>, applied: bool, delayed: bool)
    | Save(disk: Disk)
    | Remove(disk: Disk)
    | CallSchedule(now: nat)
    | Collect(result: Option<Snapshot>, disk: Disk)
    | EndCycle
    | Report(now: nat, error: Option<string>, disk: Disk)
    | Deliver(write: Write)

  /** The checks that replay makes of a stored pending snapshot. */
  predicate GoodPending(s: Snapshot) {
    s.end == s.start + HOUR && Aligned(s.start) && Buildable(s)
  }

  /** The checks that startup makes of a stored status. */
  predicate Accepts(c: Config, st: Status) {
    st.binding == c.binding && |st.intervals| <= MAX_INTERVALS
  }

  /** The next write of the pending publication: its batches in order, then its selector. */
  function NextWrite(s: Snapshot, sent: nat): Write
    requires Buildable(s)
  {
    if sent < |Batches(s)| then BatchWrite(s, sent) else SelectorWrite(s)
  }

  predicate Sending(s: State) {
    s.pc.Publishing? && s.pending.Some? && Buildable(s.pending.value)
  }

  predicate Enabled(c: Config, s: State, step: Step) {
    match step
    case Crash => !s.pc.Down?
    case Restart(_) => s.pc.Down?
    case BeginCycle => s.pc.Idle?
    case Acknowledge => Sending(s)
    case WriteFails(_, _, _) => Sending(s)
    case Save(_) => s.pc.Committing? || s.pc.Scheduled? || s.pc.Captured?
    case Remove(_) => s.pc.Removing?
    case CallSchedule(now) => s.pc.Scheduling? && s.clock <= now <= U64_MAX
    case Collect(result, _) =>
      && s.pc.Collecting? && s.pc.todo != []
      && (result.Some? ==> result.value.start == s.pc.todo[0] && result.value.end == s.pc.todo[0] + HOUR)
    case EndCycle => s.pc.Collecting? && s.pc.todo == []
    case Report(_, _, _) => s.pc.Idle?
    case Deliver(w) => w in s.late && Buildable(w.origin) && (w.BatchWrite? ==> w.index < |Batches(w.origin)|)
  }

  function NextPc(next: Next): Pc {
    match next
    case ThenSchedule => Scheduling
    case ThenCollect(todo) => Collecting(todo)
  }

  /** Replay of whatever is pending, or straight on when nothing is. */
  function Resume(s: State, next: Next): State {
    match s.pending
    case Some(x) => if GoodPending(x) then s.(pc := Publishing(0, next)) else s.(pc := Idle)
    case None => s.(pc := NextPc(next))
  }

  function Saved(s: State, disk: Disk): State {
    if disk == Lost then s else s.(durable := Some(s.volatile))
  }

  ghost function DoRestart(c: Config, s: State, disk: Disk): State {
    var book := if s.durable.Some? then s.durable.value else FreshBook(c);
    if !Accepts(c, book.status) then s
    else Saved(s.(volatile := book), disk).(pc := if disk == Done then Idle else Down)
  }

  ghost function DoAcknowledge(s: State): State
    requires Sending(s)
  {
    var x := s.pending.value;
    var s1 := s.(sink := ApplyWrite(s.sink, NextWrite(x, s.pc.sent)));
    if s.pc.sent < |Batches(x)| then s1.(pc := Publishing(s.pc.sent + 1, s.pc.next))
    else s1.(volatile := CommitBook(s.volatile, x), pc := Committing(s.pc.next))
  }

  function DoWriteFails(s: State, partial: set<Record>, applied: bool, delayed: bool): State
    requires Sending(s)
  {
    var w := NextWrite(s.pending.value, s.pc.sent);
    var sink :=
      if w.BatchWrite? then s.sink.(records := s.sink.records + partial * RecordsOf(w.origin, Batches(w.origin)[w.index]))
      else if applied then ApplyWrite(s.sink, w)
      else s.sink;
    s.(sink := sink,
       late := if delayed then s.late + {w} else s.late,
       volatile := s.volatile.(status := s.volatile.status.(sinkAvailable := Some(false))),
       pc := Idle)
  }

  function DoSave(s: State, disk: Disk): State
    requires s.pc.Committing? || s.pc.Scheduled? || s.pc.Captured?
  {
    if disk != Done then Saved(s, disk).(pc := Idle)
    else if s.pc.Committing? then Saved(s, disk).(pc := Removing(s.pc.next))
    else if s.pc.Scheduled? then Saved(s, disk).(pc := Collecting(s.pc.todo))
    else Resume(Saved(s, disk), ThenCollect(s.pc.todo))
  }

  function DoRemove(s: State, disk: Disk): State
    requires s.pc.Removing?
  {
    var s1 := if disk == Lost then s else s.(pending := None);
    if disk != Done then s1.(pc := Idle) else Resume(s1, s.pc.next)
  }

  function DoCollect(s: State, result: Option<Snapshot>, disk: Disk): State
    requires s.pc.Collecting? && s.pc.todo != []
  {
    if result.None? || !Buildable(result.value) || disk == Lost then s.(pc := Idle)
    else if disk == Unsynced then s.(pending := result, pc := Idle)
    else
      var x := result.value;
      s.(pending := result,
         volatile := s.volatile.(status := NoteCollected(s.volatile.status, x.start, IsCollected(x))),
         pc := Captured(s.pc.todo[1..]))
  }

  function DoReport(s: State, now: nat, error: Option<string>, disk: Disk): State {
    var st := s.volatile.status;
    var lag := if st.lastPublished.None? then None else Some(SatSub(now, st.lastPublished.value + HOUR));
    Saved(s.(volatile := s.volatile.(status := st.(error := error, updatedMs := now, lagMs := lag))), disk)
  }

  ghost function Do(c: Config, s: State, step: Step): State
    requires Enabled(c, s, step)
  {
    match step
    case Crash => s.(pc := Down)
    case Restart(disk) => DoRestart(c, s, disk)
    case BeginCycle => Resume(s, ThenSchedule)
    case Acknowledge => DoAcknowledge(s)
    case WriteFails(partial, applied, delayed) => DoWriteFails(s, partial, applied, delayed)
    case Save(disk) => DoSave(s, disk)
    case Remove(disk) => DoRemove(s, disk)
    case CallSchedule(now) =>
      var book := ScheduleBook(c, now, s.volatile);
      s.(volatile := book, clock := now, pc := Scheduled(Picks(c.settings, now, book.status)))
    case Collect(result, disk) => DoCollect(s, result, disk)
    case EndCycle => s.(pc := Idle)
    case Report(now, error, disk) => DoReport(s, now, error, disk)
    case Deliver(w) => s.(sink := ApplyWrite(s.sink, w))
  }

  /** Only writes and deliveries change the sink. */
  lemma StepSink(c: Config, s: State, step: Step)
    requires Enabled(c, s, step) && !step.Acknowledge? && !step.WriteFails? && !step.Deliver?
    ensures Do(c, s, step).sink == s.sink
  {
  }

  /** `to` is reached from `s` by the given steps. */
  ghost predicate Runs(c: Config, s: State, steps: seq<Step>, to: State)
    decreases |steps|
  {
    if steps == [] then s == to
    else Enabled(c, s, steps[0]) && Runs(c, Do(c, s, steps[0]), steps[1..], to)
  }

  lemma RunsCons(c: Config, s: State, step: Step, rest: seq<Step>, to: State)
    requires Enabled(c, s, step) && Runs(c, Do(c, s, step), rest, to)
    ensures Runs(c, s, [step] + rest, to)
  {
    assert ([step] + rest)[1..] == rest;
  }

  lemma {:induction false} RunsConcat(c: Config, a: State, first: seq<Step>, b: State, second: seq<Step>, d: State)
    requires Runs(c, a, first, b) && Runs(c, b, second, d)
    ensures Runs(c, a, first + second, d)
    decreases |first|
  {
    if first == [] {
      assert first + second == second;
    } else {
      ConcatTail(first, second);
      RunsConcat(c, Do(c, a, first[0]), first[1..], b, second, d);
    }
  }

  lemma Extend(c: Config, from: State, steps: seq<Step>, s: State, step: Step)
    requires Runs(c, from, steps, s) && Enabled(c, s, step)
    ensures Runs(c, from, steps + [step], Do(c, s, step))
  {
    RunsCons(c, s, step, [], Do(c, s, step));
    assert [step] + [] == [step];
    RunsConcat(c, from, steps, s, [step], Do(c, s, step));
  }
}
