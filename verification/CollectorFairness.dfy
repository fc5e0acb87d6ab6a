/** The round robin as the crash-safe worker performs it. Every run of the machine, with replays, crashes
    and lost saves, is a run of the round robin, so an hour waits no longer than its rank and is published
    once enough cycles have ended. Two things hold the rotation up, and are shown to: an hour that cannot
    be built, and a publication that the sink does not accept. */
module CollectorFairness {
  import opened Common
  import opened Schedule
  import opened RoundRobin
  import opened Publication
  import opened CollectorMachine
  import opened CollectorSafety
  import opened CollectorLedger

  /*** What the scheduler makes of a status ***/

  /** From the window of `clock` on, a status plans like one with this cursor, recorded from these snapshots. */
  ghost predicate Stands(c: Config, clock: nat, st: Status, recorded: map<nat, Snapshot>, cursor: Option<nat>) {
    && st.cursor == cursor
    && forall t :: WindowStart(c.settings, clock) <= t ==> (Flagged(st, t) <==> t in Resolved(recorded))
  }

  /** A stored or volatile status stands for what it was recorded from, however old its window is. */
  lemma BookStands(c: Config, clock: nat, b: Book)
    requires BookOk(c, clock, b) && Faithful(b)
    ensures Stands(c, clock, b.status, b.recorded, b.status.cursor)
  {
    forall t | WindowStart(c.settings, clock) <= t ensures Flagged(b.status, t) <==> t in Resolved(b.recorded) {
      assert t in Resolved(b.recorded) ==> t in Grid(b.start, b.end);
    }
  }

  /** The flags that the scheduler fills a window with. */
  function FlagMap(resolved: set<nat>, start: nat, end: nat): map<nat, bool> {
    map t | t in Grid(start, end) :: t in resolved
  }

  lemma PlanOf(c: Config, clock: nat, now: nat, st: Status, recorded: map<nat, Snapshot>, cursor: Option<nat>)
    requires Stands(c, clock, st, recorded, cursor) && clock <= now
    ensures ScheduleStatus(c.settings, now, st).intervals
         == FlagMap(Resolved(recorded), WindowStart(c.settings, now), WindowEnd(c.settings, now))
  {
    WindowMonotone(c.settings, clock, now);
    forall t | t in Grid(WindowStart(c.settings, now), WindowEnd(c.settings, now))
      ensures Flagged(st, t) <==> t in Resolved(recorded)
    {
    }
  }

  /** Two statuses that stand for the same give the same candidates, picks and ranks. */
  lemma SamePlans(c: Config, clock: nat, now: nat, a: Status, b: Status, recorded: map<nat, Snapshot>, cursor: Option<nat>)
    requires Stands(c, clock, a, recorded, cursor) && Stands(c, clock, b, recorded, cursor) && clock <= now
    ensures ScheduleStatus(c.settings, now, a).intervals == ScheduleStatus(c.settings, now, b).intervals
    ensures CandidatesAt(c.settings, now, a) == CandidatesAt(c.settings, now, b)
    ensures Picks(c.settings, now, ScheduleStatus(c.settings, now, a)) == Picks(c.settings, now, ScheduleStatus(c.settings, now, b))
  {
    PlanOf(c, clock, now, a, recorded, cursor);
    PlanOf(c, clock, now, b, recorded, cursor);
  }

  /** Recorded hours are whole hours of the past. */
  ghost predicate PastHours(c: Config, clock: nat, recorded: map<nat, Snapshot>) {
    forall t :: t in recorded ==> Aligned(t) && t < WindowEnd(c.settings, clock)
  }

  lemma ScheduleStands(c: Config, clock: nat, now: nat, st: Status, recorded: map<nat, Snapshot>, cursor: Option<nat>)
    requires Stands(c, clock, st, recorded, cursor) && clock <= now && PastHours(c, clock, recorded)
    ensures Stands(c, now, ScheduleStatus(c.settings, now, st), recorded, cursor)
  {
    var start, end := WindowStart(c.settings, now), WindowEnd(c.settings, now);
    WindowMonotone(c.settings, clock, now);
    PlanOf(c, clock, now, st, recorded, cursor);
    forall t | start <= t ensures Flagged(ScheduleStatus(c.settings, now, st), t) <==> t in Resolved(recorded) {
      assert t in Resolved(recorded) ==> t in Grid(start, end);
    }
  }

  lemma StandsLater(c: Config, clock: nat, now: nat, st: Status, recorded: map<nat, Snapshot>, cursor: Option<nat>)
    requires Stands(c, clock, st, recorded, cursor) && clock <= now
    ensures Stands(c, now, st, recorded, cursor)
  {
    WindowMonotone(c.settings, clock, now);
  }

  lemma PublishedStands(c: Config, clock: nat, st: Status, recorded: map<nat, Snapshot>, cursor: Option<nat>, x: Snapshot)
    requires Stands(c, clock, st, recorded, cursor)
    ensures Stands(c, clock, Published(st, x.start, IsCollected(x)), recorded[x.start := x], Some(x.start))
  {
    ResolvedUpdate(recorded, x);
  }

  lemma VolatileStands(c: Config, s: State)
    requires Shape(c, s) && Accounts(s) && s.pending.None? && !s.pc.Down?
    ensures Stands(c, s.clock, s.volatile.status, Recorded(s), s.durable.value.status.cursor)
    ensures PastHours(c, s.clock, Recorded(s))
  {
    BookStands(c, s.clock, s.volatile);
  }

  /*** An hour whose publication cannot be built ***/

  /** A snapshot whose archive exceeds the bound, for any hour. No source was collected: the archive holds the
      text of their errors, which escaping can swell beyond the bound. */
  function Oversized(hour: nat): Snapshot {
    Snapshot(hour, hour + HOUR, Failed, Failed, Failed, true, true, seq(MAX_ARCHIVE_BYTES + 1, _ => 0), [], [], [])
  }

  lemma OversizedUnbuildable(hour: nat)
    ensures Oversized(hour).start == hour && Oversized(hour).end == hour + HOUR && !Buildable(Oversized(hour))
  {
  }

  /** Nothing is pending, nothing was recorded since, and hour `h` heads whatever is planned. */
  ghost predicate Stuck(c: Config, s: State, recorded: map<nat, Snapshot>, cursor: Option<nat>, h: nat) {
    && s.pending.None? && s.durable.Some? && Recorded(s) == recorded && s.durable.value.status.cursor == cursor
    && (s.pc.Scheduled? || s.pc.Collecting? ==> s.pc.todo != [] && s.pc.todo[0] == h)
  }

  /** The condition for `h` to come first again, once it came first at `now` with status `st`. */
  predicate StillFirst(c: Config, now: nat, st: Status, h: nat, later: nat) {
    && RemainsCandidate(c.settings, later, st, h)
    && (Above(st.cursor, h) || WindowEnd(c.settings, later) == WindowEnd(c.settings, now))
  }

  /** Steps under which `h` holds the rotation up: it cannot be built, and it would still come first. */
  predicate HoldsUp(c: Config, now: nat, st: Status, h: nat, step: Step) {
    && (step.Collect? && step.result.Some? && step.result.value.start == h ==> !Buildable(step.result.value))
    && (step.CallSchedule? ==> StillFirst(c, now, st, h, step.now))
  }

  /** What the first call at `now` fixes: the status it left stands for what is recorded, and `h` came first. */
  ghost predicate CameFirst(c: Config, now: nat, before: Status, h: nat, recorded: map<nat, Snapshot>, cursor: Option<nat>) {
    && First(c.settings, now, before, h)
    && Stands(c, now, ScheduleStatus(c.settings, now, before), recorded, cursor)
    && (cursor.Some? ==> cursor.value < WindowEnd(c.settings, now))
  }

  /** In such a state the next call puts `h` first exactly under that condition. */
  lemma NextFirstIff(c: Config, s: State, now: nat, before: Status, h: nat, later: nat)
    requires ValidConfig(c) && Shape(c, s) && Accounts(s) && s.pending.None? && !s.pc.Down? && now <= s.clock <= later
    requires CameFirst(c, now, before, h, Recorded(s), s.durable.value.status.cursor)
    ensures First(c.settings, later, s.volatile.status, h) <==> StillFirst(c, now, ScheduleStatus(c.settings, now, before), h, later)
  {
    var st := ScheduleStatus(c.settings, now, before);
    var recorded, cursor := Recorded(s), s.durable.value.status.cursor;
    VolatileStands(c, s);
    StandsLater(c, now, s.clock, st, recorded, cursor);
    SamePlans(c, s.clock, later, st, s.volatile.status, recorded, cursor);
    StaysFirstIff(c.settings, now, later, before, h);
  }

  lemma CallStuck(c: Config, s: State, now: nat, before: Status, h: nat, later: nat)
    requires ValidConfig(c) && Shape(c, s) && Accounts(s) && now <= s.clock && Enabled(c, s, CallSchedule(later))
    requires Stuck(c, s, Recorded(s), s.durable.value.status.cursor, h)
    requires CameFirst(c, now, before, h, Recorded(s), s.durable.value.status.cursor)
    requires StillFirst(c, now, ScheduleStatus(c.settings, now, before), h, later)
    ensures Stuck(c, Do(c, s, CallSchedule(later)), Recorded(s), s.durable.value.status.cursor, h)
  {
    NextFirstIff(c, s, now, before, h, later);
  }

  lemma SaveStuck(c: Config, s: State, recorded: map<nat, Snapshot>, cursor: Option<nat>, h: nat, disk: Disk)
    requires Shape(c, s) && Accounts(s) && Stuck(c, s, recorded, cursor, h) && s.pc.Scheduled?
    ensures Stuck(c, DoSave(s, disk), recorded, cursor, h)
  {
  }

  lemma OtherStuck(c: Config, s: State, recorded: map<nat, Snapshot>, cursor: Option<nat>, h: nat, step: Step)
    requires Shape(c, s) && Accounts(s) && Stuck(c, s, recorded, cursor, h) && Enabled(c, s, step)
    requires !step.CallSchedule? && !step.Collect? && !step.Save?
    ensures Stuck(c, Do(c, s, step), recorded, cursor, h)
  {
  }

  /** Selectors change only by late deliveries, and no write becomes late. */
  ghost predicate SelectedOnlyLate(s: State, s': State) {
    && s'.late == s.late
    && forall t :: At(s'.sink.selected, t) != At(s.sink.selected, t) ==>
                     At(s'.sink.selected, t).Some? && SelectorWrite(At(s'.sink.selected, t).value) in s.late
  }

  lemma StuckSelects(c: Config, s: State, step: Step)
    requires Enabled(c, s, step) && !step.Acknowledge? && !step.WriteFails?
    ensures SelectedOnlyLate(s, Do(c, s, step))
  {
    if step.Deliver? {
      var s' := Do(c, s, step);
      forall t | At(s'.sink.selected, t) != At(s.sink.selected, t)
        ensures At(s'.sink.selected, t).Some? && SelectorWrite(At(s'.sink.selected, t).value) in s.late
      {
        assert step.write.SelectorWrite? && t == step.write.origin.start;
      }
    } else {
      StuckSink(c, s, step);
    }
  }

  lemma StuckSink(c: Config, s: State, step: Step)
    requires Enabled(c, s, step) && !step.Acknowledge? && !step.WriteFails? && !step.Deliver?
    ensures Do(c, s, step).sink == s.sink && Do(c, s, step).late == s.late
  {
  }

  lemma CollectStuck(c: Config, s: State, recorded: map<nat, Snapshot>, cursor: Option<nat>, h: nat, result: Option<Snapshot>, disk: Disk)
    requires Stuck(c, s, recorded, cursor, h) && Enabled(c, s, Collect(result, disk))
    requires result.Some? && result.value.start == h ==> !Buildable(result.value)
    ensures Stuck(c, DoCollect(s, result, disk), recorded, cursor, h)
  {
  }

  lemma ClockForward(c: Config, s: State, step: Step)
    requires Enabled(c, s, step)
    ensures s.clock <= Do(c, s, step).clock
  {
  }

  lemma StepStuck(c: Config, s: State, now: nat, before: Status, h: nat, step: Step)
    requires ValidConfig(c) && Shape(c, s) && Accounts(s) && now <= s.clock && Enabled(c, s, step) && s.durable.Some?
    requires Stuck(c, s, Recorded(s), s.durable.value.status.cursor, h)
    requires CameFirst(c, now, before, h, Recorded(s), s.durable.value.status.cursor)
    requires HoldsUp(c, now, ScheduleStatus(c.settings, now, before), h, step)
    ensures Stuck(c, Do(c, s, step), Recorded(s), s.durable.value.status.cursor, h)
  {
    var recorded, cursor := Recorded(s), s.durable.value.status.cursor;
    if step.CallSchedule? {
      CallStuck(c, s, now, before, h, step.now);
    } else if step.Collect? {
      CollectStuck(c, s, recorded, cursor, h, step.result, step.disk);
    } else if step.Save? {
      SaveStuck(c, s, recorded, cursor, h, step.disk);
    } else {
      OtherStuck(c, s, recorded, cursor, h, step);
    }
  }

  lemma {:induction false} RunStuck(c: Config, s: State, now: nat, before: Status, h: nat, steps: seq<Step>, to: State)
    requires ValidConfig(c) && Safe(c, s) && Accounts(s) && now <= s.clock && s.durable.Some?
    requires Stuck(c, s, Recorded(s), s.durable.value.status.cursor, h)
    requires CameFirst(c, now, before, h, Recorded(s), s.durable.value.status.cursor)
    requires Runs(c, s, steps, to)
    requires forall step :: step in steps ==> HoldsUp(c, now, ScheduleStatus(c.settings, now, before), h, step)
    ensures Stuck(c, to, Recorded(s), s.durable.value.status.cursor, h) && SelectedOnlyLate(s, to)
    decreases |steps|
  {
    if steps != [] {
      var s1 := Do(c, s, steps[0]);
      SafeShape(c, s);
      assert !steps[0].Acknowledge? && !steps[0].WriteFails?;
      StuckSelects(c, s, steps[0]);
      StepStuck(c, s, now, before, h, steps[0]);
      ClockForward(c, s, steps[0]);
      StepSafe(c, s, steps[0]);
      StepAccounts(c, s, steps[0]);
      RunStuck(c, s1, now, before, h, steps[1..], to);
      LateTransitive(s, s1, to);
    }
  }

  lemma LateTransitive(a: State, b: State, d: State)
    requires SelectedOnlyLate(a, b) && SelectedOnlyLate(b, d)
    ensures SelectedOnlyLate(a, d)
  {
    forall t | At(d.sink.selected, t) != At(a.sink.selected, t)
      ensures At(d.sink.selected, t).Some? && SelectorWrite(At(d.sink.selected, t).value) in a.late
    {
      assert At(d.sink.selected, t) == At(b.sink.selected, t) ==> At(b.sink.selected, t) != At(a.sink.selected, t);
    }
  }

  lemma CallBegins(c: Config, s: State, now: nat, h: nat)
    requires ValidConfig(c) && Shape(c, s) && Accounts(s) && Enabled(c, s, CallSchedule(now))
    requires First(c.settings, now, s.volatile.status, h)
    ensures var cursor := s.durable.value.status.cursor;
            && CameFirst(c, now, s.volatile.status, h, Recorded(s), cursor)
            && Stuck(c, Do(c, s, CallSchedule(now)), Recorded(s), cursor, h)
  {
    VolatileStands(c, s);
    ScheduleStands(c, s.clock, now, s.volatile.status, Recorded(s), s.durable.value.status.cursor);
    WindowMonotone(c.settings, s.clock, now);
  }

  /** An hour that cannot be built holds up the rotation. Once it comes first, and for as long as it would come
      first again, no run publishes anything: nothing becomes pending, nothing is recorded, the cursor stays,
      and no selector is written except by deliveries that were late before. */
  lemma UnbuildableHourBlocks(c: Config, before: seq<Step>, s: State, now: nat, h: nat, steps: seq<Step>, to: State)
    requires ValidConfig(c) && Runs(c, Init(c), before, s) && Enabled(c, s, CallSchedule(now))
    requires First(c.settings, now, s.volatile.status, h)
    requires Runs(c, Do(c, s, CallSchedule(now)), steps, to)
    requires forall step :: step in steps ==> HoldsUp(c, now, ScheduleStatus(c.settings, now, s.volatile.status), h, step)
    ensures to.pending.None? && to.durable.Some? && Recorded(to) == Recorded(s)
    ensures s.durable.Some? && to.durable.value.status.cursor == s.durable.value.status.cursor
    ensures SelectedOnlyLate(s, to) && (s.late == {} ==> to.sink.selected == s.sink.selected)
  {
    var s1 := Do(c, s, CallSchedule(now));
    Reachable(c, before, s);
    SafeShape(c, s);
    CallBegins(c, s, now, h);
    StuckSelects(c, s, CallSchedule(now));
    StepSafe(c, s, CallSchedule(now));
    StepAccounts(c, s, CallSchedule(now));
    RunStuck(c, s1, now, s.volatile.status, h, steps, to);
    LateTransitive(s, s1, to);
    if s.late == {} { NothingSelected(s, to); }
  }

  /** Without late deliveries the selectors do not change at all. */
  lemma NothingSelected(s: State, to: State)
    requires SelectedOnlyLate(s, to) && s.late == {}
    ensures to.sink.selected == s.sink.selected
  {
    forall t ensures t in to.sink.selected <==> t in s.sink.selected {
      assert At(to.sink.selected, t) == At(s.sink.selected, t);
    }
    forall t | t in to.sink.selected ensures to.sink.selected[t] == s.sink.selected[t] {
      assert At(to.sink.selected, t) == At(s.sink.selected, t);
    }
  }

  /*** A publication that the sink does not accept ***/

  /** The step does not bring the acknowledgement of the pending selector. */
  predicate NotAccepted(s: State, step: Step) {
    step.Acknowledge? && Sending(s) ==> s.pc.sent < |Batches(s.pending.value)|
  }

  /** No step of the run does. */
  ghost predicate NeverAccepted(c: Config, s: State, steps: seq<Step>, to: State)
    requires Runs(c, s, steps, to)
    decreases |steps|
  {
    steps == [] || (NotAccepted(s, steps[0]) && NeverAccepted(c, Do(c, s, steps[0]), steps[1..], to))
  }

  /** A snapshot is pending and its selector has not been acknowledged. */
  predicate Unaccepted(s: State, x: Snapshot) {
    s.pending == Some(x) && !s.pc.Committing? && !s.pc.Removing?
  }

  lemma StepUnaccepted(c: Config, s: State, step: Step, x: Snapshot)
    requires Shape(c, s) && Unaccepted(s, x) && Enabled(c, s, step) && NotAccepted(s, step)
    ensures Unaccepted(Do(c, s, step), x) && !step.CallSchedule? && !step.Collect?
  {
  }

  lemma {:induction false} RunUnaccepted(c: Config, s: State, steps: seq<Step>, to: State, x: Snapshot)
    requires ValidConfig(c) && Safe(c, s) && Unaccepted(s, x) && Runs(c, s, steps, to) && NeverAccepted(c, s, steps, to)
    ensures Unaccepted(to, x) && to.clock == s.clock
    ensures forall step :: step in steps ==> !step.CallSchedule? && !step.Collect?
    decreases |steps|
  {
    if steps != [] {
      SafeShape(c, s);
      StepUnaccepted(c, s, steps[0], x);
      ClockStays(c, s, steps[0]);
      StepSafe(c, s, steps[0]);
      RunUnaccepted(c, Do(c, s, steps[0]), steps[1..], to, x);
    }
  }

  /** A pending publication comes before everything else. As long as the sink does not accept it, however many
      cycles, crashes and restarts there are, no window moves and no other hour is fetched; not even
      the end of its own hour's history frees the worker of it. */
  lemma UnacceptedPublicationBlocks(c: Config, before: seq<Step>, s: State, steps: seq<Step>, to: State, x: Snapshot)
    requires ValidConfig(c) && Runs(c, Init(c), before, s) && Unaccepted(s, x)
    requires Runs(c, s, steps, to) && NeverAccepted(c, s, steps, to)
    ensures to.pending == Some(x) && to.clock == s.clock
    ensures forall step :: step in steps ==> !step.CallSchedule? && !step.Collect?
  {
    Reachable(c, before, s);
    RunUnaccepted(c, s, steps, to, x);
  }

  /*** Runs of the machine as runs of the round robin ***/

  /** The picks still to do, as the program counter has them. */
  predicate TodoOk(pc: Pc, rest: seq<nat>) {
    match pc
    case Scheduled(todo) => todo == rest
    case Collecting(todo) => todo == rest
    case Captured(todo) => rest != [] && todo == rest[1..]
    case Publishing(_, next) => NextTodoOk(next, rest)
    case Committing(next) => NextTodoOk(next, rest)
    case Removing(next) => NextTodoOk(next, rest)
    case _ => true
  }

  predicate NextTodoOk(next: Next, rest: seq<nat>) {
    next.ThenCollect? ==> rest != [] && next.todo == rest[1..]
  }

  /** The machine is where the round robin is: at status `st`, with `rest` still to do in its open cycle. A
      pending snapshot is for the next of these hours, and counts as published once it is removed. */
  ghost predicate Follows(c: Config, s: State, st: Status, rest: seq<nat>) {
    && s.durable.Some? && TodoOk(s.pc, rest)
    && match s.pending
       case None => Stands(c, s.clock, st, Recorded(s), s.durable.value.status.cursor)
       case Some(x) =>
         && rest != [] && rest[0] == x.start
         && Stands(c, s.clock, Published(st, x.start, IsCollected(x)), Recorded(s)[x.start := x], Some(x.start))
  }

  predicate Removes(s: State, s': State) {
    s.pending.Some? && s'.pending.None?
  }

  /** Where the round robin goes by one step of the machine. */
  ghost function NextStatus(c: Config, s: State, st: Status, step: Step): Status
    requires Enabled(c, s, step)
  {
    if step.CallSchedule? then ScheduleStatus(c.settings, step.now, st)
    else if Removes(s, Do(c, s, step)) then Published(st, s.pending.value.start, IsCollected(s.pending.value))
    else st
  }

  ghost function NextRest(c: Config, s: State, st: Status, rest: seq<nat>, step: Step): seq<nat>
    requires Enabled(c, s, step)
  {
    if step.CallSchedule? then Picks(c.settings, step.now, ScheduleStatus(c.settings, step.now, st))
    else if Removes(s, Do(c, s, step)) && rest != [] then rest[1..]
    else rest
  }

  lemma ScheduleFollows(c: Config, s: State, st: Status, rest: seq<nat>, now: nat)
    requires ValidConfig(c) && Shape(c, s) && Accounts(s) && Follows(c, s, st, rest) && Enabled(c, s, CallSchedule(now))
    ensures var st1 := ScheduleStatus(c.settings, now, st);
            Follows(c, Do(c, s, CallSchedule(now)), st1, Picks(c.settings, now, st1))
    ensures CandidatesAt(c.settings, now, s.volatile.status) == CandidatesAt(c.settings, now, st)
  {
    var cursor := s.durable.value.status.cursor;
    VolatileStands(c, s);
    SamePlans(c, s.clock, now, st, s.volatile.status, Recorded(s), cursor);
    ScheduleStands(c, s.clock, now, st, Recorded(s), cursor);
  }

  lemma CollectFollows(c: Config, s: State, st: Status, rest: seq<nat>, result: Option<Snapshot>, disk: Disk)
    requires Follows(c, s, st, rest) && Enabled(c, s, Collect(result, disk)) && s.pending.None?
    ensures Follows(c, DoCollect(s, result, disk), st, rest)
  {
    if result.Some? { PublishedStands(c, s.clock, st, Recorded(s), s.durable.value.status.cursor, result.value); }
  }

  lemma RemoveFollows(c: Config, s: State, st: Status, rest: seq<nat>, disk: Disk)
    requires Accounts(s) && Follows(c, s, st, rest) && HasCommitted(s) && s.pc.Removing? && s.durable == Some(s.volatile)
    ensures var s' := DoRemove(s, disk);
            if s'.pending.None? then Follows(c, s', Published(st, s.pending.value.start, IsCollected(s.pending.value)), rest[1..])
            else Follows(c, s', st, rest)
  {
    var x := s.pending.value;
    assert At(Recorded(s), x.start) == Some(x);
    assert Recorded(s)[x.start := x] == Recorded(s);
  }

  /** Storing the volatile status. */
  lemma StoredFollows(c: Config, s: State, s': State, st: Status, rest: seq<nat>)
    requires SameRecords(s) && Follows(c, s, st, rest) && s'.pending == s.pending && s'.clock == s.clock
    requires s'.durable.Some? && s'.durable.value.recorded == s.volatile.recorded
    requires s'.durable.value.status.cursor == s.volatile.status.cursor && TodoOk(s'.pc, rest)
    ensures Follows(c, s', st, rest)
  {
  }

  lemma QuietFollows(c: Config, s: State, s': State, st: Status, rest: seq<nat>)
    requires Follows(c, s, st, rest) && s'.pending == s.pending && s'.clock == s.clock && s'.durable == s.durable
    requires TodoOk(s'.pc, rest)
    ensures Follows(c, s', st, rest)
  {
  }

  lemma SaveTodo(s: State, disk: Disk, rest: seq<nat>)
    requires (s.pc.Committing? || s.pc.Scheduled? || s.pc.Captured?) && TodoOk(s.pc, rest)
    requires s.pc.Captured? ==> s.pending.Some?
    ensures TodoOk(DoSave(s, disk).pc, rest)
  {
  }

  lemma SaveFollows(c: Config, s: State, st: Status, rest: seq<nat>, disk: Disk)
    requires Shape(c, s) && Accounts(s) && Follows(c, s, st, rest) && Enabled(c, s, Save(disk))
    ensures Follows(c, DoSave(s, disk), st, rest)
  {
    SaveTodo(s, disk, rest);
    if disk == Lost {
      QuietFollows(c, s, DoSave(s, disk), st, rest);
    } else {
      StoredFollows(c, s, DoSave(s, disk), st, rest);
    }
  }

  lemma ReportFollows(c: Config, s: State, st: Status, rest: seq<nat>, now: nat, error: Option<string>, disk: Disk)
    requires Accounts(s) && Follows(c, s, st, rest) && s.pc.Idle?
    ensures Follows(c, DoReport(s, now, error, disk), st, rest)
  {
    if disk == Lost {
      QuietFollows(c, s, DoReport(s, now, error, disk), st, rest);
    } else {
      StoredFollows(c, s, DoReport(s, now, error, disk), st, rest);
    }
  }

  lemma SendFollows(c: Config, s: State, st: Status, rest: seq<nat>, step: Step)
    requires Follows(c, s, st, rest) && Enabled(c, s, step) && (step.Acknowledge? || step.WriteFails?)
    ensures Follows(c, Do(c, s, step), st, rest)
  {
    QuietFollows(c, s, Do(c, s, step), st, rest);
  }

  lemma OtherFollows(c: Config, s: State, st: Status, rest: seq<nat>, step: Step)
    requires Follows(c, s, st, rest) && Enabled(c, s, step) && (Quiet(step) || step.Restart?)
    ensures Follows(c, Do(c, s, step), st, rest)
  {
    QuietFollows(c, s, Do(c, s, step), st, rest);
  }

  /** Only a removal clears the pending snapshot. */
  lemma OnlyRemoveRemoves(c: Config, s: State, step: Step)
    requires Enabled(c, s, step) && !step.Remove?
    ensures !Removes(s, Do(c, s, step))
  {
  }

  lemma StepFollows(c: Config, s: State, st: Status, rest: seq<nat>, step: Step)
    requires ValidConfig(c) && Shape(c, s) && Accounts(s) && Follows(c, s, st, rest) && Enabled(c, s, step)
    ensures Follows(c, Do(c, s, step), NextStatus(c, s, st, step), NextRest(c, s, st, rest, step))
  {
    if !step.Remove? { OnlyRemoveRemoves(c, s, step); }
    match step
    case CallSchedule(now) => ScheduleFollows(c, s, st, rest, now);
    case Collect(result, disk) => CollectFollows(c, s, st, rest, result, disk);
    case Remove(disk) => RemoveFollows(c, s, st, rest, disk);
    case Save(disk) => SaveFollows(c, s, st, rest, disk);
    case Report(now, error, disk) => ReportFollows(c, s, st, rest, now, error, disk);
    case Acknowledge => SendFollows(c, s, st, rest, step);
    case WriteFails(_, _, _) => SendFollows(c, s, st, rest, step);
    case _ => OtherFollows(c, s, st, rest, step);
  }

  /** A history of the round robin: finished cycles, each from the status before it, and one open cycle. */
  datatype Log = Log(plans: seq<Status>, cycles: seq<Cycle>, open: Cycle)

  ghost predicate LogOk(c: Settings, log: Log) {
    && |log.plans| == |log.cycles| + 1
    && (forall i :: 0 <= i < |log.cycles| ==> FollowedBy(c, log.plans[i], log.cycles[i], log.plans[i + 1], NextTime(log, i)))
    && CycleFits(c, Current(log), log.open)
  }

  function Current(log: Log): Status
    requires log.plans != []
  {
    log.plans[|log.plans| - 1]
  }

  function NextTime(log: Log, i: nat): nat {
    if i + 1 < |log.cycles| then log.cycles[i + 1].now else log.open.now
  }

  /** The time of the first cycle. */
  function FirstTime(log: Log): nat {
    if log.cycles == [] then log.open.now else log.cycles[0].now
  }

  ghost predicate FollowedBy(c: Settings, st: Status, cycle: Cycle, after: Status, later: nat) {
    CycleFits(c, st, cycle) && after == AfterCycle(c, st, cycle) && cycle.now <= later
  }

  ghost predicate WaitsThrough(c: Settings, st: Status, cycle: Cycle, t: nat) {
    CycleFits(c, st, cycle) && t in CandidatesAt(c, cycle.now, st) && t !in Attempted(c, st, cycle)
  }

  /** Hour `t` is a candidate of every cycle and is published in none. */
  ghost predicate LogWaits(c: Settings, log: Log, t: nat)
    requires LogOk(c, log)
  {
    && (forall i :: 0 <= i < |log.cycles| ==> WaitsThrough(c, log.plans[i], log.cycles[i], t))
    && WaitsThrough(c, Current(log), log.open, t)
  }

  ghost function LogStatus(c: Settings, log: Log): Status
    requires LogOk(c, log)
  {
    AfterCycle(c, Current(log), log.open)
  }

  ghost function LogRest(c: Settings, log: Log): seq<nat>
    requires LogOk(c, log)
  {
    CyclePicks(c, Current(log), log.open)[|log.open.outcomes|..]
  }

  function LogPublications(log: Log): nat {
    Publications(log.cycles) + |log.open.outcomes|
  }

  /** A run of the round robin in which `t` is always a candidate and never published. */
  ghost predicate RunWaits(c: Settings, st: Status, cycles: seq<Cycle>, t: nat) {
    Run(c, st, cycles) && StaysCandidate(c, st, cycles, t) && !EverAttempted(c, st, cycles, t)
  }

  lemma RunOne(c: Settings, st: Status, cycle: Cycle, t: nat)
    requires WaitsThrough(c, st, cycle, t)
    ensures RunWaits(c, st, [cycle], t)
  {
    assert [cycle][1..] == [];
  }

  /** A log is a run of the round robin. */
  lemma {:induction false} LogRuns(c: Settings, log: Log, t: nat)
    requires LogOk(c, log) && LogWaits(c, log, t)
    ensures RunWaits(c, log.plans[0], log.cycles + [log.open], t)
    decreases |log.cycles|
  {
    var cycles := log.cycles + [log.open];
    if log.cycles == [] {
      assert cycles == [log.open];
      RunOne(c, log.plans[0], log.open, t);
    } else {
      LogTail(c, log, t);
      LogRuns(c, Tail(log), t);
      assert cycles[1..] == Tail(log).cycles + [log.open];
      assert cycles[0] == log.cycles[0] && cycles[1].now == NextTime(log, 0);
      assert FollowedBy(c, log.plans[0], log.cycles[0], log.plans[1], NextTime(log, 0));
      RunCons(c, log.plans[0], cycles, t);
    }
  }

  function Tail(log: Log): Log
    requires log.plans != [] && log.cycles != []
  {
    Log(log.plans[1..], log.cycles[1..], log.open)
  }

  lemma LogTail(c: Settings, log: Log, t: nat)
    requires LogOk(c, log) && LogWaits(c, log, t) && log.cycles != []
    ensures LogOk(c, Tail(log)) && LogWaits(c, Tail(log), t)
    ensures WaitsThrough(c, log.plans[0], log.cycles[0], t) && Tail(log).plans[0] == AfterCycle(c, log.plans[0], log.cycles[0])
  {
    var rest := Tail(log);
    forall i | 0 <= i < |rest.cycles|
      ensures FollowedBy(c, rest.plans[i], rest.cycles[i], rest.plans[i + 1], NextTime(rest, i))
      ensures WaitsThrough(c, rest.plans[i], rest.cycles[i], t)
    {
      assert FollowedBy(c, log.plans[i + 1], log.cycles[i + 1], log.plans[i + 2], NextTime(log, i + 1));
    }
    assert FollowedBy(c, log.plans[0], log.cycles[0], log.plans[1], NextTime(log, 0));
  }

  /** One more cycle in front of a run. */
  lemma RunCons(c: Settings, st: Status, cycles: seq<Cycle>, t: nat)
    requires |cycles| > 1 && WaitsThrough(c, st, cycles[0], t) && cycles[0].now <= cycles[1].now
    requires RunWaits(c, AfterCycle(c, st, cycles[0]), cycles[1..], t)
    ensures RunWaits(c, st, cycles, t)
  {
  }

  /** The open cycle is closed and another one begins. */
  ghost function OpenCycle(c: Settings, log: Log, now: nat): Log
    requires LogOk(c, log)
  {
    Log(log.plans + [LogStatus(c, log)], log.cycles + [log.open], Cycle(now, []))
  }

  lemma ClosedCycles(c: Settings, log: Log, now: nat, t: nat, i: nat)
    requires LogOk(c, log) && LogWaits(c, log, t) && log.open.now <= now && i < |log.cycles| + 1
    ensures var log' := OpenCycle(c, log, now);
            && FollowedBy(c, log'.plans[i], log'.cycles[i], log'.plans[i + 1], NextTime(log', i))
            && WaitsThrough(c, log'.plans[i], log'.cycles[i], t)
  {
    if i < |log.cycles| {
      assert FollowedBy(c, log.plans[i], log.cycles[i], log.plans[i + 1], NextTime(log, i));
    }
  }

  lemma OpenCycleOk(c: Settings, log: Log, now: nat, t: nat)
    requires LogOk(c, log) && LogWaits(c, log, t) && log.open.now <= now && t in CandidatesAt(c, now, LogStatus(c, log))
    ensures var log' := OpenCycle(c, log, now);
            && LogOk(c, log') && LogWaits(c, log', t) && log'.plans[0] == log.plans[0]
            && LogStatus(c, log') == ScheduleStatus(c, now, LogStatus(c, log))
            && LogRest(c, log') == Picks(c, now, LogStatus(c, log'))
            && LogPublications(log') == LogPublications(log)
  {
    var log' := OpenCycle(c, log, now);
    forall i | 0 <= i < |log'.cycles|
      ensures FollowedBy(c, log'.plans[i], log'.cycles[i], log'.plans[i + 1], NextTime(log', i))
      ensures WaitsThrough(c, log'.plans[i], log'.cycles[i], t)
    {
      ClosedCycles(c, log, now, t, i);
    }
    PublicationsSnoc(log.cycles, log.open);
  }

  lemma {:induction false} PublicationsSnoc(cycles: seq<Cycle>, cycle: Cycle)
    ensures Publications(cycles + [cycle]) == Publications(cycles) + |cycle.outcomes|
  {
    if cycles == [] {
      assert (cycles + [cycle])[1..] == [];
    } else {
      assert (cycles + [cycle])[1..] == cycles[1..] + [cycle];
      PublicationsSnoc(cycles[1..], cycle);
    }
  }

  /** One more hour of the open cycle is published. */
  function NotePublication(log: Log, outcome: bool): Log {
    log.(open := Cycle(log.open.now, log.open.outcomes + [outcome]))
  }

  /** Only the outcomes of the open cycle differ. */
  lemma SameClosedCycles(c: Settings, log: Log, log': Log, t: nat)
    requires LogOk(c, log) && LogWaits(c, log, t) && log'.plans == log.plans && log'.cycles == log.cycles
    requires log'.open.now == log.open.now && WaitsThrough(c, Current(log), log'.open, t)
    ensures LogOk(c, log') && LogWaits(c, log', t)
  {
    forall i | 0 <= i < |log.cycles|
      ensures FollowedBy(c, log'.plans[i], log'.cycles[i], log'.plans[i + 1], NextTime(log', i))
    {
      assert NextTime(log', i) == NextTime(log, i);
    }
  }

  lemma NotePublicationOk(c: Settings, log: Log, outcome: bool, t: nat)
    requires LogOk(c, log) && LogWaits(c, log, t) && LogRest(c, log) != [] && LogRest(c, log)[0] != t
    ensures var log' := NotePublication(log, outcome);
            && LogOk(c, log') && LogWaits(c, log', t) && log'.plans == log.plans
            && LogStatus(c, log') == Published(LogStatus(c, log), LogRest(c, log)[0], outcome)
            && LogRest(c, log') == LogRest(c, log)[1..]
            && LogPublications(log') == LogPublications(log) + 1
  {
    OneMorePublished(c, Current(log), log.open, outcome, t);
    SameClosedCycles(c, log, NotePublication(log, outcome), t);
  }

  lemma OneMorePublished(c: Settings, st: Status, cycle: Cycle, outcome: bool, t: nat)
    requires WaitsThrough(c, st, cycle, t) && |cycle.outcomes| < |CyclePicks(c, st, cycle)|
    requires CyclePicks(c, st, cycle)[|cycle.outcomes|] != t
    ensures var cycle' := Cycle(cycle.now, cycle.outcomes + [outcome]);
            && WaitsThrough(c, st, cycle', t) && CyclePicks(c, st, cycle') == CyclePicks(c, st, cycle)
            && AfterCycle(c, st, cycle') == Published(AfterCycle(c, st, cycle), CyclePicks(c, st, cycle)[|cycle.outcomes|], outcome)
  {
    var cycle' := Cycle(cycle.now, cycle.outcomes + [outcome]);
    var n, picks := |cycle.outcomes|, CyclePicks(c, st, cycle);
    assert picks[..n + 1] == picks[..n] + [picks[n]];
    PublishedAllSnoc(ScheduleStatus(c, cycle.now, st), picks[..n], cycle.outcomes, picks[n], outcome);
  }

  /*** Bounded overtaking for the worker ***/

  /** How many publications a run of the machine brings to their end. */
  ghost function Finished(c: Config, s: State, steps: seq<Step>, to: State): nat
    requires Runs(c, s, steps, to)
    decreases |steps|
  {
    if steps == [] then 0
    else (if Removes(s, Do(c, s, steps[0])) then 1 else 0) + Finished(c, Do(c, s, steps[0]), steps[1..], to)
  }

  /** Hour `t` is a candidate at the step, if that is a scheduler call, and is not what it publishes. */
  ghost predicate StepWaits(c: Config, s: State, step: Step, t: nat)
    requires Enabled(c, s, step)
  {
    && (step.CallSchedule? ==> t in CandidatesAt(c.settings, step.now, s.volatile.status))
    && (Removes(s, Do(c, s, step)) ==> s.pending.value.start != t)
  }

  ghost predicate Waits(c: Config, s: State, steps: seq<Step>, to: State, t: nat)
    requires Runs(c, s, steps, to)
    decreases |steps|
  {
    steps == [] || (StepWaits(c, s, steps[0], t) && Waits(c, Do(c, s, steps[0]), steps[1..], to, t))
  }

  /** The log is that of a machine run that has come to state `s`. */
  ghost predicate Logs(c: Config, s: State, log: Log, t: nat) {
    && LogOk(c.settings, log) && LogWaits(c.settings, log, t) && log.open.now == s.clock
    && Follows(c, s, LogStatus(c.settings, log), LogRest(c.settings, log))
  }

  lemma ClockStays(c: Config, s: State, step: Step)
    requires Enabled(c, s, step) && !step.CallSchedule?
    ensures Do(c, s, step).clock == s.clock
  {
  }

  lemma StepLogs(c: Config, s: State, log: Log, t: nat, step: Step) returns (log': Log)
    requires ValidConfig(c) && Shape(c, s) && Accounts(s) && Logs(c, s, log, t)
    requires Enabled(c, s, step) && StepWaits(c, s, step, t)
    ensures Logs(c, Do(c, s, step), log', t) && log'.plans[0] == log.plans[0]
    ensures FirstTime(log') == FirstTime(log)
    ensures LogPublications(log') == LogPublications(log) + if Removes(s, Do(c, s, step)) then 1 else 0
    ensures if step.CallSchedule? then log'.cycles == log.cycles + [log.open]
            else log'.cycles == log.cycles && |log.open.outcomes| <= |log'.open.outcomes|
  {
    var st, rest := LogStatus(c.settings, log), LogRest(c.settings, log);
    StepFollows(c, s, st, rest, step);
    if step.CallSchedule? {
      OnlyRemoveRemoves(c, s, step);
      ScheduleFollows(c, s, st, rest, step.now);
      log' := OpenCycle(c.settings, log, step.now);
      OpenCycleOk(c.settings, log, step.now, t);
    } else {
      ClockStays(c, s, step);
      log' := log;
      if Removes(s, Do(c, s, step)) {
        log' := NotePublication(log, IsCollected(s.pending.value));
        NotePublicationOk(c.settings, log, IsCollected(s.pending.value), t);
      }
    }
  }

  /*** Ended cycles ***/

  /** How many cycles of a run came to their end. */
  function Ends(steps: seq<Step>): nat {
    if steps == [] then 0 else (if steps[0].EndCycle? then 1 else 0) + Ends(steps[1..])
  }

  lemma {:induction false} EndsConcat(a: seq<Step>, b: seq<Step>)
    ensures Ends(a + b) == Ends(a) + Ends(b)
  {
    if a == [] {
      assert a + b == b;
    } else {
      ConcatTail(a, b);
      EndsConcat(a[1..], b);
    }
  }

  lemma EndsSnoc(steps: seq<Step>, step: Step)
    ensures Ends(steps + [step]) == Ends(steps) + if step.EndCycle? then 1 else 0
  {
    EndsConcat(steps, [step]);
    assert Ends([step][1..]) == 0;
  }

  /** The machine is between a scheduler call and the end of its cycle. */
  predicate InCycle(pc: Pc) {
    match pc
    case Scheduled(_) => true
    case Collecting(_) => true
    case Captured(_) => true
    case Publishing(_, next) => next.ThenCollect?
    case Committing(next) => next.ThenCollect?
    case Removing(next) => next.ThenCollect?
    case _ => false
  }

  /** What the ended cycles owe has been published: in the closed cycles, or in the open one if the machine has
      left it. */
  predicate Paid(pc: Pc, log: Log, share: nat) {
    share <= Publications(log.cycles) + if InCycle(pc) then 0 else |log.open.outcomes|
  }

  /** Only a scheduler call brings the machine into a cycle. */
  lemma StepInCycle(c: Config, s: State, step: Step)
    requires Enabled(c, s, step)
    ensures InCycle(Do(c, s, step).pc) ==> InCycle(s.pc) || step.CallSchedule?
    ensures step.CallSchedule? ==> !InCycle(s.pc)
    ensures step.EndCycle? ==> InCycle(s.pc) && !InCycle(Do(c, s, step).pc)
  {
  }

  /** At the end of a cycle nothing is left to do, so a waiting hour was passed over by a full share. */
  lemma EndIsComplete(c: Config, s: State, log: Log, t: nat)
    requires ValidConfig(c) && Logs(c, s, log, t) && Enabled(c, s, EndCycle)
    ensures |log.open.outcomes| == c.settings.perCycle
  {
    assert LogRest(c.settings, log) == [];
    FullShare(c.settings, Current(log), log.open, t);
  }

  lemma PaidNext(pc: Pc, pc': Pc, log: Log, log': Log, step: Step, share: nat, due: nat)
    requires Paid(pc, log, share) && (InCycle(pc') ==> InCycle(pc) || step.CallSchedule?)
    requires if step.CallSchedule? then !InCycle(pc) && log'.cycles == log.cycles + [log.open]
             else log'.cycles == log.cycles && |log.open.outcomes| <= |log'.open.outcomes|
    requires due == 0 || (!step.CallSchedule? && InCycle(pc) && !InCycle(pc') && |log.open.outcomes| == due)
    ensures Paid(pc', log', share + due)
  {
    PublicationsSnoc(log.cycles, log.open);
  }

  /** What the step adds to the share: a cycle's worth at the end of a cycle. */
  function Due(c: Config, step: Step): nat {
    if step.EndCycle? then c.settings.perCycle else 0
  }

  lemma StepPaid(c: Config, s: State, log: Log, log': Log, t: nat, step: Step, share: nat)
    requires ValidConfig(c) && Logs(c, s, log, t) && Paid(s.pc, log, share) && Enabled(c, s, step)
    requires if step.CallSchedule? then log'.cycles == log.cycles + [log.open]
             else log'.cycles == log.cycles && |log.open.outcomes| <= |log'.open.outcomes|
    ensures Paid(Do(c, s, step).pc, log', share + Due(c, step))
  {
    StepInCycle(c, s, step);
    if step.EndCycle? { EndIsComplete(c, s, log, t); }
    PaidNext(s.pc, Do(c, s, step).pc, log, log', step, share, Due(c, step));
  }

  lemma {:induction false} SharesUnfold(c: Config, steps: seq<Step>)
    requires steps != []
    ensures Shares(Ends(steps), c.settings.perCycle) == Due(c, steps[0]) + Shares(Ends(steps[1..]), c.settings.perCycle)
  {
  }

  /** Every run of the machine is a run of the round robin, publication by publication, and its ended cycles
      are paid for. */
  lemma {:induction false} RunLogs(c: Config, s: State, log: Log, t: nat, steps: seq<Step>, to: State, share: nat) returns (log': Log)
    requires ValidConfig(c) && Safe(c, s) && Accounts(s) && Logs(c, s, log, t) && Paid(s.pc, log, share)
    requires Runs(c, s, steps, to) && Waits(c, s, steps, to, t)
    ensures Logs(c, to, log', t) && log'.plans[0] == log.plans[0] && FirstTime(log') == FirstTime(log)
    ensures LogPublications(log') == LogPublications(log) + Finished(c, s, steps, to)
    ensures share + Shares(Ends(steps), c.settings.perCycle) <= LogPublications(log')
    decreases |steps|
  {
    log' := log;
    if steps != [] {
      SafeShape(c, s);
      log' := StepLogs(c, s, log, t, steps[0]);
      StepPaid(c, s, log, log', t, steps[0], share);
      StepSafe(c, s, steps[0]);
      StepAccounts(c, s, steps[0]);
      SharesUnfold(c, steps);
      log' := RunLogs(c, Do(c, s, steps[0]), log', t, steps[1..], to, share + Due(c, steps[0]));
    }
  }

  lemma NewLogOk(c: Settings, st: Status, now: nat, t: nat)
    requires t in CandidatesAt(c, now, st)
    ensures var log := Log([st], [], Cycle(now, []));
            && LogOk(c, log) && LogWaits(c, log, t)
            && LogStatus(c, log) == ScheduleStatus(c, now, st) && LogRest(c, log) == Picks(c, now, ScheduleStatus(c, now, st))
  {
  }

  lemma CallFollows(c: Config, s: State, now: nat)
    requires ValidConfig(c) && Shape(c, s) && Accounts(s) && Enabled(c, s, CallSchedule(now))
    ensures var st := ScheduleStatus(c.settings, now, s.volatile.status);
            Follows(c, Do(c, s, CallSchedule(now)), st, Picks(c.settings, now, st))
  {
    VolatileStands(c, s);
    ScheduleStands(c, s.clock, now, s.volatile.status, Recorded(s), s.durable.value.status.cursor);
  }

  /** The log of a machine that has just called its scheduler. */
  lemma CallLogs(c: Config, s: State, now: nat, t: nat) returns (log: Log)
    requires ValidConfig(c) && Shape(c, s) && Accounts(s) && Enabled(c, s, CallSchedule(now))
    requires t in CandidatesAt(c.settings, now, s.volatile.status)
    ensures Logs(c, Do(c, s, CallSchedule(now)), log, t)
    ensures log == Log([s.volatile.status], [], Cycle(now, []))
  {
    log := Log([s.volatile.status], [], Cycle(now, []));
    NewLogOk(c.settings, s.volatile.status, now, t);
    CallFollows(c, s, now);
  }

  /** What a log says about its run and about where the machine is. */
  lemma LogEnds(c: Config, s: State, log: Log, t: nat) returns (cycles: seq<Cycle>, end: Status)
    requires Logs(c, s, log, t)
    ensures cycles != [] && cycles[0].now == FirstTime(log) && cycles[|cycles| - 1].now == s.clock
    ensures RunWaits(c.settings, log.plans[0], cycles, t) && Publications(cycles) == LogPublications(log)
    ensures s.durable.Some? && (s.pending.None? ==> Stands(c, s.clock, end, Recorded(s), s.durable.value.status.cursor))
  {
    LogRuns(c.settings, log, t);
    PublicationsSnoc(log.cycles, log.open);
    cycles, end := log.cycles + [log.open], LogStatus(c.settings, log);
  }

  /** The projection of whole runs: from any scheduler call of any run, what the machine does is a run of the round
      robin from the status the call was made with, with as many publications, and ends where the
      machine ends: same cursor, same flags for every hour still of interest. */
  lemma RunIsRoundRobin(c: Config, before: seq<Step>, s: State, now: nat, steps: seq<Step>, to: State, t: nat)
    returns (cycles: seq<Cycle>, end: Status)
    requires ValidConfig(c) && Runs(c, Init(c), before, s) && Enabled(c, s, CallSchedule(now))
    requires Runs(c, Do(c, s, CallSchedule(now)), steps, to)
    requires t in CandidatesAt(c.settings, now, s.volatile.status) && Waits(c, Do(c, s, CallSchedule(now)), steps, to, t)
    ensures cycles != [] && cycles[0].now == now && cycles[|cycles| - 1].now == to.clock
    ensures RunWaits(c.settings, s.volatile.status, cycles, t)
    ensures Publications(cycles) == Finished(c, Do(c, s, CallSchedule(now)), steps, to)
    ensures Shares(Ends(steps), c.settings.perCycle) <= Publications(cycles)
    ensures to.durable.Some? && (to.pending.None? ==> Stands(c, to.clock, end, Recorded(to), to.durable.value.status.cursor))
  {
    Reachable(c, before, s);
    SafeShape(c, s);
    var log := CallLogs(c, s, now, t);
    StepSafe(c, s, CallSchedule(now));
    StepAccounts(c, s, CallSchedule(now));
    log := RunLogs(c, Do(c, s, CallSchedule(now)), log, t, steps, to, 0);
    cycles, end := LogEnds(c, to, log, t);
  }

  /** Bounded overtaking for the worker itself, over every run, with crashes, replays, lost saves and failed
      cycles: from a scheduler call on, while hour `t` is a candidate and not published, at most as many
      publications are finished as there were candidates ahead of it, plus, if the cursor has passed
      it, the hours that arrive meanwhile. */
  lemma WorkerWaitBound(c: Config, before: seq<Step>, s: State, now: nat, steps: seq<Step>, to: State, t: nat)
    requires ValidConfig(c) && Runs(c, Init(c), before, s) && Enabled(c, s, CallSchedule(now))
    requires Runs(c, Do(c, s, CallSchedule(now)), steps, to)
    requires t in CandidatesAt(c.settings, now, s.volatile.status) && Waits(c, Do(c, s, CallSchedule(now)), steps, to, t)
    ensures Finished(c, Do(c, s, CallSchedule(now)), steps, to)
         <= Rank(c.settings, now, s.volatile.status, t) + Arrivals(c.settings, s.volatile.status, now, to.clock, t)
    ensures Ends(steps) * c.settings.perCycle
         <= Rank(c.settings, now, s.volatile.status, t) + Arrivals(c.settings, s.volatile.status, now, to.clock, t)
  {
    var cycles, end := RunIsRoundRobin(c, before, s, now, steps, to, t);
    WaitBound(c.settings, s.volatile.status, cycles, t);
    SharesIsProduct(Ends(steps), c.settings.perCycle);
  }

  /*** Progress of the worker ***/

  /** Hour `t` is a candidate of every scheduler call of the run. */
  ghost predicate Wanted(c: Config, s: State, steps: seq<Step>, to: State, t: nat)
    requires Runs(c, s, steps, to)
    decreases |steps|
  {
    steps == [] ||
    (&& (steps[0].CallSchedule? ==> t in CandidatesAt(c.settings, steps[0].now, s.volatile.status))
     && Wanted(c, Do(c, s, steps[0]), steps[1..], to, t))
  }

  /** The run brings a publication of hour `t` to its end. */
  ghost predicate Publishes(c: Config, s: State, steps: seq<Step>, to: State, t: nat)
    requires Runs(c, s, steps, to)
    decreases |steps|
  {
    steps != [] &&
    (|| (Removes(s, Do(c, s, steps[0])) && s.pending.value.start == t)
     || Publishes(c, Do(c, s, steps[0]), steps[1..], to, t))
  }

  lemma {:induction false} WaitsIff(c: Config, s: State, steps: seq<Step>, to: State, t: nat)
    requires Runs(c, s, steps, to)
    ensures Waits(c, s, steps, to, t) <==> Wanted(c, s, steps, to, t) && !Publishes(c, s, steps, to, t)
    decreases |steps|
  {
    if steps != [] { WaitsIff(c, Do(c, s, steps[0]), steps[1..], to, t); }
  }

  /** Progress above the cursor, over every run of the worker: with m candidates after the cursor up to `t` at a
      scheduler call, hour `t` is published, or has stopped being a candidate, by the time ceil(m / perCycle)
      cycles have ended, however many others fail, crash or are replayed in between. */
  lemma WorkerProgress(c: Config, before: seq<Step>, s: State, now: nat, steps: seq<Step>, to: State, t: nat)
    requires ValidConfig(c) && Runs(c, Init(c), before, s) && Enabled(c, s, CallSchedule(now))
    requires Runs(c, Do(c, s, CallSchedule(now)), steps, to)
    requires t in CandidatesAt(c.settings, now, s.volatile.status) && Above(s.volatile.status.cursor, t)
    requires Ends(steps) * c.settings.perCycle
          >= |Waiting(CandidatesAt(c.settings, now, s.volatile.status), s.volatile.status.cursor, t)|
    ensures Publishes(c, Do(c, s, CallSchedule(now)), steps, to, t) || !Wanted(c, Do(c, s, CallSchedule(now)), steps, to, t)
  {
    WaitsIff(c, Do(c, s, CallSchedule(now)), steps, to, t);
    if Waits(c, Do(c, s, CallSchedule(now)), steps, to, t) {
      WorkerWaitBound(c, before, s, now, steps, to, t);
      WaitingCount(CandidatesAt(c.settings, now, s.volatile.status), s.volatile.status.cursor, t);
    }
  }

  /** Progress in a fixed window, wherever the cursor stands: n candidates take ceil(n / perCycle) ended cycles. */
  lemma WorkerFixedWindowProgress(c: Config, before: seq<Step>, s: State, now: nat, steps: seq<Step>, to: State, t: nat)
    requires ValidConfig(c) && Runs(c, Init(c), before, s) && Enabled(c, s, CallSchedule(now))
    requires Runs(c, Do(c, s, CallSchedule(now)), steps, to)
    requires t in CandidatesAt(c.settings, now, s.volatile.status)
    requires WindowEnd(c.settings, to.clock) == WindowEnd(c.settings, now)
    requires Ends(steps) * c.settings.perCycle >= |CandidatesAt(c.settings, now, s.volatile.status)|
    ensures Publishes(c, Do(c, s, CallSchedule(now)), steps, to, t) || !Wanted(c, Do(c, s, CallSchedule(now)), steps, to, t)
  {
    WaitsIff(c, Do(c, s, CallSchedule(now)), steps, to, t);
    if Waits(c, Do(c, s, CallSchedule(now)), steps, to, t) {
      WorkerWaitBound(c, before, s, now, steps, to, t);
      RankBound(CandidatesAt(c.settings, now, s.volatile.status), s.volatile.status.cursor, t);
    }
  }
}
