/** Replay is deterministic: while a snapshot is pending, every step of every run, crashes, failed writes and
    late deliveries included, leaves the state on course for the same checkpoint and the same stored
    points; the selectors follow unless a superseded selector is delivered late. */
module CollectorReplay {
  import opened Common
  import opened Schedule
  import opened Publication
  import opened CollectorMachine
  import opened CollectorSafety
  import opened CollectorLedger
  import opened CollectorAgreement

  /** A status apart from the stamps of the time it was written and of the lag then. */
  function CoreOf(st: Status): Status {
    st.(updatedMs := 0, lagMs := None)
  }

  ghost function CommittedCore(st: Status, x: Snapshot): Status {
    CoreOf(CommitStatus(st, x.start, IsCollected(x), |Lines(x)|))
  }

  /** The volatile status is heading for the same checkpoint as the durable one, and has reached it
      once the selector has been acknowledged. */
  ghost predicate OnCourse(s: State) {
    s.pending.Some? && !s.pc.Down? && s.durable.Some? ==>
      && CommittedCore(s.volatile.status, s.pending.value) == CommittedCore(s.durable.value.status, s.pending.value)
      && (HasCommitted(s) ==> CommittedCore(s.volatile.status, s.pending.value) == CoreOf(s.volatile.status))
  }

  /** The checkpoint and the stored points that a state with a pending snapshot is heading for. */
  datatype Outcome = Outcome(core: Status, records: set<Record>)

  ghost function OutcomeOf(s: State): Outcome
    requires s.pending.Some? && s.durable.Some?
  {
    Outcome(CommittedCore(s.durable.value.status, s.pending.value), s.sink.records + AllRecords(s.pending.value))
  }

  /** Committing the same snapshot again changes nothing. */
  lemma CommitTwice(st: Status, x: Snapshot)
    requires x.start in st.intervals && |st.intervals| <= MAX_INTERVALS
    ensures var st' := CommitStatus(st, x.start, IsCollected(x), |Lines(x)|);
            CommittedCore(st', x) == CoreOf(st')
  {
    var st' := CommitStatus(st, x.start, IsCollected(x), |Lines(x)|);
    CommitKnownHour(st, x.start, IsCollected(x), |Lines(x)|);
    assert st'.intervals.Keys == st.intervals.Keys;
    assert |st'.intervals| == |st'.intervals.Keys| && |st.intervals| == |st.intervals.Keys|;
    CommitKnownHour(st', x.start, IsCollected(x), |Lines(x)|);
    assert st'.intervals[x.start := IsCollected(x)] == st'.intervals;
  }

  /** Noting the collection early does not change the checkpoint. */
  lemma CommitAfterNote(st: Status, x: Snapshot)
    ensures CommittedCore(NoteCollected(st, x.start, IsCollected(x)), x) == CommittedCore(st, x)
  {
  }

  /** Stamps, and what a commit overwrites, have no bearing on the checkpoint. */
  lemma CommitOverwrites(a: Status, b: Status, x: Snapshot)
    requires a == b.(updatedMs := a.updatedMs, lagMs := a.lagMs, error := a.error, sinkAvailable := a.sinkAvailable)
    ensures CommittedCore(a, x) == CommittedCore(b, x)
  {
  }

  /*** The checkpoint ***/

  /** The pending snapshot and its checkpoint stay; what the stored status is heading for does not change. */
  ghost predicate SameCourse(s: State, s': State) {
    && s.pending.Some? && s'.pending == s.pending && s.durable.Some? && s'.durable.Some?
    && CommittedCore(s'.durable.value.status, s.pending.value) == CommittedCore(s.durable.value.status, s.pending.value)
  }

  /** The two states are heading for the same checkpoint; one that has arrived has not changed since. */
  ghost predicate SameHeading(s: State, s': State)
    requires s.pending.Some?
  {
    && CommittedCore(s'.volatile.status, s.pending.value) == CommittedCore(s.volatile.status, s.pending.value)
    && (HasCommitted(s') ==> HasCommitted(s) && s'.volatile == s.volatile)
  }

  /** Same files, same volatile checkpoint. */
  lemma QuietCourse(s: State, s': State)
    requires OnCourse(s) && s.pending.Some? && s.durable.Some? && s'.pending == s.pending && s'.durable == s.durable
    requires s'.pc.Down? || (!s.pc.Down? && SameHeading(s, s'))
    ensures OnCourse(s') && SameCourse(s, s')
  {
  }

  lemma StoredCourse(s: State, s': State)
    requires OnCourse(s) && s.pending.Some? && s.durable.Some? && s'.pending == s.pending && !s.pc.Down? && !s'.pc.Down?
    requires s'.durable == Some(s'.volatile) && SameHeading(s, s')
    ensures OnCourse(s') && SameCourse(s, s')
  {
  }

  lemma AcknowledgeCourse(c: Config, s: State)
    requires ValidConfig(c) && Shape(c, s) && OnCourse(s) && Sending(s)
    ensures OnCourse(DoAcknowledge(s)) && SameCourse(s, DoAcknowledge(s))
  {
    var x := s.pending.value;
    if s.pc.sent < |Batches(x)| {
      QuietCourse(s, DoAcknowledge(s));
    } else {
      BookSize(c, s.clock, s.volatile);
      CommitTwice(s.volatile.status, x);
    }
  }

  lemma RestartCourse(c: Config, s: State, disk: Disk)
    requires s.pc.Down? && s.pending.Some? && s.durable.Some?
    ensures var s' := DoRestart(c, s, disk); OnCourse(s') && SameCourse(s, s')
  {
  }

  lemma SaveCourse(s: State, disk: Disk)
    requires OnCourse(s) && s.pending.Some? && s.durable.Some? && (s.pc.Committing? || s.pc.Scheduled? || s.pc.Captured?)
    ensures OnCourse(DoSave(s, disk)) && SameCourse(s, DoSave(s, disk))
  {
    if disk == Lost {
      QuietCourse(s, DoSave(s, disk));
    } else {
      StoredCourse(s, DoSave(s, disk));
    }
  }

  lemma ReportCourse(s: State, now: nat, error: Option<string>, disk: Disk)
    requires OnCourse(s) && s.pending.Some? && s.durable.Some? && s.pc.Idle?
    ensures OnCourse(DoReport(s, now, error, disk)) && SameCourse(s, DoReport(s, now, error, disk))
  {
    CommitOverwrites(DoReport(s, now, error, disk).volatile.status, s.volatile.status, s.pending.value);
    if disk == Lost {
      QuietCourse(s, DoReport(s, now, error, disk));
    } else {
      StoredCourse(s, DoReport(s, now, error, disk));
    }
  }

  /** A failed removal keeps the course; a removal leaves its end behind. */
  lemma RemoveCourse(s: State, disk: Disk)
    requires OnCourse(s) && s.pc.Removing? && s.pending.Some? && s.durable == Some(s.volatile)
    ensures var s' := DoRemove(s, disk);
            && OnCourse(s')
            && (s'.pending.Some? ==> SameCourse(s, s'))
            && (s'.pending.None? ==>
                  s'.durable == s.durable && CoreOf(s.durable.value.status) == CommittedCore(s.durable.value.status, s.pending.value))
  {
    if disk == Lost { QuietCourse(s, DoRemove(s, disk)); }
  }

  lemma CollectCourse(s: State, result: Option<Snapshot>, disk: Disk)
    requires s.pc.Collecting? && s.pc.todo != [] && s.pending.None? && s.durable == Some(s.volatile)
    ensures OnCourse(DoCollect(s, result, disk))
  {
    if result.Some? {
      CommitAfterNote(s.volatile.status, result.value);
    }
  }

  lemma QuietStepCourse(c: Config, s: State, step: Step)
    requires OnCourse(s) && s.pending.Some? && s.durable.Some? && Enabled(c, s, step) && Quiet(step)
    ensures OnCourse(Do(c, s, step)) && SameCourse(s, Do(c, s, step))
  {
    QuietEffect(c, s, step);
    QuietCourse(s, Do(c, s, step));
  }

  lemma WriteFailsCourse(s: State, partial: set<Record>, applied: bool, delayed: bool)
    requires OnCourse(s) && s.durable.Some? && Sending(s)
    ensures var s' := DoWriteFails(s, partial, applied, delayed); OnCourse(s') && SameCourse(s, s')
  {
    CommitOverwrites(DoWriteFails(s, partial, applied, delayed).volatile.status, s.volatile.status, s.pending.value);
    QuietCourse(s, DoWriteFails(s, partial, applied, delayed));
  }

  /** The step that removes the pending snapshot leaves its checkpoint stored. */
  ghost predicate Arrived(s: State, s': State) {
    && s.pending.Some? && s'.pending.None? && s.durable.Some? && s'.durable == s.durable
    && CoreOf(s.durable.value.status) == CommittedCore(s.durable.value.status, s.pending.value)
  }

  /** With a pending snapshot, every step keeps the course or arrives. */
  lemma StepCourse(c: Config, s: State, step: Step)
    requires ValidConfig(c) && Shape(c, s) && OnCourse(s) && Enabled(c, s, step) && s.pending.Some?
    ensures var s' := Do(c, s, step); OnCourse(s') && (SameCourse(s, s') || (step.Remove? && Arrived(s, s')))
  {
    match step
    case Restart(disk) => RestartCourse(c, s, disk);
    case Acknowledge => AcknowledgeCourse(c, s);
    case WriteFails(partial, applied, delayed) => WriteFailsCourse(s, partial, applied, delayed);
    case Save(disk) => SaveCourse(s, disk);
    case Remove(disk) => RemoveCourse(s, disk);
    case CallSchedule(_) => assert false;
    case Collect(_, _) => assert false;
    case Report(now, error, disk) => ReportCourse(s, now, error, disk);
    case _ => QuietStepCourse(c, s, step);
  }

  /** Without one, only a collection starts a course. */
  lemma StepStartsCourse(c: Config, s: State, step: Step)
    requires Shape(c, s) && Enabled(c, s, step) && s.pending.None?
    ensures OnCourse(Do(c, s, step))
  {
    if step.Collect? {
      CollectCourse(s, step.result, step.disk);
    } else {
      StepStartsNothing(c, s, step);
    }
  }

  lemma StepStartsNothing(c: Config, s: State, step: Step)
    requires Enabled(c, s, step) && s.pending.None? && !step.Collect?
    ensures Do(c, s, step).pending.None?
  {
  }

  /*** The stored points ***/

  lemma RewriteRecords(records: set<Record>, x: Snapshot, points: set<Record>)
    requires points <= AllRecords(x)
    ensures records + points + AllRecords(x) == records + AllRecords(x)
  {
  }

  lemma DeliverRecords(s: State, y: Snapshot, index: nat)
    requires s.pending.Some? && Buildable(y) && index < |Batches(y)|
    requires AllRecords(y) <= s.sink.records || s.pending == Some(y)
    ensures ApplyWrite(s.sink, BatchWrite(y, index)).records + AllRecords(s.pending.value)
         == s.sink.records + AllRecords(s.pending.value)
  {
    BatchWithin(y, index);
    var points := RecordsOf(y, Batches(y)[index]);
    if s.pending == Some(y) {
      RewriteRecords(s.sink.records, y, points);
    } else {
      assert s.sink.records + points == s.sink.records;
    }
  }

  lemma SendRecords(s: State, points: set<Record>)
    requires Sending(s) && s.pc.sent < |Batches(s.pending.value)|
    requires points <= RecordsOf(s.pending.value, Batches(s.pending.value)[s.pc.sent])
    ensures s.sink.records + points + AllRecords(s.pending.value) == s.sink.records + AllRecords(s.pending.value)
  {
    BatchWithin(s.pending.value, s.pc.sent);
    RewriteRecords(s.sink.records, s.pending.value, points);
  }

  lemma AcknowledgeRecords(s: State)
    requires Sending(s)
    ensures DoAcknowledge(s).sink.records + AllRecords(s.pending.value) == s.sink.records + AllRecords(s.pending.value)
  {
    var x := s.pending.value;
    if s.pc.sent < |Batches(x)| { SendRecords(s, RecordsOf(x, Batches(x)[s.pc.sent])); }
  }

  lemma WriteFailsRecords(s: State, partial: set<Record>, applied: bool, delayed: bool)
    requires Sending(s)
    ensures DoWriteFails(s, partial, applied, delayed).sink.records + AllRecords(s.pending.value)
         == s.sink.records + AllRecords(s.pending.value)
  {
    var x := s.pending.value;
    if s.pc.sent < |Batches(x)| { SendRecords(s, partial * RecordsOf(x, Batches(x)[s.pc.sent])); }
  }

  /** The points that will be stored in the end do not change; late batches repeat known points. */
  lemma StepRecords(c: Config, s: State, step: Step)
    requires LateOk(s) && Enabled(c, s, step) && s.pending.Some?
    ensures Do(c, s, step).sink.records + AllRecords(s.pending.value) == s.sink.records + AllRecords(s.pending.value)
  {
    match step
    case Acknowledge => AcknowledgeRecords(s);
    case WriteFails(partial, applied, delayed) => WriteFailsRecords(s, partial, applied, delayed);
    case Deliver(w) => if w.BatchWrite? { DeliverRecords(s, w.origin, w.index); }
    case _ => StepSink(c, s, step);
  }

  /*** The selectors ***/

  lemma OtherSelector(s: State, y: Snapshot)
    requires s.pending.Some? && Agree(Recorded(s), s.sink.selected, s.pending)
    requires s.pending == Some(y) || At(Recorded(s), y.start) == Some(y)
    ensures s.sink.selected[y.start := y][s.pending.value.start := s.pending.value]
         == s.sink.selected[s.pending.value.start := s.pending.value]
  {
    var x := s.pending.value;
    if y.start != x.start {
      assert At(s.sink.selected, y.start) == Some(y);
      assert s.sink.selected[y.start := y] == s.sink.selected;
    }
  }

  lemma SentSelector(c: Config, s: State, step: Step)
    requires Enabled(c, s, step) && (step.Acknowledge? || step.WriteFails?)
    ensures var x := s.pending.value;
            Do(c, s, step).sink.selected[x.start := x] == s.sink.selected[x.start := x]
  {
  }

  /** Under prompt delivery, the selectors that will be in force in the end do not change. */
  lemma StepSelected(c: Config, s: State, step: Step)
    requires Ledger(s) && Enabled(c, s, step) && Prompt(s, step) && s.pending.Some?
    ensures var x := s.pending.value;
            Do(c, s, step).sink.selected[x.start := x] == s.sink.selected[x.start := x]
  {
    match step
    case Acknowledge => SentSelector(c, s, step);
    case WriteFails(_, _, _) => SentSelector(c, s, step);
    case Deliver(w) => if w.SelectorWrite? { OtherSelector(s, w.origin); }
    case _ => StepSink(c, s, step);
  }

  /*** Whole runs ***/

  /** A step that keeps the pending snapshot keeps the outcome; the step that removes it leaves exactly that
      outcome behind. This holds of every step of every run. */
  lemma StepOutcome(c: Config, s: State, step: Step)
    requires ValidConfig(c) && Safe(c, s) && OnCourse(s) && Enabled(c, s, step)
    ensures var s' := Do(c, s, step);
            && OnCourse(s')
            && (s.pending.Some? ==> s.durable.Some? && s'.durable.Some?)
            && (s.pending.Some? && s'.pending.Some? ==> s'.pending == s.pending && OutcomeOf(s') == OutcomeOf(s))
            && (s.pending.Some? && s'.pending.None? ==>
                  Outcome(CoreOf(s'.durable.value.status), s'.sink.records) == OutcomeOf(s))
  {
    SafeShape(c, s);
    if s.pending.Some? {
      StepCourse(c, s, step);
      StepRecords(c, s, step);
      if step.Remove? { RemoveRecords(c, s, step.disk); }
    } else {
      StepStartsCourse(c, s, step);
    }
  }

  lemma RemoveRecords(c: Config, s: State, disk: Disk)
    requires Safe(c, s) && s.pc.Removing?
    ensures DoRemove(s, disk).sink.records == s.sink.records == s.sink.records + AllRecords(s.pending.value)
  {
  }

  lemma {:induction false} RunOnCourse(c: Config, s: State, steps: seq<Step>, to: State)
    requires ValidConfig(c) && Safe(c, s) && OnCourse(s) && Runs(c, s, steps, to)
    ensures Safe(c, to) && OnCourse(to)
    decreases |steps|
  {
    if steps != [] {
      StepOutcome(c, s, steps[0]);
      StepSafe(c, s, steps[0]);
      RunOnCourse(c, Do(c, s, steps[0]), steps[1..], to);
    }
  }

  /** The pending snapshot is removed, if at all, by the last of the steps. */
  ghost predicate KeepsPending(c: Config, s: State, steps: seq<Step>)
    decreases |steps|
  {
    |steps| <= 1 ||
    (&& Enabled(c, s, steps[0])
     && Do(c, s, steps[0]).pending.Some?
     && KeepsPending(c, Do(c, s, steps[0]), steps[1..]))
  }

  lemma {:induction false} StepsToOutcome(c: Config, s: State, steps: seq<Step>, to: State)
    requires ValidConfig(c) && Safe(c, s) && OnCourse(s) && s.pending.Some?
    requires Runs(c, s, steps, to) && KeepsPending(c, s, steps)
    ensures s.durable.Some? && to.durable.Some?
    ensures to.pending.Some? ==> to.pending == s.pending && OutcomeOf(to) == OutcomeOf(s)
    ensures to.pending.None? ==> Outcome(CoreOf(to.durable.value.status), to.sink.records) == OutcomeOf(s)
    decreases |steps|
  {
    if steps != [] {
      var s1 := Do(c, s, steps[0]);
      StepOutcome(c, s, steps[0]);
      StepSafe(c, s, steps[0]);
      if s1.pending.Some? {
        StepsToOutcome(c, s1, steps[1..], to);
      } else {
        assert steps[1..] == [];
      }
    }
  }

  /** Replay determinism over every run: from any reachable state with a pending snapshot until its removal,
      whatever crashes, failures, retries and late deliveries happen in between, the stored points and
      the checkpoint that result are those of the one uninterrupted publication. */
  lemma ReplayDeterminism(c: Config, before: seq<Step>, s: State, steps: seq<Step>, to: State)
    requires ValidConfig(c) && Runs(c, Init(c), before, s) && s.pending.Some?
    requires Runs(c, s, steps, to) && KeepsPending(c, s, steps) && to.pending.None?
    ensures s.durable.Some? && to.durable.Some?
    ensures CoreOf(to.durable.value.status) == CommittedCore(s.durable.value.status, s.pending.value)
    ensures to.sink.records == s.sink.records + AllRecords(s.pending.value)
  {
    InitSafe(c);
    RunOnCourse(c, Init(c), before, s);
    StepsToOutcome(c, s, steps, to);
  }

  lemma {:induction false} SelectorsToOutcome(c: Config, s: State, steps: seq<Step>, to: State)
    requires Good(c, s) && s.pending.Some? && PromptRun(c, s, steps, to) && KeepsPending(c, s, steps)
    requires OnCourse(s)
    ensures var x := s.pending.value; to.sink.selected[x.start := x] == s.sink.selected[x.start := x]
    ensures to.pending.None? ==> At(to.sink.selected, s.pending.value.start) == s.pending
    decreases |steps|
  {
    if steps != [] {
      var s1 := Do(c, s, steps[0]);
      StepSelected(c, s, steps[0]);
      StepGood(c, s, steps[0]);
      StepOutcome(c, s, steps[0]);
      if s1.pending.Some? {
        SelectorsToOutcome(c, s1, steps[1..], to);
      } else {
        assert steps[1..] == [];
        RemovedWhileSelected(c, s, steps[0]);
      }
    }
  }

  lemma RemovedWhileSelected(c: Config, s: State, step: Step)
    requires Good(c, s) && OnCourse(s) && Enabled(c, s, step) && s.pending.Some? && Do(c, s, step).pending.None?
    ensures At(Do(c, s, step).sink.selected, s.pending.value.start) == s.pending
  {
    SafeShape(c, s);
    StepCourse(c, s, step);
    assert HasCommitted(s);
  }

  lemma AlreadySelected(selected: map<nat, Snapshot>, x: Snapshot)
    requires At(selected, x.start) == Some(x)
    ensures selected[x.start := x] == selected
  {
  }

  lemma PromptCourse(c: Config, before: seq<Step>, s: State)
    requires ValidConfig(c) && PromptRun(c, Init(c), before, s)
    ensures Good(c, s) && OnCourse(s) && Runs(c, Init(c), before, s)
  {
    InitGood(c);
    RunGood(c, Init(c), before, s);
    InitSafe(c);
    RunOnCourse(c, Init(c), before, s);
  }

  /** When no superseded selector arrives in between, the selectors are those of the uninterrupted publication,
      too, and so the whole sink is. */
  lemma ReplaySelectors(c: Config, before: seq<Step>, s: State, steps: seq<Step>, to: State)
    requires ValidConfig(c) && PromptRun(c, Init(c), before, s) && s.pending.Some?
    requires PromptRun(c, s, steps, to) && KeepsPending(c, s, steps) && to.pending.None?
    ensures to.sink == Sink(s.sink.records + AllRecords(s.pending.value),
                            s.sink.selected[s.pending.value.start := s.pending.value])
  {
    PromptCourse(c, before, s);
    RunGood(c, s, steps, to);
    ReplayDeterminism(c, before, s, steps, to);
    SelectorsToOutcome(c, s, steps, to);
    AlreadySelected(to.sink.selected, s.pending.value);
  }
}
