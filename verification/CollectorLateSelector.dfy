/** A selector write that was given up, and arrives after a correction has been published, undoes
    the correction in the sink: the condition of checkpoint agreement is not idle. */
module CollectorLateSelector {
  import opened Common
  import opened Schedule
  import opened RoundRobin
  import opened Publication
  import opened CollectorMachine
  import opened CollectorSafety

  /** A time at which the first window is the single hour 0, whatever the settings. */
  function FirstHour(c: Config): nat {
    c.settings.delayMs + HOUR
  }

  /** A snapshot of hour 0 that can be published. */
  predicate OfFirstHour(x: Snapshot) {
    x.start == 0 && x.end == HOUR && Buildable(x)
  }

  lemma OnlyHourPicked(c: Config, st: Status)
    requires ValidConfig(c) && st.intervals.Keys <= {0}
    ensures var st1 := ScheduleStatus(c.settings, FirstHour(c), st);
            st1.intervals.Keys == {0} && Picks(c.settings, FirstHour(c), st1) == [0]
  {
    var now := FirstHour(c);
    var st1 := ScheduleStatus(c.settings, now, st);
    assert WindowEnd(c.settings, now) == HOUR && WindowStart(c.settings, now) == 0 && CorrectionStart(c.settings, now) == 0;
    assert Aligned(0);
    assert st1.intervals.Keys == {0};
    assert CandidateList(c.settings, now, st1.intervals, HOUR) == [];
    assert CandidateList(c.settings, now, st1.intervals, 0) == [0];
    assert Rotate([0], st1.cursor) == [0];
  }

  /** From the scheduler to the first write of the collected hour. */
  lemma Captures(c: Config, from: State, before: seq<Step>, s: State, x: Snapshot)
    returns (steps: seq<Step>, s': State)
    requires ValidConfig(c) && OfFirstHour(x) && Runs(c, from, before, s)
    requires s.pc == Scheduling && s.pending.None? && s.clock <= FirstHour(c)
    requires s.volatile.status.intervals.Keys <= {0}
    ensures Runs(c, from, steps, s') && s'.pc == Publishing(0, ThenCollect([])) && s'.pending == Some(x)
    ensures s'.volatile.status.intervals.Keys == {0}
    ensures s'.sink == s.sink && s'.late == s.late && s'.clock == FirstHour(c)
  {
    steps, s' := Schedules(c, from, before, s);
    Extend(c, from, steps, s', Save(Done));
    steps, s' := steps + [Save(Done)], Do(c, s', Save(Done));
    steps, s' := Stores(c, from, steps, s', x);
  }

  lemma Schedules(c: Config, from: State, before: seq<Step>, s: State) returns (steps: seq<Step>, s': State)
    requires ValidConfig(c) && Runs(c, from, before, s) && s.pc == Scheduling && s.clock <= FirstHour(c)
    requires s.volatile.status.intervals.Keys <= {0}
    ensures Runs(c, from, steps, s') && s'.pc == Scheduled([0]) && s'.volatile.status.intervals.Keys == {0}
    ensures s'.pending == s.pending && s'.sink == s.sink && s'.late == s.late && s'.clock == FirstHour(c)
  {
    var call := CallSchedule(FirstHour(c));
    OnlyHourPicked(c, s.volatile.status);
    Extend(c, from, before, s, call);
    steps, s' := before + [call], Do(c, s, call);
  }

  lemma CollectsHour(c: Config, s: State, x: Snapshot)
    requires OfFirstHour(x) && s.pc == Collecting([0])
    ensures Enabled(c, s, Collect(Some(x), Done))
    ensures var s' := Do(c, s, Collect(Some(x), Done));
            && s'.pc == Captured([]) && s'.pending == Some(x)
            && s'.volatile.status.intervals == s.volatile.status.intervals
            && s'.sink == s.sink && s'.late == s.late && s'.clock == s.clock
  {
    assert [0][1..] == [];
  }

  lemma Stores(c: Config, from: State, before: seq<Step>, s: State, x: Snapshot)
    returns (steps: seq<Step>, s': State)
    requires OfFirstHour(x) && Runs(c, from, before, s) && s.pc == Collecting([0])
    ensures Runs(c, from, steps, s') && s'.pc == Publishing(0, ThenCollect([])) && s'.pending == Some(x)
    ensures s'.volatile.status.intervals == s.volatile.status.intervals
    ensures s'.sink == s.sink && s'.late == s.late && s'.clock == s.clock
  {
    var collect := Collect(Some(x), Done);
    CollectsHour(c, s, x);
    Extend(c, from, before, s, collect);
    steps, s' := before + [collect], Do(c, s, collect);
    SavesCaptured(s', x);
    Extend(c, from, steps, s', Save(Done));
    steps, s' := steps + [Save(Done)], Do(c, s', Save(Done));
  }

  lemma SavesCaptured(s: State, x: Snapshot)
    requires OfFirstHour(x) && s.pc == Captured([]) && s.pending == Some(x)
    ensures DoSave(s, Done) == s.(pc := Publishing(0, ThenCollect([])), durable := Some(s.volatile))
  {
  }

  /** All batches of the pending publication are accepted. */
  lemma {:induction false} Sends(c: Config, from: State, before: seq<Step>, s: State, x: Snapshot)
    returns (steps: seq<Step>, s': State)
    requires Buildable(x) && s.pending == Some(x) && Runs(c, from, before, s)
    requires s.pc.Publishing? && s.pc.sent <= |Batches(x)|
    ensures Runs(c, from, steps, s') && s'.pc == Publishing(|Batches(x)|, s.pc.next)
    ensures s'.sink.selected == s.sink.selected && s' == s.(pc := s'.pc, sink := s'.sink)
    decreases |Batches(x)| - s.pc.sent
  {
    steps, s' := before, s;
    if s.pc.sent < |Batches(x)| {
      Extend(c, from, before, s, Acknowledge);
      steps, s' := Sends(c, from, before + [Acknowledge], Do(c, s, Acknowledge), x);
    }
  }

  lemma SelectorAccepted(c: Config, from: State, before: seq<Step>, s: State, x: Snapshot, next: Next)
    returns (steps: seq<Step>, s': State)
    requires OfFirstHour(x) && s.pending == Some(x) && Runs(c, from, before, s)
    requires s.pc == Publishing(|Batches(x)|, next) && s.volatile.status.intervals.Keys == {0}
    ensures Runs(c, from, steps, s') && s'.pc == Committing(next)
    ensures s'.volatile.status.intervals == map[0 := IsCollected(x)]
    ensures s'.late == s.late && s'.clock == s.clock
  {
    CommitsHour(s, x, next);
    Extend(c, from, before, s, Acknowledge);
    steps, s' := before + [Acknowledge], Do(c, s, Acknowledge);
  }

  lemma CommitsHour(s: State, x: Snapshot, next: Next)
    requires OfFirstHour(x) && s.pending == Some(x) && s.pc == Publishing(|Batches(x)|, next)
    requires s.volatile.status.intervals.Keys == {0}
    ensures var s' := DoAcknowledge(s);
            && s'.pc == Committing(next) && s'.volatile.status.intervals == map[0 := IsCollected(x)]
            && s'.late == s.late && s'.clock == s.clock
  {
    CommitKnownHour(s.volatile.status, 0, IsCollected(x), |Lines(x)|);
  }

  lemma SavedAndRemoved(c: Config, from: State, before: seq<Step>, s: State, next: Next)
    returns (steps: seq<Step>, s': State)
    requires Runs(c, from, before, s) && s.pc == Committing(next)
    ensures Runs(c, from, steps, s')
    ensures s' == s.(pc := NextPc(next), pending := None, durable := Some(s.volatile))
  {
    Extend(c, from, before, s, Save(Done));
    var s1 := Do(c, s, Save(Done));
    steps := before + [Save(Done)];
    Extend(c, from, steps, s1, Remove(Done));
    steps, s' := steps + [Remove(Done)], Do(c, s1, Remove(Done));
  }

  lemma Publishes(c: Config, from: State, before: seq<Step>, s: State, x: Snapshot, next: Next)
    returns (steps: seq<Step>, s': State)
    requires OfFirstHour(x) && s.pending == Some(x) && Runs(c, from, before, s)
    requires s.pc == Publishing(0, next) && s.volatile.status.intervals.Keys == {0}
    ensures Runs(c, from, steps, s') && s'.pc == NextPc(next) && s'.pending.None?
    ensures s'.volatile.status.intervals == map[0 := IsCollected(x)] && s'.durable == Some(s'.volatile)
    ensures s'.late == s.late && s'.clock == s.clock
  {
    steps, s' := Sends(c, from, before, s, x);
    steps, s' := SelectorAccepted(c, from, steps, s', x, next);
    steps, s' := SavedAndRemoved(c, from, steps, s', next);
  }

  lemma Starts(c: Config) returns (steps: seq<Step>, s: State)
    requires ValidConfig(c)
    ensures Runs(c, Init(c), steps, s) && s.pc == Scheduling && s.pending.None? && s.clock == 0
    ensures s.volatile == FreshBook(c) && s.late == {} && s.sink.selected == map[]
  {
    assert Runs(c, Init(c), [], Init(c));
    Extend(c, Init(c), [], Init(c), Restart(Done));
    s := Do(c, Init(c), Restart(Done));
    assert s.pc == Idle;
    steps := [] + [Restart(Done)];
    Extend(c, Init(c), steps, s, BeginCycle);
    s := Do(c, s, BeginCycle);
    steps := steps + [BeginCycle];
  }

  /** The selector request of `x` fails, is retried with success, and its first copy is still under way. */
  lemma LeavesSelectorBehind(c: Config, x: Snapshot) returns (steps: seq<Step>, s: State)
    requires ValidConfig(c) && OfFirstHour(x)
    ensures Runs(c, Init(c), steps, s) && s.pc == Scheduling && s.pending.None? && s.clock == FirstHour(c)
    ensures s.volatile.status.intervals.Keys == {0} && s.late == {SelectorWrite(x)}
  {
    var from := Init(c);
    steps, s := Starts(c);
    steps, s := Captures(c, from, steps, s, x);
    steps, s := Sends(c, from, steps, s, x);
    var fails := WriteFails({}, false, true);
    Extend(c, from, steps, s, fails);
    steps, s := steps + [fails], Do(c, s, fails);
    Extend(c, from, steps, s, BeginCycle);
    steps, s := steps + [BeginCycle], Do(c, s, BeginCycle);
    steps, s := Publishes(c, from, steps, s, x, ThenSchedule);
  }

  /** For any settings and any two snapshots of an hour: the older one can end up selected although
      the newer one was published and recorded last and nothing is pending. */
  lemma LateSelectorUndoesCorrection(c: Config, x: Snapshot, y: Snapshot) returns (steps: seq<Step>, s: State)
    requires ValidConfig(c) && OfFirstHour(x) && OfFirstHour(y)
    ensures Runs(c, Init(c), steps, s) && s.pending.None? && s.durable.Some?
    ensures s.durable.value.status.intervals == map[0 := IsCollected(y)]
    ensures 0 in s.sink.selected && s.sink.selected[0] == x
  {
    var from := Init(c);
    steps, s := LeavesSelectorBehind(c, x);
    steps, s := Captures(c, from, steps, s, y);
    steps, s := Publishes(c, from, steps, s, y, ThenCollect([]));
    var late := Deliver(SelectorWrite(x));
    Extend(c, from, steps, s, late);
    steps, s := steps + [late], Do(c, s, late);
  }

  function PlainSnapshot(activity: SourceStatus): Snapshot {
    Snapshot(0, HOUR, activity, Collected, Collected, true, true, [], [], [], [])
  }

  lemma PlainSnapshotFits(activity: SourceStatus)
    ensures OfFirstHour(PlainSnapshot(activity))
  {
    var x := PlainSnapshot(activity);
    var line := IntervalLine(x);
    assert |line| == 19;
    assert Lines(x) == [line];
    assert Flatten([line]) == line + Flatten([]) && [line][..1] == [line] && [line][1..] == [];
    assert |Groups([line])| == 1;
  }

  /** Checkpoint agreement fails for some run under every configuration: the durable flag says that
      hour 0 is collected while its selector names a snapshot that is not. */
  lemma AgreementNeedsPromptDelivery(c: Config)
    requires ValidConfig(c)
    ensures exists steps, s :: Runs(c, Init(c), steps, s) && s.pending.None? && s.durable.Some?
              && 0 in s.durable.value.status.intervals && s.durable.value.status.intervals[0]
              && 0 in s.sink.selected && !IsCollected(s.sink.selected[0])
  {
    PlainSnapshotFits(Failed);
    PlainSnapshotFits(Collected);
    var steps, s := LateSelectorUndoesCorrection(c, PlainSnapshot(Failed), PlainSnapshot(Collected));
  }
}
