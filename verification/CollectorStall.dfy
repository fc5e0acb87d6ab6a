/** A run in which an hour that cannot be built comes first again and again: the condition under which
    `CollectorFairness.UnbuildableHourBlocks` holds the rotation up is met under every configuration
    whose history has room for a second hour. */
module CollectorStall {
  import opened Common
  import opened Schedule
  import opened RoundRobin
  import opened Publication
  import opened CollectorMachine
  import opened CollectorSafety
  import opened CollectorLateSelector
  import opened CollectorFairness

  /** One hour after the first window. */
  function SecondHour(c: Config): nat {
    FirstHour(c) + HOUR
  }

  lemma StillFirstThen(c: Config, st: Status)
    requires ValidConfig(c) && c.settings.historyHours >= 2 && st.intervals == map[] && st.cursor.None?
    ensures First(c.settings, FirstHour(c), st, 0)
    ensures var st1 := ScheduleStatus(c.settings, FirstHour(c), st);
            First(c.settings, SecondHour(c), st1, 0) && HOUR in ScheduleStatus(c.settings, SecondHour(c), st1).intervals
  {
    var st1 := ScheduleStatus(c.settings, FirstHour(c), st);
    OnlyHourPicked(c, st);
    assert WindowEnd(c.settings, SecondHour(c)) == 2 * HOUR && WindowStart(c.settings, SecondHour(c)) == 0;
    assert Aligned(HOUR) && HOUR in Grid(0, 2 * HOUR);
    StaysFirstIff(c.settings, FirstHour(c), SecondHour(c), st, 0);
  }

  /** The first window is scheduled and stored, and its only hour turns out not to be buildable. */
  lemma FirstAttemptFails(c: Config) returns (steps: seq<Step>, s: State)
    requires ValidConfig(c)
    ensures Runs(c, Init(c), steps, s) && s.pc == Scheduling && s.pending.None? && s.clock == FirstHour(c)
    ensures s.volatile.status == ScheduleStatus(c.settings, FirstHour(c), FreshBook(c).status) && s.sink.selected == map[]
  {
    steps, s := Starts(c);
    OnlyHourPicked(c, s.volatile.status);
    Extend(c, Init(c), steps, s, CallSchedule(FirstHour(c)));
    steps, s := steps + [CallSchedule(FirstHour(c))], Do(c, s, CallSchedule(FirstHour(c)));
    steps, s := AttemptFails(c, steps, s);
  }

  lemma AttemptFails(c: Config, before: seq<Step>, s: State) returns (steps: seq<Step>, s': State)
    requires Runs(c, Init(c), before, s) && s.pc == Scheduled([0]) && s.pending.None?
    ensures Runs(c, Init(c), steps, s') && s'.pc == Scheduling && s'.pending.None?
    ensures s'.volatile == s.volatile && s'.sink == s.sink && s'.clock == s.clock
  {
    Extend(c, Init(c), before, s, Save(Done));
    steps, s' := before + [Save(Done)], Do(c, s, Save(Done));
    var collect := Collect(Some(Oversized(0)), Done);
    OversizedUnbuildable(0);
    Extend(c, Init(c), steps, s', collect);
    steps, s' := steps + [collect], Do(c, s', collect);
    Extend(c, Init(c), steps, s', BeginCycle);
    steps, s' := steps + [BeginCycle], Do(c, s', BeginCycle);
  }

  /** A second hour has arrived and waits, but the hour that cannot be built is first again. */
  lemma OversizedHourStalls(c: Config) returns (steps: seq<Step>, s: State)
    requires ValidConfig(c) && c.settings.historyHours >= 2
    ensures Runs(c, Init(c), steps, s) && s.pc.Scheduled? && s.pc.todo != [] && s.pc.todo[0] == 0
    ensures HOUR in s.volatile.status.intervals && !s.volatile.status.intervals[HOUR] && s.sink.selected == map[]
  {
    steps, s := FirstAttemptFails(c);
    StillFirstThen(c, FreshBook(c).status);
    Extend(c, Init(c), steps, s, CallSchedule(SecondHour(c)));
    steps, s := steps + [CallSchedule(SecondHour(c))], Do(c, s, CallSchedule(SecondHour(c)));
  }
}
