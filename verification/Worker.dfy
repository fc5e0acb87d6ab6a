/** The collector worker in the form of the program: an object whose status is updated in place.
    Every method is proved to be a run of the step machine, so the results about all runs of
    the machine are results about the worker. */
module Worker {
  import opened Common
  import opened Schedule
  import opened RoundRobin
  import opened Publication
  import opened CollectorMachine
  import opened CollectorSafety
  import CollectorFairness

  /** What one write request comes to. */
  datatype WriteResult = Accepted | Rejected(partial: set<Record>, applied: bool, delayed: bool)

  /** Everything the worker does not decide: clock, reports, sink and file system. Attempts of
      one cycle are numbered; attempt 0 is the replay at its start. */
  datatype World = World(
    now: nat,
    write: (nat, nat) -> WriteResult,
    save: (nat, nat) -> Disk,
    remove: nat -> Disk,
    report: nat -> Option<Snapshot>,
    capture: nat -> Disk)

  /** The last step is the end of a cycle. */
  predicate EndsIn(steps: seq<Step>) {
    steps != [] && steps[|steps| - 1].EndCycle?
  }

  lemma PassCounts(cycle: seq<Step>, steps: seq<Step>)
    requires EndsIn(cycle) && cycle <= steps
    ensures CollectorFairness.Ends(steps) >= 1
  {
    var n := |cycle| - 1;
    assert cycle == cycle[..n] + [cycle[n]] && steps == cycle + steps[|cycle|..];
    CollectorFairness.EndsSnoc(cycle[..n], cycle[n]);
    CollectorFairness.EndsConcat(cycle, steps[|cycle|..]);
  }

  /** One pass of the service loop: a cycle, whether its deadline ended it, and the closing save. */
  datatype Turn = Turn(world: World, timedOut: bool, time: Option<nat>, disk: Disk)

  /** The scheduler times of the passes fit 64 bits and do not decrease from `clock` on. */
  predicate Timely(clock: nat, turns: seq<Turn>)
    decreases |turns|
  {
    turns != [] ==> clock <= turns[0].world.now <= U64_MAX && Timely(turns[0].world.now, turns[1..])
  }

  /** The status at the end of a cycle: only the error, the time and the lag change. */
  function Stamped(st: Status, failure: Option<string>, time: Option<nat>): Status {
    var updated := if time.Some? then time.value else st.updatedMs;
    st.(error := if failure.Some? then failure else st.error,
        updatedMs := updated,
        lagMs := if st.lastPublished.None? then None else Some(SatSub(updated, st.lastPublished.value + HOUR)))
  }

  lemma StampedIsReport(s: State, failure: Option<string>, time: Option<nat>, disk: Disk)
    ensures var st := Stamped(s.volatile.status, failure, time);
            var s' := DoReport(s, st.updatedMs, st.error, disk);
            s'.volatile.status == st && s'.pending == s.pending && s'.pc == s.pc && s'.clock == s.clock
  {
  }

  lemma CandidateListStep(c: Settings, now: nat, intervals: map<nat, bool>, list: seq<nat>, t: nat, whole: seq<nat>)
    requires t < WindowEnd(c, now) && list + CandidateList(c, now, intervals, t) == whole
    ensures var list' := if t in Candidates(c, now, intervals) then list + [t] else list;
            list' + CandidateList(c, now, intervals, t + HOUR) == whole
  {
  }

  /** The two statuses plan the same: same hours, same flags, same cursor. */
  predicate SamePlan(a: Status, b: Status) {
    a.intervals == b.intervals && a.cursor == b.cursor
  }

  /** The commit of a pending snapshot plans like a publication of its hour. */
  lemma CommitPlan(c: Config, s: State, x: Snapshot)
    requires ValidConfig(c) && Safe(c, s) && !s.pc.Down? && s.pending == Some(x)
    ensures SamePlan(CommitStatus(s.volatile.status, x.start, IsCollected(x), |Lines(x)|),
                     Published(s.volatile.status, x.start, IsCollected(x)))
  {
    BookSize(c, s.clock, s.volatile);
    CommitKnownHour(s.volatile.status, x.start, IsCollected(x), |Lines(x)|);
  }

  lemma SelectorEffect(s: State, x: Snapshot, next: Next)
    requires s.pending == Some(x) && Buildable(x) && s.pc == Publishing(|Batches(x)|, next)
    ensures var s' := DoAcknowledge(s);
            && s'.pc == Committing(next) && s'.pending == s.pending && s'.clock == s.clock
            && s'.volatile.status == CommitStatus(s.volatile.status, x.start, IsCollected(x), |Lines(x)|)
  {
  }

  lemma CollectEffect(s: State, x: Snapshot, disk: Disk, todo: seq<nat>)
    requires s.pc == Collecting([x.start] + todo)
    ensures s.pc.todo != [] && s.pc.todo[0] == x.start
    ensures var s' := DoCollect(s, Some(x), disk);
            var kept := Buildable(x) && disk != Lost;
            && s'.pc == (if kept && disk == Done then Captured(todo) else Idle)
            && s'.pending == (if kept then Some(x) else s.pending) && s'.clock == s.clock
            && s'.volatile.status == if kept && disk == Done then NoteCollected(s.volatile.status, x.start, IsCollected(x)) else s.volatile.status
  {
    ConcatTail([x.start], todo);
    assert [x.start][1..] + todo == todo;
  }

  /** `after` plans like the status that a complete cycle leaves. */
  ghost predicate CompletesCycle(c: Settings, before: Status, cycle: RoundRobin.Cycle, after: Status) {
    && CycleFits(c, before, cycle) && Complete(c, before, cycle)
    && SamePlan(after, AfterCycle(c, before, cycle))
  }

  lemma SamePlanPicks(c: Settings, now: nat, a: Status, b: Status)
    requires SamePlan(a, b)
    ensures SamePlan(ScheduleStatus(c, now, a), ScheduleStatus(c, now, b))
    ensures Picks(c, now, ScheduleStatus(c, now, a)) == Picks(c, now, ScheduleStatus(c, now, b))
  {
  }

  lemma {:induction false} SamePlanPublished(a: Status, b: Status, hours: seq<nat>, outcomes: seq<bool>)
    requires SamePlan(a, b) && |hours| == |outcomes|
    ensures SamePlan(PublishedAll(a, hours, outcomes), PublishedAll(b, hours, outcomes))
    decreases |hours|
  {
    if hours != [] {
      SamePlanPublished(Published(a, hours[0], outcomes[0]), Published(b, hours[0], outcomes[0]), hours[1..], outcomes[1..]);
    }
  }

  lemma SamePlanCycle(c: Settings, a: Status, b: Status, cycle: RoundRobin.Cycle)
    requires SamePlan(a, b) && CycleFits(c, a, cycle)
    ensures CycleFits(c, b, cycle) && (Complete(c, a, cycle) <==> Complete(c, b, cycle))
    ensures SamePlan(AfterCycle(c, a, cycle), AfterCycle(c, b, cycle))
  {
    SamePlanPicks(c, cycle.now, a, b);
    SamePlanPublished(ScheduleStatus(c, cycle.now, a), ScheduleStatus(c, cycle.now, b), Attempted(c, a, cycle), cycle.outcomes);
  }

  /** Statuses between complete cycles of the worker, each cycle starting where the last one ended. */
  ghost predicate CompleteChain(c: Settings, statuses: seq<Status>, cycles: seq<RoundRobin.Cycle>) {
    && |statuses| == |cycles| + 1
    && (forall i :: 0 <= i < |cycles| ==> CompletesCycle(c, statuses[i], cycles[i], statuses[i + 1]))
    && (forall i :: 0 < i < |cycles| ==> cycles[i - 1].now <= cycles[i].now)
  }

  /** Successive complete cycles of the worker are a run of complete cycles of the round robin, from any status
      with the same plan; so its progress results apply to the worker. */
  lemma CyclesChain(c: Settings, statuses: seq<Status>, cycles: seq<RoundRobin.Cycle>, st: Status)
    requires CompleteChain(c, statuses, cycles) && SamePlan(statuses[0], st)
    ensures RoundRobin.Run(c, st, cycles) && CompleteCount(c, st, cycles) == |cycles|
  {
    ChainIsComplete(c, statuses, cycles, st);
    AllCompleteCount(c, st, cycles);
  }

  lemma {:induction false} ChainIsComplete(c: Settings, statuses: seq<Status>, cycles: seq<RoundRobin.Cycle>, st: Status)
    requires CompleteChain(c, statuses, cycles) && SamePlan(statuses[0], st)
    ensures RoundRobin.Run(c, st, cycles) && AllComplete(c, st, cycles)
    decreases |cycles|
  {
    if cycles != [] {
      assert CompletesCycle(c, statuses[0], cycles[0], statuses[1]);
      SamePlanCycle(c, statuses[0], st, cycles[0]);
      ChainTail(c, statuses, cycles);
      ChainIsComplete(c, statuses[1..], cycles[1..], AfterCycle(c, st, cycles[0]));
    }
  }

  lemma ChainTail(c: Settings, statuses: seq<Status>, cycles: seq<RoundRobin.Cycle>)
    requires CompleteChain(c, statuses, cycles) && cycles != []
    ensures CompleteChain(c, statuses[1..], cycles[1..])
  {
    forall i | 0 <= i < |cycles[1..]| ensures CompletesCycle(c, statuses[1..][i], cycles[1..][i], statuses[1..][i + 1]) {
      assert CompletesCycle(c, statuses[i + 1], cycles[i + 1], statuses[i + 2]);
    }
  }

  /** Successive statuses, each planning like its predecessor after one publication. */
  ghost predicate PlansOk(plans: seq<Status>, hours: seq<nat>, outcomes: seq<bool>) {
    && |plans| == |hours| + 1 && |outcomes| == |hours|
    && forall k :: 0 <= k < |hours| ==> SamePlan(plans[k + 1], Published(plans[k], hours[k], outcomes[k]))
  }

  lemma PlansOkSnoc(plans: seq<Status>, hours: seq<nat>, outcomes: seq<bool>, status: Status, hour: nat, outcome: bool)
    requires PlansOk(plans, hours, outcomes)
    requires SamePlan(status, Published(plans[|hours|], hour, outcome))
    ensures PlansOk(plans + [status], hours + [hour], outcomes + [outcome])
  {
  }

  lemma {:induction false} PlansLead(plans: seq<Status>, hours: seq<nat>, outcomes: seq<bool>)
    requires PlansOk(plans, hours, outcomes)
    ensures SamePlan(plans[|hours|], PublishedAll(plans[0], hours, outcomes))
    decreases |hours|
  {
    if hours != [] {
      var n := |hours| - 1;
      assert hours == hours[..n] + [hours[n]] && outcomes == outcomes[..n] + [outcomes[n]];
      PlansLead(plans[..n + 1], hours[..n], outcomes[..n]);
      PublishedAllSnoc(plans[0], hours[..n], outcomes[..n], hours[n], outcomes[n]);
    }
  }

  /** The hours done so far, whether each was collected, and the statuses in between. */
  datatype Trail = Trail(done: seq<nat>, outcomes: seq<bool>, plans: seq<Status>)

  ghost predicate TrailOk(t: Trail, start: Status, picks: seq<nat>, todo: seq<nat>, status: Status) {
    && picks == t.done + todo && PlansOk(t.plans, t.done, t.outcomes)
    && t.plans[0] == start && t.plans[|t.done|] == status
  }

  lemma TrailStep(t: Trail, start: Status, picks: seq<nat>, hour: nat, rest: seq<nat>, known: Status, outcome: bool, status: Status)
    returns (t': Trail)
    requires TrailOk(t, start, picks, [hour] + rest, known) && SamePlan(status, Published(known, hour, outcome))
    ensures TrailOk(t', start, picks, rest, status)
  {
    PlansOkSnoc(t.plans, t.done, t.outcomes, status, hour, outcome);
    t' := Trail(t.done + [hour], t.outcomes + [outcome], t.plans + [status]);
    assert t.done + ([hour] + rest) == t'.done + rest;
  }

  lemma TrailEnds(t: Trail, start: Status, picks: seq<nat>, status: Status)
    requires TrailOk(t, start, picks, [], status)
    ensures |t.outcomes| == |picks| && SamePlan(status, PublishedAll(start, picks, t.outcomes))
  {
    assert t.done == picks;
    PlansLead(t.plans, picks, t.outcomes);
  }

  /** The window is filled up to `time`, and holds what was known of it. */
  predicate Filled(known: map<nat, bool>, intervals: map<nat, bool>, start: nat, time: nat, end: nat) {
    && Grid(start, time) <= intervals.Keys <= Grid(start, end)
    && (forall t :: t in known && start <= t < end ==> t in intervals)
    && forall t :: t in intervals ==> intervals[t] == (t in known && known[t])
  }

  lemma FillStep(known: map<nat, bool>, intervals: map<nat, bool>, start: nat, time: nat, end: nat)
    requires Filled(known, intervals, start, time, end) && Aligned(time) && Aligned(end) && start <= time < end
    ensures Filled(known, if time in intervals then intervals else intervals[time := false], start, time + HOUR, end)
  {
    forall t | t in Grid(start, time + HOUR) ensures t in intervals || t == time {
      if t > time { AlignedApart(t, time); }
    }
  }

  class Collector {
    const config: Config
    var status: Status
    /** The stored `pending.json`. */
    var pending: Option<Snapshot>
    ghost var state: State

    ghost predicate Valid()
      reads this
    {
      && ValidConfig(config) && Safe(config, state) && !state.pc.Down?
      && state.volatile.status == status && state.pending == pending
    }

    /** Startup on an empty state directory. */
    constructor (config: Config)
      requires ValidConfig(config)
      ensures Valid() && this.config == config
      ensures state.pc == Idle && state == Do(config, Init(config), Restart(Done))
    {
      this.config := config;
      status := FreshBook(config).status;
      pending := None;
      state := Do(config, Init(config), Restart(Done));
      new;
      InitSafe(config);
      StepSafe(config, Init(config), Restart(Done));
    }

    /** Startup on a directory that an earlier worker left behind, however it stopped. The stored
        status passes the startup checks, so the worker comes up. */
    constructor Reopen(config: Config, saved: Status, pending: Option<Snapshot>, ghost left: State)
      requires ValidConfig(config) && Safe(config, left) && left.pc.Down?
      requires left.durable.Some? && left.durable.value.status == saved && left.pending == pending
      ensures Valid() && this.config == config && Accepts(config, saved)
      ensures state.pc == Idle && state == Do(config, left, Restart(Done))
    {
      this.config := config;
      this.status := saved;
      this.pending := pending;
      this.state := Do(config, left, Restart(Done));
      new;
      BookSize(config, left.clock, left.durable.value);
      StepSafe(config, left, Restart(Done));
    }

    /** The greatest key of a nonempty interval map. */
    static method LastInterval(intervals: map<nat, bool>) returns (last: nat)
      requires intervals != map[]
      ensures last == LastKey(intervals.Keys)
    {
      var left := intervals.Keys;
      last :| last in left;
      while left != {}
        invariant left <= intervals.Keys && last in intervals.Keys
        invariant forall k :: k in intervals.Keys && k !in left ==> k <= last
      {
        var k :| k in left;
        if k > last { last := k; }
        left := left - {k};
      }
    }

    /** Keeps the hours of the window and adds the missing ones as unresolved. */
    static method FillWindow(known: map<nat, bool>, start: nat, end: nat) returns (intervals: map<nat, bool>)
      requires Aligned(start) && Aligned(end) && start <= end
      requires forall t :: t in known ==> Aligned(t)
      ensures intervals == Refill(known, start, end)
    {
      intervals := map t | t in known.Keys && start <= t < end :: known[t];
      var time: nat := start;
      while time < end
        invariant Aligned(time) && start <= time <= end
        invariant Filled(known, intervals, start, time, end)
      {
        FillStep(known, intervals, start, time, end);
        if time !in intervals { intervals := intervals[time := false]; }
        AlignedApart(end, time);
        time := time + HOUR;
      }
    }

    static method CountGaps(intervals: map<nat, bool>, start: nat) returns (gaps: nat)
      ensures gaps == Skipped(intervals, start) + |ExpiredHours(intervals, start)|
    {
      gaps := 0;
      if intervals != map[] {
        var last := LastInterval(intervals);
        gaps := SatSub(start, SatAdd(last, HOUR)) / HOUR;
      }
      gaps := gaps + |set t | t in intervals.Keys && t < start && !intervals[t]|;
    }

    /** Moves the window to `now` and chooses the hours of the cycle. */
    method CallScheduler(now: nat) returns (picks: seq<nat>)
      requires ValidSettings(config.settings)
      requires forall t :: t in status.intervals ==> Aligned(t)
      modifies this`status
      ensures status == ScheduleStatus(config.settings, now, old(status))
      ensures picks == Picks(config.settings, now, status)
    {
      var c := config.settings;
      var start, end := WindowStart(c, now), WindowEnd(c, now);
      WindowShape(c, now);
      var gaps := CountGaps(status.intervals, start);
      var intervals := FillWindow(status.intervals, start, end);
      status := status.(expiredGaps := status.expiredGaps + gaps, intervals := intervals);
      var candidates := ListCandidates(now);
      if status.cursor.Some? {
        var split := PartitionPoint(candidates, status.cursor.value);
        candidates := candidates[split..] + candidates[..split];
      }
      picks := candidates[..Min(c.perCycle, |candidates|)];
    }

    method ListCandidates(now: nat) returns (candidates: seq<nat>)
      ensures candidates == CandidateList(config.settings, now, status.intervals, WindowStart(config.settings, now))
    {
      var c := config.settings;
      candidates := [];
      var time: nat := WindowStart(c, now);
      while time < WindowEnd(c, now)
        invariant candidates + CandidateList(c, now, status.intervals, time)
               == CandidateList(c, now, status.intervals, WindowStart(c, now))
        decreases WindowEnd(c, now) - time
      {
        CandidateListStep(c, now, status.intervals, candidates, time, CandidateList(c, now, status.intervals, WindowStart(c, now)));
        if time in status.intervals && (!status.intervals[time] || time >= CorrectionStart(c, now)) {
          candidates := candidates + [time];
        }
        time := time + HOUR;
      }
    }

    static method PartitionPoint(list: seq<nat>, cursor: nat) returns (split: nat)
      ensures split == Split(list, cursor)
    {
      split := 0;
      while split < |list| && list[split] <= cursor
        invariant split <= |list|
        invariant Split(list, cursor) == split + Split(list[split..], cursor)
      {
        assert list[split..][1..] == list[split + 1..];
        split := split + 1;
      }
    }

    static method TrimIntervals(known: map<nat, bool>, unresolved: nat) returns (intervals: map<nat, bool>, gaps: nat)
      ensures (intervals, gaps) == Trim(known, unresolved)
    {
      intervals, gaps := known, unresolved;
      while |intervals| > MAX_INTERVALS
        invariant Trim(intervals, gaps) == Trim(known, unresolved)
        decreases |intervals|
      {
        var first := FirstInterval(intervals);
        if !intervals[first] { gaps := gaps + 1; }
        assert intervals.Keys == (intervals - {first}).Keys + {first};
        intervals := intervals - {first};
      }
    }

    /** Records an acknowledged publication in the status. */
    method Commit(hour: nat, collected: bool, records: nat)
      modifies this`status
      ensures status == CommitStatus(old(status), hour, collected, records)
    {
      status := status.(sinkAvailable := Some(true), lastPublished := MaxOf(status.lastPublished, hour), records := records);
      if collected {
        status := status.(lastCollected := MaxOf(status.lastCollected, hour));
      }
      var intervals, gaps := TrimIntervals(status.intervals[hour := collected], status.expiredGaps);
      status := status.(intervals := intervals, expiredGaps := gaps, cursor := Some(hour),
                        error := if collected then None else Some("source_incomplete"));
    }

    static method FirstInterval(intervals: map<nat, bool>) returns (first: nat)
      requires intervals != map[]
      ensures first == FirstKey(intervals.Keys)
    {
      var left := intervals.Keys;
      first :| first in left;
      while left != {}
        invariant left <= intervals.Keys && first in intervals.Keys
        invariant forall k :: k in intervals.Keys && k !in left ==> first <= k
      {
        var k :| k in left;
        if k < first { first := k; }
        left := left - {k};
      }
    }

    /** One step of the machine. */
    ghost method Advance(step: Step, from: State, before: seq<Step>) returns (steps: seq<Step>)
      requires ValidConfig(config) && Safe(config, state) && Enabled(config, state, step)
      requires Runs(config, from, before, state)
      modifies this`state
      ensures state == Do(config, old(state), step) && Safe(config, state)
      ensures Runs(config, from, steps, state)
    {
      steps := Append(step, from, before);
    }

    /** One step of the machine, and which. */
    ghost method Append(step: Step, from: State, before: seq<Step>) returns (steps: seq<Step>)
      requires ValidConfig(config) && Safe(config, state) && Enabled(config, state, step)
      requires Runs(config, from, before, state)
      modifies this`state
      ensures state == Do(config, old(state), step) && Safe(config, state)
      ensures Runs(config, from, steps, state) && steps == before + [step]
    {
      StepSafe(config, state, step);
      Extend(config, from, before, state, step);
      steps := before + [step];
      state := Do(config, state, step);
    }

    /** Sends the next write of the pending publication and waits for its outcome. */
    method Send(result: WriteResult, ghost from: State, ghost before: seq<Step>) returns (ok: bool, ghost steps: seq<Step>)
      requires Valid() && Sending(state) && Runs(config, from, before, state)
      modifies this`status, this`state
      ensures Runs(config, from, steps, state) && ok == result.Accepted?
      ensures ok ==> state == DoAcknowledge(old(state)) && Safe(config, state) && status == old(status)
      ensures !ok ==> Valid() && state.pc == Idle && state.clock == old(state.clock)
      ensures !ok ==> SamePlan(status, old(status))
    {
      match result
      case Accepted =>
        steps := Advance(Acknowledge, from, before);
        ok := true;
      case Rejected(partial, applied, delayed) =>
        steps := Advance(WriteFails(partial, applied, delayed), from, before);
        status := status.(sinkAvailable := Some(false));
        ok := false;
    }

    /** Replays or publishes the pending snapshot: batches in order, the selector last, then the
        status is saved and the pending file removed. */
    method PublishPending(world: World, attempt: nat, ghost next: Next, ghost from: State, ghost before: seq<Step>)
      returns (ok: bool, ghost steps: seq<Step>)
      requires Valid() && Runs(config, from, before, state)
      requires state.pc == if pending.Some? then Publishing(0, next) else NextPc(next)
      modifies this`status, this`pending, this`state
      ensures Valid() && Runs(config, from, steps, state) && state.clock == old(state.clock)
      ensures ok ==> pending.None? && state.pc == NextPc(next)
      ensures ok && old(pending).None? ==> status == old(status)
      ensures ok && old(pending).Some? ==>
                var x := old(pending).value; SamePlan(status, Published(old(status), x.start, IsCollected(x)))
      ensures !ok ==> state.pc == Idle
    {
      steps := before;
      if pending.None? {
        return true, steps;
      }
      var x := pending.value;
      ok, steps := SendBatches(world, attempt, x, next, from, steps);
      if !ok { return; }
      ok, steps := SendSelector(world, attempt, x, next, from, steps);
      if !ok { return; }
      ok, steps := Finish(world, attempt, next, from, steps);
    }

    /** Sends the batches of the pending publication, each after the one before it was accepted. */
    method SendBatches(world: World, attempt: nat, x: Snapshot, ghost next: Next, ghost from: State, ghost before: seq<Step>)
      returns (ok: bool, ghost steps: seq<Step>)
      requires Valid() && pending == Some(x) && state.pc == Publishing(0, next) && Runs(config, from, before, state)
      modifies this`status, this`state
      ensures Valid() && Runs(config, from, steps, state) && state.clock == old(state.clock)
      ensures ok ==> Buildable(x) && state.pc == Publishing(|Batches(x)|, next) && status == old(status)
      ensures !ok ==> state.pc == Idle
    {
      steps := before;
      var built := Build(x);
      var sent := 0;
      while sent < |built.value|
        invariant 0 <= sent <= |built.value| == |Batches(x)|
        invariant Valid() && state.pc == Publishing(sent, next)
        invariant status == old(status) && state.clock == old(state.clock)
        invariant Runs(config, from, steps, state)
      {
        ok, steps := Send(world.write(attempt, sent), from, steps);
        if !ok { return; }
        sent := sent + 1;
      }
      ok := true;
    }

    /** Sends the selector and, once it is accepted, commits the publication to the status. */
    method SendSelector(world: World, attempt: nat, x: Snapshot, ghost next: Next, ghost from: State, ghost before: seq<Step>)
      returns (ok: bool, ghost steps: seq<Step>)
      requires Valid() && pending == Some(x) && Buildable(x) && state.pc == Publishing(|Batches(x)|, next)
      requires Runs(config, from, before, state)
      modifies this`status, this`state
      ensures Valid() && Runs(config, from, steps, state) && state.clock == old(state.clock)
      ensures ok ==> state.pc == Committing(next) && SamePlan(status, Published(old(status), x.start, IsCollected(x)))
      ensures !ok ==> state.pc == Idle
    {
      CommitPlan(config, state, x);
      SelectorEffect(state, x, next);
      ok, steps := Send(world.write(attempt, |Batches(x)|), from, before);
      if ok { Commit(x.start, IsCollected(x), |Lines(x)|); }
    }

    /** Saves the committed status and removes the pending file. */
    method Finish(world: World, attempt: nat, ghost next: Next, ghost from: State, ghost before: seq<Step>)
      returns (ok: bool, ghost steps: seq<Step>)
      requires Valid() && state.pc == Committing(next) && Runs(config, from, before, state)
      modifies this`pending, this`state
      ensures Valid() && Runs(config, from, steps, state) && state.clock == old(state.clock)
      ensures ok ==> pending.None? && state.pc == NextPc(next)
      ensures !ok ==> state.pc == Idle
    {
      ok, steps := SaveCommitted(world.save(attempt, 1), next, from, before);
      if !ok { return; }
      ok, steps := RemovePending(world.remove(attempt), next, from, steps);
    }

    method SaveCommitted(disk: Disk, ghost next: Next, ghost from: State, ghost before: seq<Step>)
      returns (ok: bool, ghost steps: seq<Step>)
      requires Valid() && state.pc == Committing(next) && Runs(config, from, before, state)
      modifies this`state
      ensures Valid() && Runs(config, from, steps, state) && state.clock == old(state.clock)
      ensures state.pc == if ok then Removing(next) else Idle
    {
      steps := Advance(Save(disk), from, before);
      ok := disk == Done;
    }

    method RemovePending(disk: Disk, ghost next: Next, ghost from: State, ghost before: seq<Step>)
      returns (ok: bool, ghost steps: seq<Step>)
      requires Valid() && state.pc == Removing(next) && Runs(config, from, before, state)
      modifies this`pending, this`state
      ensures Valid() && Runs(config, from, steps, state) && state.clock == old(state.clock)
      ensures ok ==> pending.None? && state.pc == NextPc(next)
      ensures !ok ==> state.pc == Idle
    {
      steps := Advance(Remove(disk), from, before);
      if disk != Lost { pending := None; }
      ok := disk == Done;
    }

    /** Stores a collected hour as pending, unless its publication cannot be built. */
    method Store(x: Snapshot, disk: Disk, ghost todo: seq<nat>, ghost from: State, ghost before: seq<Step>)
      returns (ok: bool, ghost steps: seq<Step>)
      requires Valid() && pending.None? && state.pc == Collecting([x.start] + todo) && x.end == x.start + HOUR
      requires Runs(config, from, before, state)
      modifies this`status, this`pending, this`state
      ensures Valid() && Runs(config, from, steps, state) && state.clock == old(state.clock)
      ensures SamePlan(status, old(status))
      ensures ok ==> pending == Some(x) && state.pc == Captured(todo)
      ensures !ok ==> state.pc == Idle
    {
      var built := Build(x);
      ok, steps := Keep(x, built.Ok?, disk, todo, from, before);
    }

    /** Writes the pending file for a snapshot whose publication can be built. */
    method Keep(x: Snapshot, buildable: bool, disk: Disk, ghost todo: seq<nat>, ghost from: State, ghost before: seq<Step>)
      returns (ok: bool, ghost steps: seq<Step>)
      requires Valid() && pending.None? && state.pc == Collecting([x.start] + todo) && x.end == x.start + HOUR
      requires Runs(config, from, before, state) && buildable == Buildable(x)
      modifies this`status, this`pending, this`state
      ensures Valid() && Runs(config, from, steps, state) && state.clock == old(state.clock)
      ensures SamePlan(status, old(status))
      ensures ok ==> pending == Some(x) && state.pc == Captured(todo)
      ensures !ok ==> state.pc == Idle
    {
      CollectEffect(state, x, disk, todo);
      steps := Advance(Collect(Some(x), disk), from, before);
      if buildable && disk != Lost { pending := Some(x); }
      ok := buildable && disk == Done;
      if ok && IsCollected(x) {
        status := status.(lastCollected := MaxOf(status.lastCollected, x.start));
      }
    }

    /** Collects one hour and makes it pending. */
    method Capture(world: World, attempt: nat, hour: nat, ghost todo: seq<nat>, ghost from: State, ghost before: seq<Step>)
      returns (ok: bool, ghost steps: seq<Step>)
      requires Valid() && pending.None? && state.pc == Collecting([hour] + todo) && Runs(config, from, before, state)
      modifies this`status, this`pending, this`state
      ensures Valid() && Runs(config, from, steps, state) && state.clock == old(state.clock)
      ensures SamePlan(status, old(status))
      ensures ok ==> pending.Some? && pending.value.start == hour && state.pc == Publishing(0, ThenCollect(todo))
      ensures !ok ==> state.pc == Idle
    {
      var report := world.report(attempt);
      if report.None? {
        steps := Advance(Collect(None, Done), from, before);
        return false, steps;
      }
      var x := report.value.(start := hour, end := hour + HOUR);
      ok, steps := Store(x, world.capture(attempt), todo, from, before);
      if !ok { return; }
      steps := Advance(Save(world.save(attempt, 0)), from, steps);
      ok := world.save(attempt, 0) == Done;
    }

    /** Collects and publishes one picked hour. */
    method PublishHour(world: World, attempt: nat, hour: nat, ghost todo: seq<nat>, ghost from: State, ghost before: seq<Step>)
      returns (ok: bool, ghost steps: seq<Step>, ghost collected: bool)
      requires Valid() && pending.None? && state.pc == Collecting([hour] + todo) && Runs(config, from, before, state)
      modifies this`status, this`pending, this`state
      ensures Valid() && Runs(config, from, steps, state) && state.clock == old(state.clock)
      ensures ok ==> pending.None? && state.pc == Collecting(todo) && SamePlan(status, Published(old(status), hour, collected))
      ensures !ok ==> state.pc == Idle
    {
      collected := false;
      ok, steps := Capture(world, attempt, hour, todo, from, before);
      if !ok { return; }
      collected := IsCollected(pending.value);
      ok, steps := PublishPending(world, attempt, ThenCollect(todo), from, steps);
    }

    /** Collects and publishes the next of the picked hours. */
    method PublishNext(world: World, attempt: nat, todo: seq<nat>, ghost trail: Trail, ghost start: Status, ghost picks: seq<nat>,
                       ghost from: State, ghost before: seq<Step>)
      returns (ok: bool, ghost steps: seq<Step>, ghost trail': Trail)
      requires Valid() && pending.None? && todo != [] && state.pc == Collecting(todo) && Runs(config, from, before, state)
      requires TrailOk(trail, start, picks, todo, status)
      modifies this`status, this`pending, this`state
      ensures Valid() && Runs(config, from, steps, state) && state.clock == old(state.clock)
      ensures ok ==> pending.None? && state.pc == Collecting(todo[1..]) && TrailOk(trail', start, picks, todo[1..], status)
      ensures !ok ==> state.pc == Idle
    {
      trail' := trail;
      ghost var collected;
      assert todo == [todo[0]] + todo[1..];
      ok, steps, collected := PublishHour(world, attempt, todo[0], todo[1..], from, before);
      if !ok { return; }
      trail' := TrailStep(trail, start, picks, todo[0], todo[1..], old(status), collected, status);
    }

    /** Collects and publishes the picked hours in order, stopping at the first failure. */
    method PublishPicks(world: World, picks: seq<nat>, ghost from: State, ghost before: seq<Step>)
      returns (ok: bool, ghost steps: seq<Step>, ghost outcomes: seq<bool>)
      requires Valid() && pending.None? && state.pc == Collecting(picks) && Runs(config, from, before, state)
      modifies this`status, this`pending, this`state
      ensures Valid() && Runs(config, from, steps, state) && state.pc == Idle && state.clock == old(state.clock)
      ensures ok ==> EndsIn(steps)
      ensures ok ==> pending.None? && |outcomes| == |picks| && SamePlan(status, PublishedAll(old(status), picks, outcomes))
    {
      steps, outcomes := before, [];
      var todo := picks;
      var attempt := 0;
      ghost var trail := Trail([], [], [status]);
      while todo != []
        invariant Valid() && pending.None? && state.pc == Collecting(todo) && state.clock == old(state.clock)
        invariant Runs(config, from, steps, state)
        invariant TrailOk(trail, old(status), picks, todo, status)
        decreases |todo|
      {
        attempt := attempt + 1;
        ok, steps, trail := PublishNext(world, attempt, todo, trail, old(status), picks, from, steps);
        if !ok { return; }
        todo := todo[1..];
      }
      TrailEnds(trail, old(status), picks, status);
      outcomes := trail.outcomes;
      steps := Append(EndCycle, from, steps);
      ok := true;
    }

    /** Moves the window and saves it. */
    method Plan(world: World, ghost from: State, ghost before: seq<Step>)
      returns (ok: bool, picks: seq<nat>, ghost steps: seq<Step>)
      requires Valid() && state.pc == Scheduling && state.clock <= world.now <= U64_MAX && Runs(config, from, before, state)
      modifies this`status, this`state
      ensures Valid() && Runs(config, from, steps, state) && state.clock == world.now
      ensures status == ScheduleStatus(config.settings, world.now, old(status))
      ensures picks == Picks(config.settings, world.now, status)
      ensures state.pc == if ok then Collecting(picks) else Idle
    {
      picks, steps := MoveWindow(world.now, from, before);
      ok, steps := SavePlan(world.save(0, 0), picks, from, steps);
    }

    method MoveWindow(now: nat, ghost from: State, ghost before: seq<Step>) returns (picks: seq<nat>, ghost steps: seq<Step>)
      requires Valid() && state.pc == Scheduling && state.clock <= now <= U64_MAX && Runs(config, from, before, state)
      modifies this`status, this`state
      ensures Valid() && Runs(config, from, steps, state) && state.clock == now && state.pc == Scheduled(picks)
      ensures status == ScheduleStatus(config.settings, now, old(status))
      ensures picks == Picks(config.settings, now, status)
    {
      steps := Advance(CallSchedule(now), from, before);
      picks := CallScheduler(now);
    }

    method SavePlan(disk: Disk, ghost picks: seq<nat>, ghost from: State, ghost before: seq<Step>)
      returns (ok: bool, ghost steps: seq<Step>)
      requires Valid() && state.pc == Scheduled(picks) && Runs(config, from, before, state)
      modifies this`state
      ensures Valid() && Runs(config, from, steps, state) && state.clock == old(state.clock)
      ensures state.pc == if ok then Collecting(picks) else Idle
    {
      steps := Advance(Save(disk), from, before);
      ok := disk == Done;
    }

    /** Moves the window and works through the picks. */
    method PublishWindow(world: World, ghost from: State, ghost before: seq<Step>)
      returns (ok: bool, ghost steps: seq<Step>, ghost outcomes: seq<bool>)
      requires Valid() && pending.None? && state.pc == Scheduling && state.clock <= world.now <= U64_MAX
      requires Runs(config, from, before, state)
      modifies this`status, this`pending, this`state
      ensures Valid() && state.pc == Idle && Runs(config, from, steps, state) && state.clock <= world.now
      ensures ok ==> pending.None? && EndsIn(steps)
      ensures ok ==> CompletesCycle(config.settings, old(status), RoundRobin.Cycle(world.now, outcomes), status)
    {
      outcomes := [];
      var picks;
      ok, picks, steps := Plan(world, from, before);
      if !ok { return; }
      ok, steps, outcomes := PublishPicks(world, picks, from, steps);
      assert picks[..|picks|] == picks;
    }

    /** One cycle: replay whatever is pending, move the window, then work through the picks. It is a
        run of the step machine; when nothing was pending and nothing fails it is a complete cycle
        of the round robin. */
    method Cycle(world: World, ghost from: State, ghost before: seq<Step>)
      returns (ok: bool, ghost steps: seq<Step>, ghost outcomes: seq<bool>)
      requires Valid() && state.pc == Idle && state.clock <= world.now <= U64_MAX && Runs(config, from, before, state)
      modifies this`status, this`pending, this`state
      ensures Valid() && state.pc == Idle && Runs(config, from, steps, state) && state.clock <= world.now
      ensures ok ==> pending.None? && EndsIn(steps)
      ensures ok && old(pending).None? ==>
                CompletesCycle(config.settings, old(status), RoundRobin.Cycle(world.now, outcomes), status)
    {
      outcomes := [];
      steps := Advance(BeginCycle, from, before);
      ok, steps := PublishPending(world, 0, ThenSchedule, from, steps);
      if !ok { return; }
      ok, steps, outcomes := PublishWindow(world, from, steps);
    }

    /** Notes how the cycle ended and how far publication lags behind. */
    method Stamp(failure: Option<string>, time: Option<nat>)
      modifies this`status
      ensures status == Stamped(old(status), failure, time)
    {
      if failure.Some? { status := status.(error := failure); }
      if time.Some? { status := status.(updatedMs := time.value); }
      var lag := None;
      if status.lastPublished.Some? {
        lag := Some(SatSub(status.updatedMs, status.lastPublished.value + HOUR));
      }
      status := status.(lagMs := lag);
    }

    /** Closes a cycle: stamps the status and saves it. A failed save is only logged. */
    method Conclude(failure: Option<string>, time: Option<nat>, disk: Disk, ghost from: State, ghost before: seq<Step>)
      returns (ghost steps: seq<Step>)
      requires Valid() && state.pc == Idle && Runs(config, from, before, state)
      modifies this`status, this`state
      ensures Valid() && state.pc == Idle && Runs(config, from, steps, state) && state.clock == old(state.clock)
      ensures before < steps
      ensures status == Stamped(old(status), failure, time)
      ensures status.error == if failure.Some? then failure else old(status).error
      ensures status.updatedMs == if time.Some? then time.value else old(status).updatedMs
    {
      StampedIsReport(state, failure, time, disk);
      Stamp(failure, time);
      steps := Append(Report(status.updatedMs, status.error, disk), from, before);
    }

    /** One pass of the service loop: a cycle and its conclusion. */
    method Pass(turn: Turn) returns (ok: bool, ghost steps: seq<Step>)
      requires Valid() && state.pc == Idle && state.clock <= turn.world.now <= U64_MAX
      modifies this`status, this`pending, this`state
      ensures Valid() && state.pc == Idle && state.clock <= turn.world.now && Runs(config, old(state), steps, state)
      ensures ok ==> CollectorFairness.Ends(steps) >= 1
      ensures !ok ==> status.error == Some(if turn.timedOut then "cycle_timeout" else "collection_or_publication_failed")
    {
      ghost var outcomes;
      ghost var cycle;
      ok, cycle, outcomes := Cycle(turn.world, state, []);
      var failure :=
        if ok then None else Some(if turn.timedOut then "cycle_timeout" else "collection_or_publication_failed");
      steps := Conclude(failure, turn.time, turn.disk, old(state), cycle);
      if ok { PassCounts(cycle, steps); }
    }

    /** The service loop: whatever clock, sink and file system do, all of it is one run of the machine, and every
        pass that it completes is an ended cycle of that run. */
    method Run(turns: seq<Turn>) returns (completed: nat, ghost steps: seq<Step>)
      requires Valid() && state.pc == Idle && Timely(state.clock, turns)
      modifies this`status, this`pending, this`state
      ensures Valid() && state.pc == Idle && Runs(config, old(state), steps, state)
      ensures completed <= CollectorFairness.Ends(steps)
    {
      steps, completed := [], 0;
      var left := turns;
      while left != []
        invariant Valid() && state.pc == Idle && Timely(state.clock, left)
        invariant Runs(config, old(state), steps, state) && completed <= CollectorFairness.Ends(steps)
        decreases |left|
      {
        ghost var before := state;
        var ok;
        ghost var more;
        ok, more := Pass(left[0]);
        RunsConcat(config, old(state), steps, before, more, state);
        CollectorFairness.EndsConcat(steps, more);
        steps := steps + more;
        if ok { completed := completed + 1; }
        left := left[1..];
      }
    }
  }
}
