/** Agreement between the stored status and the sink: which snapshots the selectors name, and whether the
    stored flags and the gap counter say the same. Only a selector write that is delivered late can
    break it, and the exact condition is stated. */
module CollectorAgreement {
  import opened Common
  import opened Schedule
  import opened Publication
  import opened CollectorMachine
  import opened CollectorSafety
  import opened CollectorLedger

  /*** Flags ***/

  predicate HourPending(s: State, t: nat) {
    s.pending.Some? && s.pending.value.start == t
  }

  /** Flags and selectors tell the same hours collected; the hour of a pending snapshot is exempt until that
      snapshot has been recorded. */
  ghost predicate FlagLedger(s: State) {
    && (forall t :: !HourPending(s, t) ==> (t in Resolved(s.sink.selected) <==> t in Resolved(Recorded(s))))
    && (HasCommitted(s) ==> (s.pending.value.start in Resolved(s.sink.selected) <==> IsCollected(s.pending.value)))
  }

  /** A late selector of `x` says of its hour what is recorded of it: `collected` or not. It does not matter
      while the hour is still to be published. */
  predicate Harmless(s: State, x: Snapshot) {
    if HourPending(s, x.start) then HasCommitted(s) ==> IsCollected(x) == IsCollected(s.pending.value)
    else IsCollected(x) <==> x.start in Resolved(Recorded(s))
  }

  predicate HarmlessStep(s: State, step: Step) {
    step.Deliver? && step.write.SelectorWrite? ==> Harmless(s, step.write.origin)
  }

  lemma SelectResolved(selected: map<nat, Snapshot>, x: Snapshot, t: nat)
    ensures t in Resolved(selected[x.start := x]) <==> if t == x.start then IsCollected(x) else t in Resolved(selected)
  {
  }

  /** Selecting a snapshot of the pending hour. */
  lemma SelectPending(s: State, s': State, x: Snapshot)
    requires FlagLedger(s) && HourPending(s, x.start) && s'.pending == s.pending && Recorded(s') == Recorded(s)
    requires s'.sink.selected == s.sink.selected[x.start := x]
    requires HasCommitted(s') ==> IsCollected(x) == IsCollected(s.pending.value)
    ensures FlagLedger(s')
  {
    forall t ensures t != x.start ==> (t in Resolved(s'.sink.selected) <==> t in Resolved(s.sink.selected)) {
      SelectResolved(s.sink.selected, x, t);
    }
    SelectResolved(s.sink.selected, x, x.start);
  }

  lemma QuietFlags(s: State, s': State)
    requires FlagLedger(s) && s'.pending == s.pending && Recorded(s') == Recorded(s) && s'.sink.selected == s.sink.selected
    requires HasCommitted(s') ==> HasCommitted(s)
    ensures FlagLedger(s')
  {
  }

  /** Storing the volatile status changes what is recorded of the pending hour alone. */
  lemma StoredFlags(s: State, s': State)
    requires FlagLedger(s) && SameRecords(s) && Recorded(s') == s.volatile.recorded
    requires s'.pending == s.pending && s'.sink == s.sink && (HasCommitted(s') ==> HasCommitted(s))
    ensures FlagLedger(s')
  {
    forall t | !HourPending(s, t) ensures t in Resolved(Recorded(s')) <==> t in Resolved(Recorded(s)) {
      if s.pending.Some? {
        SameExceptPending(s.volatile.recorded, Recorded(s), s.pending.value, t);
        assert At(s.volatile.recorded, t) == At(Recorded(s), t);
      }
    }
  }

  lemma RemoveFlags(s: State, s': State)
    requires FlagLedger(s) && Accounts(s) && HasCommitted(s) && s.durable == Some(s.volatile)
    requires s'.pending.None? && Recorded(s') == Recorded(s) && s'.sink == s.sink
    ensures FlagLedger(s')
  {
    var x := s.pending.value;
    assert At(Recorded(s), x.start) == Some(x);
    forall t ensures t in Resolved(s'.sink.selected) <==> t in Resolved(Recorded(s')) {
      assert t != x.start ==> !HourPending(s, t);
    }
  }

  lemma CapturedFlags(s: State, s': State)
    requires FlagLedger(s) && s.pending.None? && Recorded(s') == Recorded(s) && s'.sink == s.sink && !HasCommitted(s')
    ensures FlagLedger(s')
  {
    forall t ensures t in Resolved(s'.sink.selected) <==> t in Resolved(Recorded(s')) {
      assert !HourPending(s, t);
    }
  }

  lemma AcknowledgeFlags(c: Config, s: State)
    requires FlagLedger(s) && Sending(s)
    ensures FlagLedger(DoAcknowledge(s))
  {
    if s.pc.sent < |Batches(s.pending.value)| {
      QuietFlags(s, DoAcknowledge(s));
    } else {
      SelectPending(s, DoAcknowledge(s), s.pending.value);
    }
  }

  lemma WriteFailsFlags(s: State, partial: set<Record>, applied: bool, delayed: bool)
    requires FlagLedger(s) && Sending(s)
    ensures FlagLedger(DoWriteFails(s, partial, applied, delayed))
  {
    var s' := DoWriteFails(s, partial, applied, delayed);
    if s.pc.sent < |Batches(s.pending.value)| || !applied {
      QuietFlags(s, s');
    } else {
      SelectPending(s, s', s.pending.value);
    }
  }

  lemma SaveFlags(s: State, disk: Disk)
    requires FlagLedger(s) && Accounts(s) && (s.pc.Committing? || s.pc.Scheduled? || s.pc.Captured?)
    ensures FlagLedger(DoSave(s, disk))
  {
    if disk == Lost {
      QuietFlags(s, DoSave(s, disk));
    } else {
      StoredFlags(s, DoSave(s, disk));
    }
  }

  lemma ReportFlags(s: State, now: nat, error: Option<string>, disk: Disk)
    requires FlagLedger(s) && Accounts(s) && s.pc.Idle?
    ensures FlagLedger(DoReport(s, now, error, disk))
  {
    if disk == Lost {
      QuietFlags(s, DoReport(s, now, error, disk));
    } else {
      StoredFlags(s, DoReport(s, now, error, disk));
    }
  }

  lemma RemoveStepFlags(s: State, disk: Disk)
    requires FlagLedger(s) && Accounts(s) && HasCommitted(s) && s.pc.Removing? && s.durable == Some(s.volatile)
    ensures FlagLedger(DoRemove(s, disk))
  {
    if disk == Lost {
      QuietFlags(s, DoRemove(s, disk));
    } else {
      RemoveFlags(s, DoRemove(s, disk));
    }
  }

  lemma CollectFlags(s: State, result: Option<Snapshot>, disk: Disk)
    requires FlagLedger(s) && s.pending.None? && s.pc.Collecting? && s.pc.todo != []
    ensures FlagLedger(DoCollect(s, result, disk))
  {
    CapturedFlags(s, DoCollect(s, result, disk));
  }

  /** Selecting any snapshot keeps the agreement exactly when that snapshot is harmless. */
  lemma SelectFlagsIff(s: State, s': State, x: Snapshot)
    requires FlagLedger(s) && s' == s.(sink := s'.sink) && s'.sink.selected == s.sink.selected[x.start := x]
    ensures FlagLedger(s') <==> Harmless(s, x)
  {
    SelectResolved(s.sink.selected, x, x.start);
    assert HourPending(s', x.start) <==> HourPending(s, x.start);
    if Harmless(s, x) {
      if HourPending(s, x.start) {
        SelectPending(s, s', x);
      } else {
        SelectOther(s, s', x);
      }
    }
  }

  lemma SelectOther(s: State, s': State, x: Snapshot)
    requires FlagLedger(s) && s' == s.(sink := s'.sink) && s'.sink.selected == s.sink.selected[x.start := x]
    requires !HourPending(s, x.start) && Harmless(s, x)
    ensures FlagLedger(s')
  {
    forall t ensures t in Resolved(s'.sink.selected) <==> t in Resolved(s.sink.selected) {
      SelectResolved(s.sink.selected, x, t);
    }
  }

  lemma DeliverFlags(c: Config, s: State, w: Write)
    requires FlagLedger(s) && Enabled(c, s, Deliver(w)) && HarmlessStep(s, Deliver(w))
    ensures FlagLedger(Do(c, s, Deliver(w)))
  {
    match w
    case BatchWrite(_, _) => QuietFlags(s, Do(c, s, Deliver(w)));
    case SelectorWrite(x) => SelectFlagsIff(s, Do(c, s, Deliver(w)), x);
  }

  lemma QuietStepFlags(c: Config, s: State, step: Step)
    requires FlagLedger(s) && Enabled(c, s, step) && (step.Crash? || step.BeginCycle? || step.EndCycle?)
    ensures FlagLedger(Do(c, s, step))
  {
    QuietFlags(s, Do(c, s, step));
  }

  lemma ScheduleFlags(c: Config, s: State, now: nat)
    requires FlagLedger(s) && Enabled(c, s, CallSchedule(now))
    ensures FlagLedger(Do(c, s, CallSchedule(now)))
  {
    QuietFlags(s, Do(c, s, CallSchedule(now)));
  }

  lemma RestartFlags(c: Config, s: State, disk: Disk)
    requires FlagLedger(s) && s.pc.Down?
    ensures FlagLedger(DoRestart(c, s, disk))
  {
    RestartStores(c, s, disk);
    QuietFlags(s, DoRestart(c, s, disk));
  }

  lemma StepFlags(c: Config, s: State, step: Step)
    requires ValidConfig(c) && Shape(c, s) && Accounts(s) && FlagLedger(s)
    requires Enabled(c, s, step) && HarmlessStep(s, step)
    ensures FlagLedger(Do(c, s, step))
  {
    match step
    case Restart(disk) => RestartFlags(c, s, disk);
    case Acknowledge => AcknowledgeFlags(c, s);
    case WriteFails(partial, applied, delayed) => WriteFailsFlags(s, partial, applied, delayed);
    case Save(disk) => SaveFlags(s, disk);
    case Remove(disk) => RemoveStepFlags(s, disk);
    case CallSchedule(now) => ScheduleFlags(c, s, now);
    case Collect(result, disk) => CollectFlags(s, result, disk);
    case Report(now, error, disk) => ReportFlags(s, now, error, disk);
    case Deliver(w) => DeliverFlags(c, s, w);
    case _ => QuietStepFlags(c, s, step);
  }

  /** A run whose late selectors are all harmless. */
  ghost predicate HarmlessRun(c: Config, s: State, steps: seq<Step>, to: State)
    decreases |steps|
  {
    if steps == [] then s == to
    else Enabled(c, s, steps[0]) && HarmlessStep(s, steps[0]) && HarmlessRun(c, Do(c, s, steps[0]), steps[1..], to)
  }

  ghost predicate FlagsGood(c: Config, s: State) {
    ValidConfig(c) && Safe(c, s) && Accounts(s) && FlagLedger(s)
  }

  lemma StepFlagsGood(c: Config, s: State, step: Step)
    requires FlagsGood(c, s) && Enabled(c, s, step) && HarmlessStep(s, step)
    ensures FlagsGood(c, Do(c, s, step))
  {
    SafeShape(c, s);
    StepSafe(c, s, step);
    StepAccounts(c, s, step);
    StepFlags(c, s, step);
  }

  lemma {:induction false} RunFlags(c: Config, s: State, steps: seq<Step>, to: State)
    requires FlagsGood(c, s) && HarmlessRun(c, s, steps, to)
    ensures FlagsGood(c, to) && Runs(c, s, steps, to)
    decreases |steps|
  {
    if steps != [] {
      StepFlagsGood(c, s, steps[0]);
      RunFlags(c, Do(c, s, steps[0]), steps[1..], to);
    }
  }

  lemma InitFlags(c: Config)
    requires ValidConfig(c)
    ensures FlagsGood(c, Init(c))
  {
    InitSafe(c);
    InitAccounts(c);
  }

  /*** What the flags promise ***/

  /** The stored flag of an hour is `collected` of the snapshot that its selector names. */
  predicate CheckpointHolds(s: State, t: nat) {
    s.durable.Some? && t in s.durable.value.status.intervals && !HourPending(s, t) ==>
      (s.durable.value.status.intervals[t] <==> t in s.sink.selected && IsCollected(s.sink.selected[t]))
  }

  /** The stored counter is the number of hours that left the window and whose selector names no fully
      collected snapshot. */
  ghost predicate GapsHold(s: State) {
    HasHours(s.durable) ==>
      var b := s.durable.value;
      b.status.expiredGaps == |Unresolved(Resolved(s.sink.selected), b.origin, b.start)|
  }

  lemma FlagsHold(c: Config, s: State, t: nat)
    requires FlagsGood(c, s)
    ensures CheckpointHolds(s, t) && GapsHold(s)
  {
    SafeShape(c, s);
    assert CheckpointHolds(s, t) by {
      assert t in Resolved(s.sink.selected) <==> t in s.sink.selected && IsCollected(s.sink.selected[t]);
    }
    if HasHours(s.durable) { GapsAgree(c, s); }
  }

  lemma GapsAgree(c: Config, s: State)
    requires Shape(c, s) && Accounts(s) && FlagLedger(s) && HasHours(s.durable)
    ensures GapsHold(s)
  {
    var b := s.durable.value;
    HoursIff(c, s.clock, b);
    forall t | t in Grid(b.origin, b.start) ensures t in Resolved(s.sink.selected) <==> t in Resolved(b.recorded) {
      assert !HourPending(s, t);
    }
    assert Unresolved(Resolved(s.sink.selected), b.origin, b.start) == Unresolved(Resolved(b.recorded), b.origin, b.start);
  }

  /** Checkpoint agreement, over every run whose late selectors are harmless. */
  lemma CheckpointAgreement(c: Config, steps: seq<Step>, s: State, t: nat)
    requires ValidConfig(c) && HarmlessRun(c, Init(c), steps, s) && s.durable.Some?
    requires t in s.durable.value.status.intervals && (s.pending.Some? ==> s.pending.value.start != t)
    ensures s.durable.value.status.intervals[t] <==> t in s.sink.selected && IsCollected(s.sink.selected[t])
  {
    InitFlags(c);
    RunFlags(c, Init(c), steps, s);
    FlagsHold(c, s, t);
  }

  /** Gap conservation measured against the sink itself: the stored counter is the number of hours from the
      first nonempty window to the current one whose selector names no fully collected snapshot. */
  lemma GapsInSink(c: Config, steps: seq<Step>, s: State)
    requires ValidConfig(c) && HarmlessRun(c, Init(c), steps, s) && HasHours(s.durable)
    ensures Runs(c, Init(c), steps, s)
    ensures var first := Opened(c, Init(c), steps, s, None);
            && first.Some?
            && s.durable.value.status.expiredGaps
               == |Unresolved(Resolved(s.sink.selected), first.value, FirstKey(s.durable.value.status.intervals.Keys))|
  {
    InitFlags(c);
    RunFlags(c, Init(c), steps, s);
    FlagsHold(c, s, 0);
    OriginOpened(c, steps, s);
    GapsRecorded(c, steps, s);
  }

  /*** The condition is exact ***/

  /** A late selector keeps the agreement of flags as a whole exactly when it is harmless. */
  lemma HarmlessExact(c: Config, s: State, x: Snapshot)
    requires FlagsGood(c, s) && Enabled(c, s, Deliver(SelectorWrite(x)))
    ensures FlagLedger(Do(c, s, Deliver(SelectorWrite(x)))) <==> Harmless(s, x)
  {
    SelectFlagsIff(s, Do(c, s, Deliver(SelectorWrite(x))), x);
  }

  lemma SelectCheckpointIff(s: State, s': State, x: Snapshot, t: nat)
    requires CheckpointHolds(s, t) && s' == s.(sink := s'.sink) && s'.sink.selected == s.sink.selected[x.start := x]
    ensures CheckpointHolds(s', t) <==>
            || t != x.start || HourPending(s, t) || s.durable.None? || t !in s.durable.value.status.intervals
            || s.durable.value.status.intervals[t] == IsCollected(x)
  {
  }

  /** At its own hour: agreement holds afterwards exactly when the hour is pending, or not in the stored map, or
      its stored flag is `collected` of the late snapshot. Other hours are unaffected. */
  lemma LateCheckpointExact(c: Config, s: State, x: Snapshot, t: nat)
    requires FlagsGood(c, s) && Enabled(c, s, Deliver(SelectorWrite(x)))
    ensures var s' := Do(c, s, Deliver(SelectorWrite(x)));
            CheckpointHolds(s', t) <==>
            || t != x.start || HourPending(s, t) || s.durable.None? || t !in s.durable.value.status.intervals
            || s.durable.value.status.intervals[t] == IsCollected(x)
  {
    FlagsHold(c, s, t);
    SelectCheckpointIff(s, Do(c, s, Deliver(SelectorWrite(x))), x, t);
  }

  lemma OneMoreOrLess(hours: set<nat>, resolved: set<nat>, resolved': set<nat>, t: nat)
    requires forall u :: u != t ==> (u in resolved <==> u in resolved')
    ensures |hours - resolved| == |hours - resolved'| <==> t !in hours || (t in resolved <==> t in resolved')
  {
    if t in hours && t in resolved && t !in resolved' {
      assert hours - resolved' == (hours - resolved) + {t};
    } else if t in hours && t !in resolved && t in resolved' {
      assert hours - resolved == (hours - resolved') + {t};
    } else {
      assert hours - resolved == hours - resolved';
    }
  }

  /** For the gap counter: agreement holds afterwards exactly when the hour has not left the window, or was
      recorded as the late snapshot says. */
  lemma LateGapsExact(c: Config, s: State, x: Snapshot)
    requires FlagsGood(c, s) && HasHours(s.durable) && Enabled(c, s, Deliver(SelectorWrite(x)))
    ensures var b := s.durable.value;
            GapsHold(Do(c, s, Deliver(SelectorWrite(x)))) <==>
            x.start !in Grid(b.origin, b.start) || (IsCollected(x) <==> x.start in Resolved(b.recorded))
  {
    var b, selected := s.durable.value, s.sink.selected;
    SafeShape(c, s);
    FlagsHold(c, s, x.start);
    forall u ensures u != x.start ==> (u in Resolved(selected) <==> u in Resolved(selected[x.start := x])) {
      SelectResolved(selected, x, u);
    }
    SelectResolved(selected, x, x.start);
    OneMoreOrLess(Grid(b.origin, b.start), Resolved(selected), Resolved(selected[x.start := x]), x.start);
    assert x.start in Grid(b.origin, b.start) ==> !HourPending(s, x.start);
  }

  /*** Snapshots ***/

  /** The selectors are the recorded snapshots, except that the hour of a pending snapshot may
      already select that one. */
  ghost predicate Agree(recorded: map<nat, Snapshot>, selected: map<nat, Snapshot>, pending: Option<Snapshot>) {
    forall t :: At(selected, t) != At(recorded, t) ==>
      pending.Some? && t == pending.value.start && At(selected, t) == pending
  }

  ghost predicate Ledger(s: State) {
    && (!s.pc.Down? ==> Agree(s.volatile.recorded, s.sink.selected, s.pending))
    && Agree(Recorded(s), s.sink.selected, s.pending)
    && (HasCommitted(s) ==> s.volatile.recorded == s.sink.selected)
  }

  /** A late selector changes nothing when its snapshot is the pending one, or the one that every live
      copy of the status was recorded from. */
  predicate Prompt(s: State, step: Step) {
    step.Deliver? && step.write.SelectorWrite? ==>
      var x := step.write.origin;
      || s.pending == Some(x)
      || (&& At(Recorded(s), x.start) == Some(x)
          && (!s.pc.Down? ==> At(s.volatile.recorded, x.start) == Some(x)))
  }

  ghost predicate Good(c: Config, s: State) {
    ValidConfig(c) && Safe(c, s) && Accounts(s) && Ledger(s)
  }

  lemma AgreePending(recorded: map<nat, Snapshot>, selected: map<nat, Snapshot>, x: Snapshot)
    requires Agree(recorded, selected, None)
    ensures Agree(recorded, selected, Some(x))
  {
  }

  lemma AgreeSelect(recorded: map<nat, Snapshot>, selected: map<nat, Snapshot>, x: Snapshot)
    requires Agree(recorded, selected, Some(x))
    ensures Agree(recorded, selected[x.start := x], Some(x))
    ensures recorded[x.start := x] == selected[x.start := x]
  {
    var selected', recorded' := selected[x.start := x], recorded[x.start := x];
    forall t ensures At(recorded', t) == At(selected', t) {
      assert t != x.start ==> At(recorded, t) == At(selected, t);
    }
    SameAt(recorded', selected');
  }

  lemma SameAt(a: map<nat, Snapshot>, b: map<nat, Snapshot>)
    requires forall t :: At(a, t) == At(b, t)
    ensures a == b
  {
    forall t ensures t in a <==> t in b {
      assert At(a, t) == At(b, t);
    }
    forall t | t in a ensures a[t] == b[t] {
      assert At(a, t) == At(b, t);
    }
  }

  lemma AgreeRecorded(recorded: map<nat, Snapshot>, selected: map<nat, Snapshot>, pending: Option<Snapshot>, x: Snapshot)
    requires Agree(recorded, selected, pending) && At(recorded, x.start) == Some(x)
    ensures Agree(recorded, selected[x.start := x], pending)
    ensures recorded == selected ==> selected[x.start := x] == selected
  {
    forall t | At(selected[x.start := x], t) != At(recorded, t)
      ensures pending.Some? && t == pending.value.start && At(selected[x.start := x], t) == pending
    {
      assert At(selected[x.start := x], t) == At(selected, t);
    }
  }

  lemma QuietLedger(s: State, s': State)
    requires Ledger(s) && s'.pending == s.pending && s'.sink.selected == s.sink.selected
    requires s'.volatile.recorded == s.volatile.recorded && (s.pc.Down? ==> s'.pc.Down?)
    requires Recorded(s') == Recorded(s) || (Recorded(s') == s.volatile.recorded && !s.pc.Down?)
    requires HasCommitted(s') ==> HasCommitted(s)
    ensures Ledger(s')
  {
  }

  lemma RestartLedger(c: Config, s: State, disk: Disk)
    requires Ledger(s) && s.pc.Down?
    ensures Ledger(DoRestart(c, s, disk))
  {
    var s' := DoRestart(c, s, disk);
    RestartStores(c, s, disk);
    assert s' != s ==> s'.volatile.recorded == Recorded(s);
  }

  /** The pending snapshot is selected, and possibly recorded. */
  lemma SelectLedger(s: State, s': State, x: Snapshot)
    requires Ledger(s) && !s.pc.Down? && s.pending == Some(x) == s'.pending && Recorded(s') == Recorded(s)
    requires s'.sink.selected == s.sink.selected[x.start := x]
    requires s'.volatile.recorded == (if HasCommitted(s') then s.volatile.recorded[x.start := x] else s.volatile.recorded)
    ensures Ledger(s')
  {
    AgreeSelect(s.volatile.recorded, s.sink.selected, x);
    AgreeSelect(Recorded(s), s.sink.selected, x);
  }

  lemma AcknowledgeLedger(s: State)
    requires Ledger(s) && Sending(s)
    ensures Ledger(DoAcknowledge(s))
  {
    if s.pc.sent < |Batches(s.pending.value)| {
      QuietLedger(s, DoAcknowledge(s));
    } else {
      SelectLedger(s, DoAcknowledge(s), s.pending.value);
    }
  }

  lemma WriteFailsLedger(s: State, partial: set<Record>, applied: bool, delayed: bool)
    requires Ledger(s) && Sending(s)
    ensures Ledger(DoWriteFails(s, partial, applied, delayed))
  {
    var s' := DoWriteFails(s, partial, applied, delayed);
    if s.pc.sent < |Batches(s.pending.value)| || !applied {
      QuietLedger(s, s');
    } else {
      SelectLedger(s, s', s.pending.value);
    }
  }

  lemma ClearedLedger(s: State, s': State)
    requires Ledger(s) && HasCommitted(s) && s.durable == Some(s.volatile)
    requires s'.pending.None? && s'.volatile == s.volatile && s'.durable == s.durable && s'.sink == s.sink
    ensures Ledger(s')
  {
  }

  lemma RemoveLedger(s: State, disk: Disk)
    requires Ledger(s) && HasCommitted(s) && s.pc.Removing? && s.durable == Some(s.volatile)
    ensures Ledger(DoRemove(s, disk))
  {
    if disk == Lost {
      QuietLedger(s, DoRemove(s, disk));
    } else {
      ClearedLedger(s, DoRemove(s, disk));
    }
  }

  lemma CollectLedger(s: State, result: Option<Snapshot>, disk: Disk)
    requires Ledger(s) && s.pending.None? && s.pc.Collecting? && s.pc.todo != []
    ensures Ledger(DoCollect(s, result, disk))
  {
    var s' := DoCollect(s, result, disk);
    if s'.pending.Some? {
      AgreePending(s.volatile.recorded, s.sink.selected, result.value);
      AgreePending(Recorded(s), s.sink.selected, result.value);
    } else {
      QuietLedger(s, s');
    }
  }

  function Selecting(s: State, x: Snapshot): State {
    s.(sink := s.sink.(selected := s.sink.selected[x.start := x]))
  }

  lemma DeliverPending(s: State, x: Snapshot)
    requires Ledger(s) && s.pending == Some(x) && (HasCommitted(s) ==> At(s.volatile.recorded, x.start) == Some(x))
    ensures Ledger(Selecting(s, x))
  {
    if !s.pc.Down? { AgreeSelect(s.volatile.recorded, s.sink.selected, x); }
    AgreeSelect(Recorded(s), s.sink.selected, x);
    assert HasCommitted(s) ==> s.sink.selected[x.start := x] == s.sink.selected;
  }

  lemma DeliverRecorded(s: State, x: Snapshot)
    requires Ledger(s) && At(Recorded(s), x.start) == Some(x)
    requires !s.pc.Down? ==> At(s.volatile.recorded, x.start) == Some(x)
    ensures Ledger(Selecting(s, x))
  {
    if !s.pc.Down? { AgreeRecorded(s.volatile.recorded, s.sink.selected, s.pending, x); }
    AgreeRecorded(Recorded(s), s.sink.selected, s.pending, x);
  }

  lemma DeliverLedger(c: Config, s: State, w: Write)
    requires Accounts(s) && Ledger(s) && Enabled(c, s, Deliver(w)) && Prompt(s, Deliver(w))
    ensures Ledger(Do(c, s, Deliver(w)))
  {
    match w
    case BatchWrite(_, _) => QuietLedger(s, Do(c, s, Deliver(w)));
    case SelectorWrite(x) =>
      if s.pending == Some(x) {
        DeliverPending(s, x);
      } else {
        DeliverRecorded(s, x);
      }
  }

  lemma QuietStepLedger(c: Config, s: State, step: Step)
    requires Ledger(s) && Enabled(c, s, step) && (step.Crash? || step.BeginCycle? || step.EndCycle? || step.Save? || step.Report?)
    ensures Ledger(Do(c, s, step))
  {
    QuietLedger(s, Do(c, s, step));
  }

  lemma ScheduleLedger(c: Config, s: State, now: nat)
    requires Ledger(s) && Enabled(c, s, CallSchedule(now))
    ensures Ledger(Do(c, s, CallSchedule(now)))
  {
    QuietLedger(s, Do(c, s, CallSchedule(now)));
  }

  lemma StepLedger(c: Config, s: State, step: Step)
    requires Shape(c, s) && Accounts(s) && Ledger(s) && Enabled(c, s, step) && Prompt(s, step)
    ensures Ledger(Do(c, s, step))
  {
    match step
    case Restart(disk) => RestartLedger(c, s, disk);
    case Acknowledge => AcknowledgeLedger(s);
    case WriteFails(partial, applied, delayed) => WriteFailsLedger(s, partial, applied, delayed);
    case Remove(disk) => RemoveLedger(s, disk);
    case CallSchedule(now) => ScheduleLedger(c, s, now);
    case Collect(result, disk) => CollectLedger(s, result, disk);
    case Deliver(w) => DeliverLedger(c, s, w);
    case _ => QuietStepLedger(c, s, step);
  }

  lemma StepGood(c: Config, s: State, step: Step)
    requires Good(c, s) && Enabled(c, s, step) && Prompt(s, step)
    ensures Good(c, Do(c, s, step))
  {
    SafeShape(c, s);
    StepSafe(c, s, step);
    StepAccounts(c, s, step);
    StepLedger(c, s, step);
  }

  /** Snapshot by snapshot the condition is exact, too: any other late selector breaks the agreement, at once. */
  lemma LateSelectorExact(c: Config, s: State, x: Snapshot)
    requires Good(c, s) && Enabled(c, s, Deliver(SelectorWrite(x)))
    ensures Ledger(Do(c, s, Deliver(SelectorWrite(x)))) <==> Prompt(s, Deliver(SelectorWrite(x)))
  {
    var s' := Do(c, s, Deliver(SelectorWrite(x)));
    if Prompt(s, Deliver(SelectorWrite(x))) {
      DeliverLedger(c, s, SelectorWrite(x));
    } else {
      assert At(s'.sink.selected, x.start) == Some(x);
    }
  }

  /** A run whose selector deliveries are all prompt. */
  ghost predicate PromptRun(c: Config, s: State, steps: seq<Step>, to: State)
    decreases |steps|
  {
    if steps == [] then s == to
    else Enabled(c, s, steps[0]) && Prompt(s, steps[0]) && PromptRun(c, Do(c, s, steps[0]), steps[1..], to)
  }

  lemma {:induction false} RunGood(c: Config, s: State, steps: seq<Step>, to: State)
    requires Good(c, s) && PromptRun(c, s, steps, to)
    ensures Good(c, to) && Runs(c, s, steps, to)
    decreases |steps|
  {
    if steps != [] {
      StepGood(c, s, steps[0]);
      RunGood(c, Do(c, s, steps[0]), steps[1..], to);
    }
  }

  lemma InitGood(c: Config)
    requires ValidConfig(c)
    ensures Good(c, Init(c))
  {
    InitSafe(c);
    InitAccounts(c);
  }

  lemma PromptIsHarmless(s: State, x: Snapshot)
    requires Accounts(s) && Prompt(s, Deliver(SelectorWrite(x)))
    ensures Harmless(s, x)
  {
    if s.pending != Some(x) {
      assert x.start in Recorded(s) && Recorded(s)[x.start] == x;
    }
  }

  lemma {:induction false} PromptRunIsHarmless(c: Config, s: State, steps: seq<Step>, to: State)
    requires Good(c, s) && PromptRun(c, s, steps, to)
    ensures HarmlessRun(c, s, steps, to)
    decreases |steps|
  {
    if steps != [] {
      if steps[0].Deliver? && steps[0].write.SelectorWrite? { PromptIsHarmless(s, steps[0].write.origin); }
      StepGood(c, s, steps[0]);
      PromptRunIsHarmless(c, Do(c, s, steps[0]), steps[1..], to);
    }
  }

  /** Over every prompt run, selectors name the recorded snapshots themselves; only the hour of a pending
      snapshot may already name the pending one. */
  lemma PendingAgreement(c: Config, steps: seq<Step>, s: State, t: nat)
    requires ValidConfig(c) && PromptRun(c, Init(c), steps, s)
    ensures At(s.sink.selected, t) == At(Recorded(s), t) || (HourPending(s, t) && At(s.sink.selected, t) == s.pending)
    ensures s.pending.Some? ==> s.durable.Some? && s.pending.value.start in s.durable.value.status.intervals
  {
    InitGood(c);
    RunGood(c, Init(c), steps, s);
    SafeShape(c, s);
  }

  /** Prompt runs are harmless, so what holds of harmless runs holds of them. */
  lemma PromptRunsAgree(c: Config, steps: seq<Step>, s: State, t: nat)
    requires ValidConfig(c) && PromptRun(c, Init(c), steps, s)
    ensures HarmlessRun(c, Init(c), steps, s) && CheckpointHolds(s, t) && GapsHold(s)
  {
    InitGood(c);
    PromptRunIsHarmless(c, Init(c), steps, s);
    InitFlags(c);
    RunFlags(c, Init(c), steps, s);
    FlagsHold(c, s, t);
  }
}
