/** What the durable status says about the past, in every run: its flags, the count of expired gaps, and the
    hour from which that count runs. Nothing here depends on what the sink does. */
module CollectorLedger {
  import opened Common
  import opened Schedule
  import opened Publication
  import opened CollectorMachine
  import opened CollectorSafety

  function At(m: map<nat, Snapshot>, t: nat): Option<Snapshot> {
    if t in m then Some(m[t]) else None
  }

  /** Hours whose snapshot had every source collected. */
  function Resolved(m: map<nat, Snapshot>): set<nat> {
    set t | t in m.Keys && IsCollected(m[t])
  }

  /** The snapshots that the durable status was recorded from. */
  function Recorded(s: State): map<nat, Snapshot> {
    if s.durable.Some? then s.durable.value.recorded else map[]
  }

  /** The flags and the gap counter of a book are those of its recorded snapshots; the cursor is a past hour. */
  ghost predicate Faithful(b: Book) {
    && (forall t :: t in b.recorded ==> Aligned(t) && t < b.end)
    && (b.status.cursor.Some? ==> b.status.cursor.value < b.end)
    && (forall t :: t in b.status.intervals ==> (b.status.intervals[t] <==> t in Resolved(b.recorded)))
    && (b.start < b.end ==> b.status.expiredGaps == |Unresolved(Resolved(b.recorded), b.origin, b.start)|)
    && (b.start == b.end ==> b.status.expiredGaps == 0 && b.recorded == map[])
  }

  /** The volatile and the durable status differ at most by the pending snapshot. */
  ghost predicate SameRecords(s: State) {
    match s.pending
    case None => s.volatile.recorded == Recorded(s) && (s.durable.Some? ==> s.volatile.status.cursor == s.durable.value.status.cursor)
    case Some(x) => s.volatile.recorded[x.start := x] == Recorded(s)[x.start := x]
  }

  /** The volatile status has recorded the pending snapshot. */
  predicate HasCommitted(s: State) {
    s.pending.Some? && (s.pc.Committing? || s.pc.Removing?)
  }

  ghost predicate Accounts(s: State) {
    && (!s.pc.Down? ==> Faithful(s.volatile) && SameRecords(s))
    && (s.durable.Some? ==> Faithful(s.durable.value))
    && (HasCommitted(s) ==>
          && At(s.volatile.recorded, s.pending.value.start) == s.pending
          && s.volatile.status.cursor == Some(s.pending.value.start))
  }

  /*** Books ***/

  lemma ResolvedUpdate(m: map<nat, Snapshot>, x: Snapshot)
    ensures Resolved(m[x.start := x]) == (if IsCollected(x) then Resolved(m) + {x.start} else Resolved(m) - {x.start})
  {
  }

  lemma UnresolvedUpdate(m: map<nat, Snapshot>, x: Snapshot, from: nat, to: nat)
    requires to <= x.start
    ensures Unresolved(Resolved(m[x.start := x]), from, to) == Unresolved(Resolved(m), from, to)
  {
    ResolvedUpdate(m, x);
  }

  lemma FlagsUpdate(intervals: map<nat, bool>, m: map<nat, Snapshot>, x: Snapshot)
    requires forall t :: t in intervals ==> (intervals[t] <==> t in Resolved(m))
    ensures var intervals' := intervals[x.start := IsCollected(x)];
            forall t :: t in intervals' ==> (intervals'[t] <==> t in Resolved(m[x.start := x]))
  {
    ResolvedUpdate(m, x);
  }

  lemma FlagFaithful(b: Book, b': Book, x: Snapshot)
    requires Faithful(b) && b.start <= x.start < b.end && Aligned(x.start)
    requires b'.start == b.start && b'.end == b.end && b'.origin == b.origin
    requires b'.recorded == b.recorded[x.start := x]
    requires b'.status.intervals == b.status.intervals[x.start := IsCollected(x)]
    requires b'.status.expiredGaps == b.status.expiredGaps && b'.status.cursor == Some(x.start)
    ensures Faithful(b')
  {
    UnresolvedUpdate(b.recorded, x, b.origin, b.start);
    FlagsUpdate(b.status.intervals, b.recorded, x);
  }

  lemma CommitFaithful(c: Config, clock: nat, b: Book, x: Snapshot)
    requires ValidConfig(c) && BookOk(c, clock, b) && Faithful(b) && x.start in b.status.intervals
    ensures Faithful(CommitBook(b, x))
  {
    CommitKeepsBook(c, clock, b, x);
    FlagFaithful(b, CommitBook(b, x), x);
  }

  lemma ScheduleFaithful(c: Config, clock: nat, now: nat, b: Book)
    requires ValidConfig(c) && BookOk(c, clock, b) && Faithful(b) && clock <= now <= U64_MAX
    ensures Faithful(ScheduleBook(c, now, b))
  {
    WindowShape(c.settings, now);
    WindowMonotone(c.settings, clock, now);
    assert Resolved(map[]) == {};
    if b.start < b.end {
      GridLast(b.start, b.end);
      assert b.status.intervals != map[];
      ScheduleConservesGaps(c.settings, now, b.status, Resolved(b.recorded), b.origin, b.start, b.end);
    } else {
      assert Grid(b.start, b.end) == {};
      assert b.status.intervals == map[];
      FirstScheduleTracks(c.settings, now, b.status, Resolved(b.recorded));
      assert Unresolved({}, 0, 0) == {};
    }
  }

  /** Fields other than flags and counter have no bearing. */
  lemma SameFaithful(a: Book, b: Book)
    requires Faithful(a) && b == a.(status := b.status)
    requires b.status.intervals == a.status.intervals && b.status.expiredGaps == a.status.expiredGaps
    requires b.status.cursor == a.status.cursor
    ensures Faithful(b)
  {
  }

  /*** Steps ***/

  lemma InitAccounts(c: Config)
    ensures Accounts(Init(c))
  {
  }

  lemma FreshFaithful(c: Config)
    ensures Faithful(FreshBook(c))
  {
  }

  /** The accounts of a worker that comes up, or fails to, with a faithful book. */
  lemma LoadedAccounts(s: State, b: Book, durable: Option<Book>, pc: Pc)
    requires s.pc.Down? && Faithful(b) && (durable.Some? ==> durable.value == b) && b.recorded == Recorded(s)
    requires (s.durable.Some? ==> durable == s.durable) && (durable.None? ==> b.recorded == map[])
    requires pc.Down? || (pc.Idle? && durable.Some?)
    ensures Accounts(s.(volatile := b, durable := durable, pc := pc))
  {
  }

  lemma RestartAccounts(c: Config, s: State, disk: Disk)
    requires Accounts(s) && s.pc.Down?
    ensures Accounts(DoRestart(c, s, disk))
  {
    var s' := DoRestart(c, s, disk);
    FreshFaithful(c);
    if s' != s { LoadedAccounts(s, s'.volatile, s'.durable, s'.pc); }
  }

  /** Steps that change neither file nor status. */
  lemma QuietAccounts(s: State, s': State)
    requires Accounts(s) && s'.volatile == s.volatile && s'.durable == s.durable && s'.pending == s.pending
    requires s'.pc.Down? || (!s.pc.Down? && (HasCommitted(s') ==> HasCommitted(s)))
    ensures Accounts(s')
  {
  }

  lemma CommitAccounts(s: State, sink: Sink, b: Book, x: Snapshot, next: Next)
    requires Accounts(s) && !s.pc.Down? && s.pending == Some(x) && Faithful(b)
    requires b.recorded == s.volatile.recorded[x.start := x] && b.status.cursor == Some(x.start)
    ensures Accounts(s.(sink := sink, volatile := b, pc := Committing(next)))
  {
    assert b.recorded[x.start := x] == b.recorded;
  }

  lemma AcknowledgeAccounts(c: Config, s: State)
    requires ValidConfig(c) && Shape(c, s) && Accounts(s) && Sending(s)
    ensures Accounts(DoAcknowledge(s))
  {
    var x := s.pending.value;
    if s.pc.sent >= |Batches(x)| {
      CommitFaithful(c, s.clock, s.volatile, x);
      CommitAccounts(s, ApplyWrite(s.sink, SelectorWrite(x)), CommitBook(s.volatile, x), x, s.pc.next);
    }
  }

  lemma WriteFailsAccounts(c: Config, s: State, partial: set<Record>, applied: bool, delayed: bool)
    requires Shape(c, s) && Accounts(s) && Sending(s)
    ensures Accounts(DoWriteFails(s, partial, applied, delayed))
  {
    SameFaithful(s.volatile, DoWriteFails(s, partial, applied, delayed).volatile);
  }

  /** Storing the volatile status. */
  lemma StoredAccounts(s: State, pc: Pc)
    requires Accounts(s) && !s.pc.Down? && !pc.Down?
    requires pc.Committing? || pc.Removing? ==> s.pc.Committing? || s.pc.Removing?
    ensures Accounts(s.(durable := Some(s.volatile), pc := pc))
  {
  }

  lemma SaveEffect(s: State, disk: Disk)
    requires s.pc.Committing? || s.pc.Scheduled? || s.pc.Captured?
    ensures var s' := DoSave(s, disk);
            && s' == s.(pc := s'.pc, durable := if disk == Lost then s.durable else Some(s.volatile))
            && !s'.pc.Down? && !s'.pc.Committing? && (s'.pc.Removing? ==> s.pc.Committing?)
  {
  }

  lemma SaveAccounts(s: State, disk: Disk)
    requires Accounts(s) && (s.pc.Committing? || s.pc.Scheduled? || s.pc.Captured?)
    ensures Accounts(DoSave(s, disk))
  {
    SaveEffect(s, disk);
    var s' := DoSave(s, disk);
    if disk == Lost {
      QuietAccounts(s, s');
    } else {
      StoredAccounts(s, s'.pc);
    }
  }

  lemma ClearedAccounts(s: State, pc: Pc)
    requires Accounts(s) && HasCommitted(s) && s.durable == Some(s.volatile) && !pc.Down?
    ensures Accounts(s.(pending := None, pc := pc))
  {
  }

  lemma RemoveAccounts(c: Config, s: State, disk: Disk)
    requires Accounts(s) && s.pc.Removing? && s.pending.Some? && s.durable == Some(s.volatile)
    ensures Accounts(DoRemove(s, disk))
  {
    var s' := DoRemove(s, disk);
    if disk == Lost {
      QuietAccounts(s, s');
    } else {
      ClearedAccounts(s, s'.pc);
    }
  }

  lemma ScheduleAccounts(c: Config, s: State, now: nat)
    requires ValidConfig(c) && Shape(c, s) && Accounts(s) && Enabled(c, s, CallSchedule(now))
    ensures Accounts(Do(c, s, CallSchedule(now)))
  {
    ScheduleFaithful(c, s.clock, now, s.volatile);
  }

  lemma PendingAccounts(s: State, x: Snapshot, pc: Pc, status: Status)
    requires Accounts(s) && !s.pc.Down? && s.pending.None? && !pc.Down? && !pc.Committing? && !pc.Removing?
    requires Faithful(s.volatile.(status := status))
    ensures Accounts(s.(pending := Some(x), pc := pc, volatile := s.volatile.(status := status)))
  {
  }

  lemma CollectAccounts(c: Config, s: State, result: Option<Snapshot>, disk: Disk)
    requires Shape(c, s) && Accounts(s) && s.pc.Collecting? && s.pc.todo != []
    ensures Accounts(DoCollect(s, result, disk))
  {
    var s' := DoCollect(s, result, disk);
    SameFaithful(s.volatile, s'.volatile);
    if s'.pending.Some? {
      PendingAccounts(s, result.value, s'.pc, s'.volatile.status);
    } else {
      QuietAccounts(s, s');
    }
  }

  lemma ReportAccounts(s: State, now: nat, error: Option<string>, disk: Disk)
    requires Accounts(s) && s.pc.Idle?
    ensures Accounts(DoReport(s, now, error, disk))
  {
    SameFaithful(s.volatile, DoReport(s, now, error, disk).volatile);
  }

  predicate Quiet(step: Step) {
    step.Crash? || step.BeginCycle? || step.EndCycle? || step.Deliver?
  }

  lemma QuietEffect(c: Config, s: State, step: Step)
    requires Enabled(c, s, step) && Quiet(step)
    ensures var s' := Do(c, s, step);
            && s'.volatile == s.volatile && s'.durable == s.durable && s'.pending == s.pending
            && (s'.pc == s.pc || s'.pc.Down? || (!s.pc.Down? && !s'.pc.Committing? && !s'.pc.Removing?))
  {
  }

  lemma QuietStep(c: Config, s: State, step: Step)
    requires Accounts(s) && Enabled(c, s, step) && Quiet(step)
    ensures Accounts(Do(c, s, step))
  {
    QuietEffect(c, s, step);
    QuietAccounts(s, Do(c, s, step));
  }

  /** Every step of every run keeps the accounts; late deliveries do not touch them. */
  lemma StepAccounts(c: Config, s: State, step: Step)
    requires ValidConfig(c) && Shape(c, s) && Accounts(s) && Enabled(c, s, step)
    ensures Accounts(Do(c, s, step))
  {
    match step
    case Restart(disk) => RestartAccounts(c, s, disk);
    case Acknowledge => AcknowledgeAccounts(c, s);
    case WriteFails(partial, applied, delayed) => WriteFailsAccounts(c, s, partial, applied, delayed);
    case Save(disk) => SaveAccounts(s, disk);
    case Remove(disk) => RemoveAccounts(c, s, disk);
    case CallSchedule(now) => ScheduleAccounts(c, s, now);
    case Collect(result, disk) => CollectAccounts(c, s, result, disk);
    case Report(now, error, disk) => ReportAccounts(s, now, error, disk);
    case _ => QuietStep(c, s, step);
  }

  lemma {:induction false} RunAccounts(c: Config, s: State, steps: seq<Step>, to: State)
    requires ValidConfig(c) && Safe(c, s) && Accounts(s) && Runs(c, s, steps, to)
    ensures Safe(c, to) && Accounts(to)
    decreases |steps|
  {
    if steps != [] {
      StepSafe(c, s, steps[0]);
      SafeShape(c, s);
      StepAccounts(c, s, steps[0]);
      RunAccounts(c, Do(c, s, steps[0]), steps[1..], to);
    }
  }

  /** Every reachable state is safe and keeps the accounts. */
  lemma Reachable(c: Config, steps: seq<Step>, s: State)
    requires ValidConfig(c) && Runs(c, Init(c), steps, s)
    ensures Safe(c, s) && Accounts(s)
  {
    InitSafe(c);
    InitAccounts(c);
    RunAccounts(c, Init(c), steps, s);
  }

  /*** Flags over a whole run ***/

  /** The flag of an hour in the stored status or, once the hour has left it, the flag it had then. Hours that
      were never stored count as not collected. */
  predicate FlagSeen(s: State, t: nat, seen: bool) {
    if s.durable.Some? && t in s.durable.value.status.intervals then s.durable.value.status.intervals[t] else seen
  }

  /** The last flag that any stored status of the run shows for hour `t`. */
  ghost predicate LastFlag(c: Config, s: State, steps: seq<Step>, to: State, t: nat, seen: bool)
    requires Runs(c, s, steps, to)
    decreases |steps|
  {
    if steps == [] then FlagSeen(s, t, seen)
    else LastFlag(c, Do(c, s, steps[0]), steps[1..], to, t, FlagSeen(s, t, seen))
  }

  /** A step moves the stored status not at all or to the volatile one. */
  lemma StepStores(c: Config, s: State, step: Step)
    requires Enabled(c, s, step) && !step.Restart?
    ensures var s' := Do(c, s, step);
            || s'.durable == s.durable
            || (s'.durable == Some(s'.volatile) && s'.volatile.recorded == s.volatile.recorded
                && s'.volatile.status.intervals == s.volatile.status.intervals && !s.pc.Down?)
  {
    match step
    case Crash =>
    case BeginCycle =>
    case Acknowledge =>
    case WriteFails(_, _, _) =>
    case Save(_) =>
    case Remove(_) =>
    case CallSchedule(_) =>
    case Collect(_, _) =>
    case EndCycle =>
    case Report(_, _, _) =>
    case Deliver(_) =>
  }

  /** Only a commit and the scheduler change hours. */
  lemma StepKeepsHours(c: Config, s: State, step: Step)
    requires Enabled(c, s, step) && !step.Restart? && !step.Acknowledge? && !step.CallSchedule?
    ensures var s' := Do(c, s, step);
            && s'.volatile.origin == s.volatile.origin && s'.volatile.status.intervals == s.volatile.status.intervals
            && (s.pc.Down? ==> s'.pc.Down?)
  {
    if Quiet(step) { QuietEffect(c, s, step); }
  }

  lemma RestartStores(c: Config, s: State, disk: Disk)
    requires s.pc.Down?
    ensures Recorded(DoRestart(c, s, disk)) == Recorded(s)
    ensures s.durable.Some? ==> DoRestart(c, s, disk).durable == s.durable
  {
  }

  lemma SameExceptPending(a: map<nat, Snapshot>, b: map<nat, Snapshot>, x: Snapshot, t: nat)
    requires a[x.start := x] == b[x.start := x] && t != x.start
    ensures At(a, t) == At(b, t)
  {
    assert t in a <==> t in a[x.start := x];
    assert t in b <==> t in b[x.start := x];
  }

  /** An hour that is not in the stored status keeps what was recorded of it. */
  lemma StepRecorded(c: Config, s: State, step: Step, t: nat)
    requires ValidConfig(c) && Shape(c, s) && Accounts(s) && Enabled(c, s, step)
    requires var d := Do(c, s, step).durable; d.None? || t !in d.value.status.intervals
    ensures At(Recorded(Do(c, s, step)), t) == At(Recorded(s), t)
  {
    if step.Restart? {
      RestartStores(c, s, step.disk);
    } else {
      StepStores(c, s, step);
      if Do(c, s, step).durable != s.durable && s.pending.Some? {
        SameExceptPending(s.volatile.recorded, Recorded(s), s.pending.value, t);
      }
    }
  }

  /** What was seen of an hour that is not stored is what is recorded of it. */
  ghost predicate SeenOk(s: State, t: nat, seen: bool) {
    s.durable.None? || t !in s.durable.value.status.intervals ==> (seen <==> t in Resolved(Recorded(s)))
  }

  lemma StepSeen(c: Config, s: State, step: Step, t: nat, seen: bool)
    requires ValidConfig(c) && Shape(c, s) && Accounts(s) && Enabled(c, s, step) && SeenOk(s, t, seen)
    ensures SeenOk(Do(c, s, step), t, FlagSeen(s, t, seen))
  {
    var s' := Do(c, s, step);
    FlagSeenIsRecorded(s, t, seen);
    if s'.durable.None? || t !in s'.durable.value.status.intervals {
      StepRecorded(c, s, step, t);
      assert At(Recorded(s'), t) == At(Recorded(s), t);
    }
  }

  lemma FlagSeenIsRecorded(s: State, t: nat, seen: bool)
    requires Accounts(s) && SeenOk(s, t, seen)
    ensures FlagSeen(s, t, seen) <==> t in Resolved(Recorded(s))
  {
  }

  lemma {:induction false} LastFlagIsRecorded(c: Config, s: State, steps: seq<Step>, to: State, t: nat, seen: bool)
    requires ValidConfig(c) && Safe(c, s) && Accounts(s) && Runs(c, s, steps, to)
    requires SeenOk(s, t, seen)
    ensures LastFlag(c, s, steps, to, t, seen) <==> t in Resolved(Recorded(to))
    decreases |steps|
  {
    FlagSeenIsRecorded(s, t, seen);
    if steps != [] {
      SafeShape(c, s);
      StepSeen(c, s, steps[0], t, seen);
      StepSafe(c, s, steps[0]);
      StepAccounts(c, s, steps[0]);
      LastFlagIsRecorded(c, Do(c, s, steps[0]), steps[1..], to, t, FlagSeen(s, t, seen));
    }
  }

  /** The hours of a span whose last stored flag was not set. */
  ghost function Unflagged(c: Config, s: State, steps: seq<Step>, to: State, from: nat, end: nat): set<nat>
    requires Runs(c, s, steps, to)
  {
    set t | t in Grid(from, end) && !LastFlag(c, s, steps, to, t, false)
  }

  /*** The hour from which gaps count ***/

  predicate HasHours(b: Option<Book>) {
    b.Some? && b.value.status.intervals != map[]
  }

  /** The start of the first nonempty window that was scheduled since the last start of a worker on a
      status without hours. */
  ghost function Opened(c: Config, s: State, steps: seq<Step>, to: State, first: Option<nat>): Option<nat>
    requires Runs(c, s, steps, to)
    decreases |steps|
  {
    if steps == [] then first
    else Opened(c, Do(c, s, steps[0]), steps[1..], to, StillOpened(c, s, steps[0], first))
  }

  predicate OpensWindow(c: Config, step: Step) {
    step.CallSchedule? && WindowEnd(c.settings, step.now) > 0
  }

  function StillOpened(c: Config, s: State, step: Step, first: Option<nat>): Option<nat> {
    if step.Restart? && !HasHours(s.durable) then None
    else if first.None? && OpensWindow(c, step) then Some(WindowStart(c.settings, step.now))
    else first
  }

  lemma HoursIff(c: Config, clock: nat, b: Book)
    requires BookOk(c, clock, b)
    ensures HasHours(Some(b)) <==> b.start < b.end
  {
    if b.start < b.end {
      GridLast(b.start, b.end);
      assert b.status.intervals.Keys != {};
    } else {
      assert Grid(b.start, b.end) == {};
    }
  }

  /** The origin of a book with hours is the opened window; a book without hours has none. */
  ghost predicate OriginIs(b: Book, first: Option<nat>) {
    if HasHours(Some(b)) then first == Some(b.origin) else first.None?
  }

  ghost predicate OriginKept(s: State, first: Option<nat>) {
    && (!s.pc.Down? ==> OriginIs(s.volatile, first))
    && (HasHours(s.durable) ==> first == Some(s.durable.value.origin))
  }

  lemma ScheduleOrigin(c: Config, clock: nat, now: nat, b: Book, first: Option<nat>)
    requires ValidConfig(c) && BookOk(c, clock, b) && clock <= now && OriginIs(b, first)
    ensures OriginIs(ScheduleBook(c, now, b),
                     if first.None? && WindowEnd(c.settings, now) > 0 then Some(WindowStart(c.settings, now)) else first)
  {
    var b' := ScheduleBook(c, now, b);
    WindowShape(c.settings, now);
    WindowMonotone(c.settings, clock, now);
    ScheduleKeepsBook(c, clock, now, b);
    HoursIff(c, clock, b);
    HoursIff(c, now, b');
  }

  lemma CommitOrigin(c: Config, clock: nat, b: Book, x: Snapshot, first: Option<nat>)
    requires ValidConfig(c) && BookOk(c, clock, b) && x.start in b.status.intervals && OriginIs(b, first)
    ensures OriginIs(CommitBook(b, x), first)
  {
    CommitKeepsBook(c, clock, b, x);
    HoursIff(c, clock, b);
    HoursIff(c, clock, CommitBook(b, x));
  }

  lemma RestartOrigin(c: Config, s: State, disk: Disk, first: Option<nat>)
    requires s.pc.Down? && OriginKept(s, first)
    ensures OriginKept(DoRestart(c, s, disk), if HasHours(s.durable) then first else None)
  {
  }

  /** Steps that keep the volatile window and store at most the volatile status. */
  lemma QuietOrigin(s: State, s': State, first: Option<nat>)
    requires OriginKept(s, first) && (s'.durable == s.durable || (s'.durable == Some(s'.volatile) && !s.pc.Down?))
    requires !s.pc.Down? || s'.pc.Down?
    requires s'.volatile.origin == s.volatile.origin && s'.volatile.status.intervals == s.volatile.status.intervals
    ensures OriginKept(s', first)
  {
  }

  lemma AcknowledgeOrigin(c: Config, s: State, first: Option<nat>)
    requires ValidConfig(c) && Shape(c, s) && OriginKept(s, first) && Sending(s)
    ensures OriginKept(DoAcknowledge(s), first)
  {
    if s.pc.sent >= |Batches(s.pending.value)| {
      CommitOrigin(c, s.clock, s.volatile, s.pending.value, first);
    } else {
      QuietOrigin(s, DoAcknowledge(s), first);
    }
  }

  lemma ScheduleStepOrigin(c: Config, s: State, now: nat, first: Option<nat>)
    requires ValidConfig(c) && Shape(c, s) && OriginKept(s, first) && Enabled(c, s, CallSchedule(now))
    ensures OriginKept(Do(c, s, CallSchedule(now)), StillOpened(c, s, CallSchedule(now), first))
  {
    ScheduleOrigin(c, s.clock, now, s.volatile, first);
    assert s.durable.Some? && HasHours(s.durable) ==> first.Some?;
  }

  lemma StepOrigin(c: Config, s: State, step: Step, first: Option<nat>)
    requires ValidConfig(c) && Shape(c, s) && OriginKept(s, first) && Enabled(c, s, step)
    ensures OriginKept(Do(c, s, step), StillOpened(c, s, step, first))
  {
    match step
    case Restart(disk) => RestartOrigin(c, s, disk, first);
    case Acknowledge => AcknowledgeOrigin(c, s, first);
    case CallSchedule(now) => ScheduleStepOrigin(c, s, now, first);
    case _ =>
      StepStores(c, s, step);
      StepKeepsHours(c, s, step);
      QuietOrigin(s, Do(c, s, step), first);
  }

  lemma {:induction false} RunOrigin(c: Config, s: State, steps: seq<Step>, to: State, first: Option<nat>)
    requires ValidConfig(c) && Safe(c, s) && OriginKept(s, first) && Runs(c, s, steps, to)
    ensures OriginKept(to, Opened(c, s, steps, to, first))
    decreases |steps|
  {
    if steps != [] {
      StepSafe(c, s, steps[0]);
      SafeShape(c, s);
      StepOrigin(c, s, steps[0], first);
      RunOrigin(c, Do(c, s, steps[0]), steps[1..], to, StillOpened(c, s, steps[0], first));
    }
  }

  lemma StepHours(c: Config, s: State, step: Step, first: Option<nat>)
    requires ValidConfig(c) && Shape(c, s) && OriginKept(s, first) && Enabled(c, s, step) && HasHours(s.durable)
    ensures HasHours(Do(c, s, step).durable) && StillOpened(c, s, step, first) == first
  {
    if step.Restart? {
      RestartStores(c, s, step.disk);
    } else {
      StepStores(c, s, step);
    }
  }

  lemma {:induction false} RunKeepsOrigin(c: Config, s: State, steps: seq<Step>, to: State, first: Option<nat>)
    requires ValidConfig(c) && Safe(c, s) && OriginKept(s, first) && Runs(c, s, steps, to) && HasHours(s.durable)
    ensures HasHours(to.durable) && to.durable.value.origin == s.durable.value.origin
    decreases |steps|
  {
    if steps != [] {
      StepSafe(c, s, steps[0]);
      SafeShape(c, s);
      StepOrigin(c, s, steps[0], first);
      StepHours(c, s, steps[0], first);
      RunKeepsOrigin(c, Do(c, s, steps[0]), steps[1..], to, first);
    }
  }

  /*** Results over whole runs ***/

  /** The origin of the stored status is the start of the first nonempty window. */
  lemma OriginOpened(c: Config, steps: seq<Step>, s: State)
    requires ValidConfig(c) && Runs(c, Init(c), steps, s) && HasHours(s.durable)
    ensures Opened(c, Init(c), steps, s, None) == Some(s.durable.value.origin)
  {
    InitSafe(c);
    RunOrigin(c, Init(c), steps, s, None);
  }

  /** Once a stored status has hours, no later step moves its origin. */
  lemma OriginFixed(c: Config, before: seq<Step>, s: State, steps: seq<Step>, to: State)
    requires ValidConfig(c) && Runs(c, Init(c), before, s) && HasHours(s.durable) && Runs(c, s, steps, to)
    ensures HasHours(to.durable) && to.durable.value.origin == s.durable.value.origin
  {
    InitSafe(c);
    RunOrigin(c, Init(c), before, s, None);
    RunSafe(c, Init(c), before, s);
    RunKeepsOrigin(c, s, steps, to, Opened(c, Init(c), before, s, None));
  }

  /** Gap conservation, in every run and in terms of the stored status alone: its counter is the number of
      hours from the first nonempty window to the current one whose flag was not set when it was
      last stored. Hours that an outage skipped count, and each hour counts once. */
  lemma GapConservation(c: Config, steps: seq<Step>, s: State)
    requires ValidConfig(c) && Runs(c, Init(c), steps, s) && HasHours(s.durable)
    ensures var first := Opened(c, Init(c), steps, s, None);
            && first.Some?
            && s.durable.value.status.expiredGaps
               == |Unflagged(c, Init(c), steps, s, first.value, FirstKey(s.durable.value.status.intervals.Keys))|
  {
    var b := s.durable.value;
    GapsRecorded(c, steps, s);
    OriginOpened(c, steps, s);
    UnflaggedIsUnresolved(c, steps, s, b.origin, b.start);
  }

  /** The same, in terms of the snapshots recorded last. */
  lemma GapsRecorded(c: Config, steps: seq<Step>, s: State)
    requires ValidConfig(c) && Runs(c, Init(c), steps, s) && HasHours(s.durable)
    ensures var b := s.durable.value;
            && b.start == FirstKey(b.status.intervals.Keys)
            && b.status.expiredGaps == |Unresolved(Resolved(b.recorded), b.origin, b.start)|
  {
    Reachable(c, steps, s);
    var b := s.durable.value;
    HoursIff(c, s.clock, b);
    GridFirst(b.start, b.end);
  }

  lemma UnflaggedIsUnresolved(c: Config, steps: seq<Step>, s: State, from: nat, end: nat)
    requires ValidConfig(c) && Runs(c, Init(c), steps, s) && s.durable.Some?
    ensures Unflagged(c, Init(c), steps, s, from, end) == Unresolved(Resolved(s.durable.value.recorded), from, end)
  {
    forall t ensures LastFlag(c, Init(c), steps, s, t, false) <==> t in Resolved(s.durable.value.recorded) {
      FlagsRecorded(c, steps, s, t);
    }
  }

  lemma GridFirst(start: nat, end: nat)
    requires Aligned(start) && start < end
    ensures Grid(start, end) != {} && FirstKey(Grid(start, end)) == start
  {
    assert start in Grid(start, end);
  }

  /** In every run the stored flags are those of the snapshots recorded last. */
  lemma FlagsRecorded(c: Config, steps: seq<Step>, s: State, t: nat)
    requires ValidConfig(c) && Runs(c, Init(c), steps, s) && s.durable.Some?
    ensures LastFlag(c, Init(c), steps, s, t, false) <==> t in Resolved(s.durable.value.recorded)
    ensures t in s.durable.value.status.intervals ==>
              (s.durable.value.status.intervals[t] <==> t in Resolved(s.durable.value.recorded))
  {
    Reachable(c, steps, s);
    InitSafe(c);
    InitAccounts(c);
    LastFlagIsRecorded(c, Init(c), steps, s, t, false);
  }

  /** The counter fits the machine word it is kept in. */
  lemma GapsFit(c: Config, steps: seq<Step>, s: State)
    requires ValidConfig(c) && Runs(c, Init(c), steps, s) && s.durable.Some?
    ensures s.durable.value.status.expiredGaps * HOUR <= s.durable.value.start
  {
    Reachable(c, steps, s);
    var b := s.durable.value;
    GridCount(b.origin, b.start);
    SubsetCount(Unresolved(Resolved(b.recorded), b.origin, b.start), Grid(b.origin, b.start));
  }
}
