/** What the status tells an operator, beside flags and gaps: the latest published hour, the latest collected one,
    the state of the sink, the lag, and what a start of the worker accepts. */
module CollectorStatus {
  import opened Common
  import opened Schedule
  import opened Publication
  import opened PublicationPoints
  import opened CollectorMachine
  import opened CollectorSafety
  import opened CollectorLedger

  /*** The latest hours ***/

  /** The greatest of a set of hours, if there is any. */
  ghost predicate IsLatest(hours: set<nat>, latest: Option<nat>) {
    if latest.None? then hours == {} else latest.value in hours && forall t :: t in hours ==> t <= latest.value
  }

  /** The last published hour is the latest one recorded, and no resolved hour is later than the last collected one. */
  ghost predicate LatestOk(b: Book) {
    && IsLatest(b.recorded.Keys, b.status.lastPublished)
    && forall t :: t in Resolved(b.recorded) ==> b.status.lastCollected.Some? && t <= b.status.lastCollected.value
  }

  ghost predicate StatusOk(s: State) {
    (!s.pc.Down? ==> LatestOk(s.volatile)) && (s.durable.Some? ==> LatestOk(s.durable.value))
  }

  lemma FreshLatest(c: Config)
    ensures LatestOk(FreshBook(c))
  {
  }

  lemma CommitLatest(b: Book, x: Snapshot)
    requires LatestOk(b)
    ensures LatestOk(CommitBook(b, x))
  {
    var st' := CommitBook(b, x).status;
    CommitFields(b.status, x.start, IsCollected(x), |Lines(x)|);
    ResolvedUpdate(b.recorded, x);
    assert CommitBook(b, x).recorded.Keys == b.recorded.Keys + {x.start};
    LatestAdd(b.recorded.Keys, b.status.lastPublished, x.start, st'.lastPublished);
  }

  lemma LatestAdd(hours: set<nat>, before: Option<nat>, hour: nat, after: Option<nat>)
    requires IsLatest(hours, before) && Latest(before, hour, after)
    ensures IsLatest(hours + {hour}, after)
  {
  }

  /** Only the commit touches them, and the note of a collection, which can only raise the last collected hour. */
  lemma SameLatest(a: Book, b: Book)
    requires LatestOk(a) && b.recorded == a.recorded && b.status.lastPublished == a.status.lastPublished
    requires b.status.lastCollected == a.status.lastCollected
          || (b.status.lastCollected.Some? && (a.status.lastCollected.Some? ==> a.status.lastCollected.value <= b.status.lastCollected.value))
    ensures LatestOk(b)
  {
  }

  lemma AcknowledgeLatest(s: State)
    requires StatusOk(s) && Sending(s)
    ensures StatusOk(DoAcknowledge(s))
  {
    if s.pc.sent >= |Batches(s.pending.value)| { CommitLatest(s.volatile, s.pending.value); }
  }

  lemma RestartLatest(c: Config, s: State, disk: Disk)
    requires StatusOk(s) && s.pc.Down?
    ensures StatusOk(DoRestart(c, s, disk))
  {
    FreshLatest(c);
  }

  lemma OtherLatest(s: State, s': State)
    requires StatusOk(s) && (s'.pc.Down? || !s.pc.Down?) && (LatestOk(s.volatile) ==> LatestOk(s'.volatile))
    requires (s'.durable == s.durable || (s'.durable == Some(s'.volatile) && !s.pc.Down?))
    ensures StatusOk(s')
  {
  }

  lemma StepLatest(c: Config, s: State, step: Step)
    requires StatusOk(s) && Enabled(c, s, step)
    ensures StatusOk(Do(c, s, step))
  {
    var s' := Do(c, s, step);
    match step
    case Restart(disk) => RestartLatest(c, s, disk);
    case Acknowledge => AcknowledgeLatest(s);
    case _ =>
      StepStores(c, s, step);
      StepFields(c, s, step);
      if LatestOk(s.volatile) { SameLatest(s.volatile, s'.volatile); }
      OtherLatest(s, s');
  }

  lemma StepFields(c: Config, s: State, step: Step)
    requires Enabled(c, s, step) && !step.Restart? && !step.Acknowledge?
    ensures var v, v' := s.volatile, Do(c, s, step).volatile;
            && v'.recorded == v.recorded && v'.status.lastPublished == v.status.lastPublished
            && (v'.status.lastCollected == v.status.lastCollected
                || (v'.status.lastCollected.Some?
                    && (v.status.lastCollected.Some? ==> v.status.lastCollected.value <= v'.status.lastCollected.value)))
            && (Do(c, s, step).pc.Down? || !s.pc.Down? )
  {
    if Quiet(step) { QuietEffect(c, s, step); }
  }

  lemma {:induction false} RunLatest(c: Config, s: State, steps: seq<Step>, to: State)
    requires StatusOk(s) && Runs(c, s, steps, to)
    ensures StatusOk(to)
    decreases |steps|
  {
    if steps != [] {
      StepLatest(c, s, steps[0]);
      RunLatest(c, Do(c, s, steps[0]), steps[1..], to);
    }
  }

  /** In every run, the stored status names the latest hour that was published, and no hour whose stored flag is set is
      later than the last collected one. */
  lemma LatestHours(c: Config, steps: seq<Step>, s: State)
    requires ValidConfig(c) && Runs(c, Init(c), steps, s) && s.durable.Some?
    ensures IsLatest(Recorded(s).Keys, s.durable.value.status.lastPublished)
    ensures forall t :: t in s.durable.value.status.intervals && s.durable.value.status.intervals[t] ==>
              s.durable.value.status.lastCollected.Some? && t <= s.durable.value.status.lastCollected.value
  {
    RunLatest(c, Init(c), steps, s);
    Reachable(c, steps, s);
  }

  /*** The sink, the records and the lag ***/

  /** The volatile status says of the sink what the last write came to: a failed one makes it unavailable, the acknowledged
      selector available, with the number of points of its publication; nothing else changes either. */
  lemma SinkFields(c: Config, s: State, step: Step)
    requires Enabled(c, s, step) && !step.Restart?
    ensures var st, st' := s.volatile.status, Do(c, s, step).volatile.status;
            if step.WriteFails? then st'.sinkAvailable == Some(false) && st'.records == st.records
            else if step.Acknowledge? && s.pc.sent >= |Batches(s.pending.value)| then
              var x := s.pending.value;
              st'.sinkAvailable == Some(true) && st'.records == (|x.archive| + 11_999) / 12_000 + |x.clients| + 1
            else st'.sinkAvailable == st.sinkAvailable && st'.records == st.records
  {
    if step.Acknowledge? { RecordCount(s.pending.value); }
  }

  /** The lag is the time since the end of the last published hour, or zero if that has not come. */
  lemma LagIff(s: State, now: nat, error: Option<string>, disk: Disk)
    ensures var st, st' := s.volatile.status, DoReport(s, now, error, disk).volatile.status;
            && st'.updatedMs == now && st'.error == error
            && (st.lastPublished.None? <==> st'.lagMs.None?)
            && (st.lastPublished.Some? ==>
                  var end := st.lastPublished.value + 3_600_000;
                  if now >= end then st'.lagMs.value + end == now else st'.lagMs == Some(0))
  {
  }

  /** A collection notes its hour, if all sources were collected, before the publication. */
  lemma NoteIff(st: Status, hour: nat, collected: bool)
    ensures NoteCollected(st, hour, collected) == st.(lastCollected := NoteCollected(st, hour, collected).lastCollected)
    ensures if collected then Latest(st.lastCollected, hour, NoteCollected(st, hour, collected).lastCollected)
            else NoteCollected(st, hour, collected) == st
  {
  }

  /*** What is accepted from an earlier worker ***/

  /** A stored status is accepted exactly if it is bound to the same console and sink and has at most 168 hours; a refused one is
      left as it is. */
  lemma RestartIff(c: Config, s: State)
    requires s.pc.Down? && s.durable.Some?
    ensures var st, s' := s.durable.value.status, Do(c, s, Restart(Done));
            && (s'.pc == Idle <==> st.binding == c.binding && |st.intervals| <= 168)
            && (s'.pc == Idle ==> s'.volatile == s.durable.value && s'.durable == s.durable && s'.pending == s.pending)
            && (s'.pc != Idle ==> s' == s)
  {
  }

  /** A pending snapshot is replayed exactly if it is for one whole hour and can be built; otherwise the cycle ends and the
      snapshot stays. */
  lemma ReplayIff(c: Config, s: State)
    requires s.pc.Idle? && s.pending.Some?
    ensures var x, s' := s.pending.value, Do(c, s, BeginCycle);
            && s'.pending == s.pending
            && (s'.pc == Publishing(0, ThenSchedule) <==>
                  x.end == x.start + 3_600_000 && x.start % 3_600_000 == 0 && Buildable(x))
            && (s'.pc != Publishing(0, ThenSchedule) ==> s' == s)
  {
  }
}
