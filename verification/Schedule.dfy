/** The hourly scheduler of the traffic collector: the sliding window of hours, the
    count of hours that leave it unresolved, and the round-robin choice of hours. */
module Schedule {
  import opened Common

  const HOUR: nat := 3_600_000
  const MAX_INTERVALS: nat := 168

  datatype Settings = Settings(delayMs: nat, historyHours: nat, correctionHours: nat, perCycle: nat)

  /** The bounds that configuration parsing enforces. */
  predicate ValidSettings(c: Settings) {
    && c.delayMs <= 86_400_000
    && 1 <= c.correctionHours <= c.historyHours <= MAX_INTERVALS
    && 1 <= c.perCycle <= 24
  }

  datatype Status = Status(
    binding: string,
    lastCollected: Option<nat>,
    lastPublished: Option<nat>,
    updatedMs: nat,
    lagMs: Option<nat>,
    records: nat,
    error: Option<string>,
    sinkAvailable: Option<bool>,
    intervals: map<nat, bool>,
    expiredGaps: nat,
    cursor: Option<nat>)

  const Fresh := Status("", None, None, 0, None, 0, None, None, map[], 0, None)

  /*** The window ***/

  function WindowEnd(c: Settings, now: nat): nat {
    SatSub(now, c.delayMs) / HOUR * HOUR
  }

  function HoursBefore(end: nat, hours: nat): nat {
    SatSub(end, hours * HOUR)
  }

  function WindowStart(c: Settings, now: nat): nat {
    HoursBefore(WindowEnd(c, now), c.historyHours)
  }

  function CorrectionStart(c: Settings, now: nat): nat {
    HoursBefore(WindowEnd(c, now), c.correctionHours)
  }

  predicate Aligned(t: nat) {
    t % HOUR == 0
  }

  lemma WindowShape(c: Settings, now: nat)
    requires ValidSettings(c)
    ensures Aligned(WindowEnd(c, now)) && Aligned(WindowStart(c, now)) && Aligned(CorrectionStart(c, now))
    ensures WindowStart(c, now) <= CorrectionStart(c, now) <= WindowEnd(c, now) <= now
    ensures WindowEnd(c, now) > 0 ==> WindowStart(c, now) < WindowEnd(c, now)
    ensures WindowEnd(c, now) - WindowStart(c, now) <= c.historyHours * HOUR
  {
  }

  /** The windows in numbers: the end is the greatest whole hour that settled at least `delayMs` ago, or zero; the
      window and the correction window reach back from it by their own numbers of hours, or to zero. */
  lemma WindowMeaning(c: Settings, now: nat)
    ensures WindowEnd(c, now) % 3_600_000 == 0 && (WindowEnd(c, now) == 0 || WindowEnd(c, now) + c.delayMs <= now)
    ensures forall t: nat :: t % 3_600_000 == 0 && t + c.delayMs <= now ==> t <= WindowEnd(c, now)
    ensures WindowStart(c, now) + c.historyHours * 3_600_000 == WindowEnd(c, now)
         || (WindowStart(c, now) == 0 && WindowEnd(c, now) <= c.historyHours * 3_600_000)
    ensures CorrectionStart(c, now) + c.correctionHours * 3_600_000 == WindowEnd(c, now)
         || (CorrectionStart(c, now) == 0 && WindowEnd(c, now) <= c.correctionHours * 3_600_000)
  {
    forall t: nat | t % 3_600_000 == 0 && t + c.delayMs <= now ensures t <= WindowEnd(c, now) {
      assert t / HOUR * HOUR == t && t / HOUR <= SatSub(now, c.delayMs) / HOUR;
    }
  }

  lemma WindowMonotone(c: Settings, now: nat, later: nat)
    requires now <= later
    ensures WindowEnd(c, now) <= WindowEnd(c, later)
    ensures WindowStart(c, now) <= WindowStart(c, later)
    ensures CorrectionStart(c, now) <= CorrectionStart(c, later)
  {
  }

  /** The whole hours from `start` up to but excluding `end`. */
  function Grid(start: nat, end: nat): set<nat> {
    set t: nat | start <= t < end && Aligned(t)
  }

  lemma {:induction false} GridCount(start: nat, end: nat)
    requires Aligned(start) && Aligned(end) && start <= end
    ensures |Grid(start, end)| * HOUR == end - start
    decreases end
  {
    if start == end {
      assert Grid(start, end) == {};
    } else {
      var last := end - HOUR;
      assert Aligned(last);
      GridCount(start, last);
      forall t | t in Grid(start, end) ensures t in Grid(start, last) + {last} {
        if t > last { AlignedApart(t, last); }
      }
      assert Grid(start, end) == Grid(start, last) + {last};
    }
  }

  /** Two different whole hours are at least one hour apart. */
  lemma AlignedApart(a: nat, b: nat)
    requires Aligned(a) && Aligned(b) && a > b
    ensures a >= b + HOUR
  {
  }

  /*** Expired gaps ***/

  lemma {:induction false} MaxExists(s: set<nat>)
    requires s != {}
    ensures exists m :: m in s && forall k :: k in s ==> k <= m
  {
    var x :| x in s;
    if s - {x} != {} {
      MaxExists(s - {x});
      var m :| m in s - {x} && forall k :: k in s - {x} ==> k <= m;
      var w := Max(m, x);
      forall k | k in s ensures k <= w {
        if k != x { assert k in s - {x}; }
      }
      assert w in s;
    } else {
      assert s == {x};
    }
  }

  ghost function LastKey(keys: set<nat>): (m: nat)
    requires keys != {}
    ensures m in keys && forall k :: k in keys ==> k <= m
  {
    MaxExists(keys);
    var m :| m in keys && forall k :: k in keys ==> k <= m;
    m
  }

  /** Hours that lie wholly between the last known hour and the new window. */
  ghost function Skipped(intervals: map<nat, bool>, start: nat): nat {
    if intervals.Keys == {} then 0 else SatSub(start, SatAdd(LastKey(intervals.Keys), HOUR)) / HOUR
  }

  /** Known hours that fall out of the window while still unresolved. */
  function ExpiredHours(intervals: map<nat, bool>, start: nat): set<nat> {
    set t | t in intervals.Keys && t < start && !intervals[t]
  }

  function Refill(intervals: map<nat, bool>, start: nat, end: nat): map<nat, bool> {
    map t | t in Grid(start, end) :: t in intervals && intervals[t]
  }

  /** The status after one call of the scheduler at time `now`. */
  ghost function ScheduleStatus(c: Settings, now: nat, st: Status): Status {
    var start := WindowStart(c, now);
    st.(expiredGaps := st.expiredGaps + Skipped(st.intervals, start) + |ExpiredHours(st.intervals, start)|,
        intervals := Refill(st.intervals, start, WindowEnd(c, now)))
  }

  /** The hours of a span that are not in the set of resolved hours. */
  function Unresolved(resolved: set<nat>, from: nat, to: nat): set<nat> {
    Grid(from, to) - resolved
  }

  /** The map covers exactly the hours of a window and flags exactly its resolved hours. */
  ghost predicate Tracks(intervals: map<nat, bool>, resolved: set<nat>, start: nat, end: nat) {
    && Aligned(start) && Aligned(end) && start <= end
    && intervals.Keys == Grid(start, end)
    && forall t :: t in intervals ==> (intervals[t] <==> t in resolved)
  }

  lemma GridLast(start: nat, end: nat)
    requires Aligned(start) && Aligned(end) && start < end
    ensures Grid(start, end) != {} && LastKey(Grid(start, end)) == end - HOUR
  {
    AlignedApart(end, start);
    assert end - HOUR in Grid(start, end);
    var m := LastKey(Grid(start, end));
    AlignedApart(end, m);
  }

  /** The hours between a window that ends at `end` and a later one that starts at `to`. */
  function Between(end: nat, to: nat): set<nat> {
    if end <= to then Grid(end, to) else {}
  }

  lemma SkippedHours(intervals: map<nat, bool>, start: nat, end: nat, to: nat)
    requires Aligned(start) && Aligned(end) && Aligned(to) && start < end <= U64_MAX
    requires intervals.Keys == Grid(start, end)
    ensures Skipped(intervals, to) == |Between(end, to)|
  {
    GridLast(start, end);
    if end <= to { GridCount(end, to); }
  }

  lemma UnresolvedConcat(resolved: set<nat>, origin: nat, start: nat, to: nat)
    requires origin <= start <= to
    ensures |Unresolved(resolved, origin, to)| == |Unresolved(resolved, origin, start)| + |Unresolved(resolved, start, to)|
  {
    var a, b := Unresolved(resolved, origin, start), Unresolved(resolved, start, to);
    assert Unresolved(resolved, origin, to) == a + b && a !! b;
  }

  lemma UnresolvedSplit(intervals: map<nat, bool>, resolved: set<nat>, origin: nat, start: nat, end: nat, to: nat)
    requires Tracks(intervals, resolved, start, end) && origin <= start <= to
    requires forall t :: t in resolved ==> t < end
    ensures |Unresolved(resolved, origin, to)|
         == |Unresolved(resolved, origin, start)| + |Between(end, to)| + |ExpiredHours(intervals, to)|
  {
    UnresolvedConcat(resolved, origin, start, to);
    var open, left, skipped := Unresolved(resolved, start, to), ExpiredHours(intervals, to), Between(end, to);
    forall t ensures t in open <==> t in skipped + left {
      assert t in Grid(start, end) <==> t in intervals;
    }
    assert open == skipped + left && skipped !! left;
  }

  /** Conservation of gaps by one scheduler call: if the counter was the number of unresolved
      hours from `origin` to the old window, it is the number of unresolved hours from
      `origin` to the new window afterwards, hours skipped during an outage included. */
  lemma ScheduleConservesGaps(c: Settings, now: nat, st: Status, resolved: set<nat>, origin: nat, start: nat, end: nat)
    requires ValidSettings(c) && now <= U64_MAX
    requires Tracks(st.intervals, resolved, start, end) && start < end
    requires Aligned(origin) && origin <= start
    requires start <= WindowStart(c, now) && end <= WindowEnd(c, now)
    requires forall t :: t in resolved ==> t < end
    requires st.expiredGaps == |Unresolved(resolved, origin, start)|
    ensures var st' := ScheduleStatus(c, now, st);
            && Tracks(st'.intervals, resolved, WindowStart(c, now), WindowEnd(c, now))
            && st'.expiredGaps == |Unresolved(resolved, origin, WindowStart(c, now))|
  {
    var start', end' := WindowStart(c, now), WindowEnd(c, now);
    WindowShape(c, now);
    SkippedHours(st.intervals, start, end, start');
    UnresolvedSplit(st.intervals, resolved, origin, start, end, start');
  }

  /** The first scheduler call that opens a nonempty window starts the count at zero. */
  lemma FirstScheduleTracks(c: Settings, now: nat, st: Status, resolved: set<nat>)
    requires ValidSettings(c)
    requires st.intervals == map[] && resolved == {} && st.expiredGaps == 0
    ensures var st' := ScheduleStatus(c, now, st);
            && Tracks(st'.intervals, resolved, WindowStart(c, now), WindowEnd(c, now))
            && st'.expiredGaps == |Unresolved(resolved, WindowStart(c, now), WindowStart(c, now))|
  {
    WindowShape(c, now);
    assert ExpiredHours(st.intervals, WindowStart(c, now)) == {};
    assert Unresolved(resolved, WindowStart(c, now), WindowStart(c, now)) == {};
  }

  /** From the second call on, the counter grows by the hours that leave unresolved, except after an
      empty window: a window scheduled before the first whole hour has settled holds no hour, and what
      passes before the next call is then lost. That is the only loss. */
  lemma CountStartsIff(c: Settings, st: Status, now: nat, later: nat)
    requires ValidSettings(c) && now <= later <= U64_MAX && st.intervals == map[]
    ensures var st' := ScheduleStatus(c, later, ScheduleStatus(c, now, st));
            st'.expiredGaps == st.expiredGaps + |Unresolved({}, WindowStart(c, now), WindowStart(c, later))|
            <==> WindowEnd(c, now) > 0 || WindowStart(c, later) == 0
  {
    var start, end, to := WindowStart(c, now), WindowEnd(c, now), WindowStart(c, later);
    var first := ScheduleStatus(c, now, st);
    WindowShape(c, now);
    WindowShape(c, later);
    WindowMonotone(c, now, later);
    assert ExpiredHours(st.intervals, start) == {};
    if end > 0 {
      SkippedHours(first.intervals, start, end, to);
      UnresolvedSplit(first.intervals, {}, start, start, end, to);
      assert Unresolved({}, start, start) == {};
    } else {
      assert Grid(0, 0) == {};
      assert first.intervals == map[];
      assert ExpiredHours(first.intervals, to) == {};
      assert to > 0 ==> 0 in Unresolved({}, 0, to);
      assert to == 0 ==> Unresolved({}, 0, to) == {};
    }
  }

  /*** A clock that goes back ***/

  /** Successive scheduler calls, at whatever times. */
  ghost function ScheduleAll(c: Settings, times: seq<nat>, st: Status): Status {
    if times == [] then st else ScheduleAll(c, times[1..], ScheduleStatus(c, times[0], st))
  }

  predicate InWindow(c: Settings, now: nat, t: nat) {
    WindowStart(c, now) <= t < WindowEnd(c, now)
  }

  predicate Flagged(st: Status, t: nat) {
    t in st.intervals && st.intervals[t]
  }

  lemma {:induction false} FlagsNeverAppear(c: Settings, times: seq<nat>, st: Status, t: nat)
    requires !Flagged(st, t)
    ensures !Flagged(ScheduleAll(c, times, st), t)
  {
    if times != [] { FlagsNeverAppear(c, times[1..], ScheduleStatus(c, times[0], st), t); }
  }

  /** A resolved hour keeps its flag through any calls, in any order of times, exactly when it lies in
      every one of their windows. One call under a clock that went back forgets it for good. */
  lemma {:induction false} FlagSurvivesIff(c: Settings, times: seq<nat>, st: Status, t: nat)
    requires Flagged(st, t) && Aligned(t)
    ensures Flagged(ScheduleAll(c, times, st), t) <==> forall i :: 0 <= i < |times| ==> InWindow(c, times[i], t)
  {
    if times != [] {
      var st1, rest := ScheduleStatus(c, times[0], st), times[1..];
      assert Flagged(st1, t) <==> InWindow(c, times[0], t);
      assert forall i :: 0 <= i < |rest| ==> rest[i] == times[i + 1];
      assert forall i :: 0 < i < |times| ==> times[i] == rest[i - 1];
      if InWindow(c, times[0], t) {
        FlagSurvivesIff(c, rest, st1, t);
      } else {
        FlagsNeverAppear(c, rest, st1, t);
      }
    }
  }

  /** The counter is right for the window from `start` to `end`: its map flags the resolved hours, and
      the counter is the number of unresolved ones from `origin` on. */
  ghost predicate Counted(st: Status, resolved: set<nat>, origin: nat, start: nat, end: nat) {
    && Tracks(st.intervals, resolved, start, end) && start < end <= U64_MAX
    && Aligned(origin) && origin <= start
    && (forall t :: t in resolved ==> t < end)
    && st.expiredGaps == |Unresolved(resolved, origin, start)|
  }

  /** What a call under a clock that went back keeps of the resolved hours. */
  function Kept(resolved: set<nat>, start: nat, end: nat): set<nat> {
    set t | t in resolved && start <= t < end
  }

  lemma BackCall(c: Settings, st: Status, resolved: set<nat>, start: nat, end: nat, back: nat)
    requires ValidSettings(c) && Tracks(st.intervals, resolved, start, end) && start < end <= U64_MAX
    requires WindowStart(c, back) <= start && WindowEnd(c, back) < end
    ensures var st' := ScheduleStatus(c, back, st);
            && st'.expiredGaps == st.expiredGaps
            && Tracks(st'.intervals, Kept(resolved, start, WindowEnd(c, back)), WindowStart(c, back), WindowEnd(c, back))
  {
    WindowShape(c, back);
    SkippedHours(st.intervals, start, end, WindowStart(c, back));
    assert ExpiredHours(st.intervals, WindowStart(c, back)) == {};
  }

  /** The hours from `low` to `to` that are not kept: those below `start` again, those from `start` on
      that are unresolved, and the resolved ones that were forgotten. */
  lemma RecountSplit(resolved: set<nat>, low: nat, start: nat, back: nat, to: nat)
    requires low <= start <= to
    ensures |Unresolved(Kept(resolved, start, back), low, to)|
         == |Grid(low, start)| + |Unresolved(resolved, start, to)| + |resolved * Grid(Max(start, back), to)|
  {
    var again, open, lost := Grid(low, start), Unresolved(resolved, start, to), resolved * Grid(Max(start, back), to);
    assert Unresolved(Kept(resolved, start, back), low, to) == again + open + lost;
    assert again !! open && (again + open) !! lost;
  }

  /** Back, and on from there: what is not kept and leaves the window is counted. */
  lemma CallsBackAndOn(c: Settings, st: Status, resolved: set<nat>, start: nat, end: nat, back: nat, later: nat)
    requires ValidSettings(c) && Tracks(st.intervals, resolved, start, end) && start < end <= U64_MAX
    requires 0 < WindowEnd(c, back) < end && WindowStart(c, back) <= start && WindowStart(c, back) <= WindowStart(c, later)
    ensures ScheduleStatus(c, later, ScheduleStatus(c, back, st)).expiredGaps
         == st.expiredGaps + |Unresolved(Kept(resolved, start, WindowEnd(c, back)), WindowStart(c, back), WindowStart(c, later))|
  {
    var low, middle, to := WindowStart(c, back), WindowEnd(c, back), WindowStart(c, later);
    var st1, kept := ScheduleStatus(c, back, st), Kept(resolved, start, WindowEnd(c, back));
    BackCall(c, st, resolved, start, end, back);
    WindowShape(c, back);
    WindowShape(c, later);
    SkippedHours(st1.intervals, low, middle, to);
    UnresolvedSplit(st1.intervals, kept, low, low, middle, to);
    assert Unresolved(kept, low, low) == {};
  }

  lemma NothingKept(resolved: set<nat>, start: nat, end: nat, low: nat, to: nat)
    requires to <= start
    ensures Unresolved(Kept(resolved, start, end), low, to) == Grid(low, to)
  {
  }

  /** After the clock went back and forward again, the counter is too high by the hours that reappeared
      before the old window, which are counted twice, and by the resolved hours that were forgotten. */
  lemma BackwardClockRecounts(c: Settings, st: Status, resolved: set<nat>, origin: nat, start: nat, end: nat, back: nat, later: nat)
    requires ValidSettings(c) && Counted(st, resolved, origin, start, end) && later <= U64_MAX
    requires WindowStart(c, back) <= start <= WindowStart(c, later)
    requires 0 < WindowEnd(c, back) < end
    ensures ScheduleStatus(c, later, ScheduleStatus(c, back, st)).expiredGaps
         == |Unresolved(resolved, origin, WindowStart(c, later))|
            + |Grid(WindowStart(c, back), start)| + |resolved * Grid(Max(start, WindowEnd(c, back)), WindowStart(c, later))|
  {
    CallsBackAndOn(c, st, resolved, start, end, back, later);
    RecountSplit(resolved, WindowStart(c, back), start, WindowEnd(c, back), WindowStart(c, later));
    UnresolvedConcat(resolved, origin, start, WindowStart(c, later));
  }

  /** The later call is still behind the old window, and not behind the intermediate one: the hours in between
      have reappeared and expire again. */
  lemma StillBehindRecounts(c: Settings, st: Status, resolved: set<nat>, start: nat, end: nat, back: nat, later: nat)
    requires ValidSettings(c) && Tracks(st.intervals, resolved, start, end) && start < end <= U64_MAX
    requires 0 < WindowEnd(c, back) < end && WindowStart(c, back) <= WindowStart(c, later) < start
    ensures ScheduleStatus(c, later, ScheduleStatus(c, back, st)).expiredGaps
         == st.expiredGaps + |Grid(WindowStart(c, back), WindowStart(c, later))|
  {
    CallsBackAndOn(c, st, resolved, start, end, back, later);
    NothingKept(resolved, start, WindowEnd(c, back), WindowStart(c, back), WindowStart(c, later));
  }

  /** From an empty map, or under a clock that goes back, a call leaves the counter alone. */
  lemma CallKeepsCount(c: Settings, st: Status, resolved: set<nat>, start: nat, end: nat, later: nat)
    requires ValidSettings(c) && Tracks(st.intervals, resolved, start, end) && end <= U64_MAX
    requires start == HoursBefore(end, c.historyHours) && (end == 0 || WindowEnd(c, later) < end)
    ensures ScheduleStatus(c, later, st).expiredGaps == st.expiredGaps
  {
    if end == 0 {
      assert st.intervals == map[];
      assert ExpiredHours(st.intervals, WindowStart(c, later)) == {};
    } else {
      BackCall(c, st, resolved, start, end, later);
    }
  }

  /** Between two window starts, every hour from `origin` on is resolved. */
  predicate Settled(resolved: set<nat>, origin: nat, a: nat, b: nat) {
    Unresolved(resolved, Max(origin, Min(a, b)), Max(a, b)) == {}
  }

  lemma SameCountIff(resolved: set<nat>, origin: nat, a: nat, b: nat)
    ensures |Unresolved(resolved, origin, a)| == |Unresolved(resolved, origin, b)| <==> Settled(resolved, origin, a, b)
  {
    MoreHoursCount(resolved, origin, Min(a, b), Max(a, b));
  }

  lemma MoreHoursCount(resolved: set<nat>, origin: nat, a: nat, b: nat)
    requires a <= b
    ensures |Unresolved(resolved, origin, b)|
         == |Unresolved(resolved, origin, a)| + |Unresolved(resolved, Max(origin, a), b)|
  {
    var x, y := Unresolved(resolved, origin, a), Unresolved(resolved, Max(origin, a), b);
    assert Unresolved(resolved, origin, b) == x + y && x !! y;
  }

  /** The window start up to which the counter counts after a call at `back`. */
  function CountedTo(c: Settings, start: nat, end: nat, back: nat): nat {
    if WindowEnd(c, back) >= end then WindowStart(c, back) else start
  }

  /** Whether a call at `back` leaves the count right for a later call, whatever the two times are. When the later
      call comes behind the one in between, or after one that emptied the map, it leaves the counter
      alone, and then the hours by which the windows differ must be resolved. Otherwise it is right when
      the clock did not go back; or when no hour reappears and no resolved hour is forgotten that
      leaves the window by then. */
  predicate CountSurvives(c: Settings, resolved: set<nat>, origin: nat, start: nat, end: nat, back: nat, later: nat) {
    var to := WindowStart(c, later);
    if WindowEnd(c, back) == 0 || WindowEnd(c, later) < WindowEnd(c, back) then
      Settled(resolved, origin, CountedTo(c, start, end, back), to)
    else if WindowEnd(c, back) >= end then true
    else if start <= to then WindowStart(c, back) == start && resolved * Grid(WindowEnd(c, back), to) == {}
    else WindowStart(c, back) == to && Settled(resolved, origin, start, to)
  }

  /** What the call at `back` leaves behind. */
  lemma FirstCall(c: Settings, st: Status, resolved: set<nat>, origin: nat, start: nat, end: nat, back: nat) returns (kept: set<nat>)
    requires ValidSettings(c) && Counted(st, resolved, origin, start, end) && start == HoursBefore(end, c.historyHours)
    requires back <= U64_MAX
    ensures var st1 := ScheduleStatus(c, back, st);
            && Tracks(st1.intervals, kept, WindowStart(c, back), WindowEnd(c, back))
            && st1.expiredGaps == |Unresolved(resolved, origin, CountedTo(c, start, end, back))|
  {
    WindowShape(c, back);
    if WindowEnd(c, back) >= end {
      ScheduleConservesGaps(c, back, st, resolved, origin, start, end);
      kept := resolved;
    } else {
      BackCall(c, st, resolved, start, end, back);
      kept := Kept(resolved, start, WindowEnd(c, back));
    }
  }

  lemma ReturningClockIff(c: Settings, st: Status, resolved: set<nat>, origin: nat, start: nat, end: nat, back: nat, later: nat)
    requires ValidSettings(c) && Counted(st, resolved, origin, start, end) && start == HoursBefore(end, c.historyHours)
    requires back <= U64_MAX && (WindowEnd(c, back) == 0 || WindowEnd(c, later) < WindowEnd(c, back))
    ensures ScheduleStatus(c, later, ScheduleStatus(c, back, st)).expiredGaps == |Unresolved(resolved, origin, WindowStart(c, later))|
            <==> Settled(resolved, origin, CountedTo(c, start, end, back), WindowStart(c, later))
  {
    WindowShape(c, back);
    var kept := FirstCall(c, st, resolved, origin, start, end, back);
    CallKeepsCount(c, ScheduleStatus(c, back, st), kept, WindowStart(c, back), WindowEnd(c, back), later);
    SameCountIff(resolved, origin, CountedTo(c, start, end, back), WindowStart(c, later));
  }

  lemma BehindClockIff(c: Settings, st: Status, resolved: set<nat>, origin: nat, start: nat, end: nat, back: nat, later: nat)
    requires ValidSettings(c) && Counted(st, resolved, origin, start, end)
    requires 0 < WindowEnd(c, back) < end && WindowStart(c, back) <= WindowStart(c, later) < start
    ensures ScheduleStatus(c, later, ScheduleStatus(c, back, st)).expiredGaps == |Unresolved(resolved, origin, WindowStart(c, later))|
            <==> WindowStart(c, back) == WindowStart(c, later) && Settled(resolved, origin, start, WindowStart(c, later))
  {
    var low, to := WindowStart(c, back), WindowStart(c, later);
    WindowShape(c, back);
    StillBehindRecounts(c, st, resolved, start, end, back, later);
    MoreHoursCount(resolved, origin, to, start);
    assert low < to ==> low in Grid(low, to);
    assert low == to ==> Grid(low, to) == {};
  }

  lemma ForwardClockIff(c: Settings, st: Status, resolved: set<nat>, origin: nat, start: nat, end: nat, back: nat, later: nat)
    requires ValidSettings(c) && Counted(st, resolved, origin, start, end) && later <= U64_MAX
    requires 0 < WindowEnd(c, back) < end && WindowStart(c, back) <= start <= WindowStart(c, later)
    ensures ScheduleStatus(c, later, ScheduleStatus(c, back, st)).expiredGaps == |Unresolved(resolved, origin, WindowStart(c, later))|
            <==> WindowStart(c, back) == start && resolved * Grid(WindowEnd(c, back), WindowStart(c, later)) == {}
  {
    WindowShape(c, back);
    BackwardClockRecounts(c, st, resolved, origin, start, end, back, later);
    GridCount(WindowStart(c, back), start);
    assert Grid(start, start) == {};
  }

  /** Gap conservation through any intermediate call and any later one holds exactly under that condition. */
  lemma GapsSurviveClockIff(c: Settings, st: Status, resolved: set<nat>, origin: nat, start: nat, end: nat, back: nat, later: nat)
    requires ValidSettings(c) && Counted(st, resolved, origin, start, end) && start == HoursBefore(end, c.historyHours)
    requires back <= U64_MAX && later <= U64_MAX
    ensures ScheduleStatus(c, later, ScheduleStatus(c, back, st)).expiredGaps == |Unresolved(resolved, origin, WindowStart(c, later))|
            <==> CountSurvives(c, resolved, origin, start, end, back, later)
  {
    WindowShape(c, back);
    WindowShape(c, later);
    if WindowEnd(c, back) == 0 || WindowEnd(c, later) < WindowEnd(c, back) {
      ReturningClockIff(c, st, resolved, origin, start, end, back, later);
    } else if WindowEnd(c, back) >= end {
      ScheduleConservesGaps(c, back, st, resolved, origin, start, end);
      ScheduleConservesGaps(c, later, ScheduleStatus(c, back, st), resolved, origin, WindowStart(c, back), WindowEnd(c, back));
    } else if start <= WindowStart(c, later) {
      ForwardClockIff(c, st, resolved, origin, start, end, back, later);
    } else {
      BehindClockIff(c, st, resolved, origin, start, end, back, later);
    }
  }

  /** A clock that leaps ahead and returns leaves the counter at the leap: too high by the unresolved hours that it
      took for expired. */
  lemma LeapOvercounts(c: Settings, st: Status, resolved: set<nat>, origin: nat, start: nat, end: nat, leap: nat, later: nat)
    requires ValidSettings(c) && Counted(st, resolved, origin, start, end) && start == HoursBefore(end, c.historyHours)
    requires leap <= U64_MAX && end <= WindowEnd(c, later) < WindowEnd(c, leap)
    ensures ScheduleStatus(c, later, ScheduleStatus(c, leap, st)).expiredGaps
         == |Unresolved(resolved, origin, WindowStart(c, later))| + |Unresolved(resolved, WindowStart(c, later), WindowStart(c, leap))|
  {
    WindowShape(c, leap);
    var kept := FirstCall(c, st, resolved, origin, start, end, leap);
    CallKeepsCount(c, ScheduleStatus(c, leap, st), kept, WindowStart(c, leap), WindowEnd(c, leap), later);
    UnresolvedConcat(resolved, origin, WindowStart(c, later), WindowStart(c, leap));
  }

  /** So gaps are counted twice whenever hours reappear before the old window, however few. */
  lemma ReappearingHoursCountTwice(c: Settings, st: Status, resolved: set<nat>, origin: nat, start: nat, end: nat, back: nat, later: nat)
    requires ValidSettings(c) && Counted(st, resolved, origin, start, end) && later <= U64_MAX
    requires WindowStart(c, back) < start <= WindowStart(c, later)
    requires 0 < WindowEnd(c, back) < end
    ensures ScheduleStatus(c, later, ScheduleStatus(c, back, st)).expiredGaps
          > |Unresolved(resolved, origin, WindowStart(c, later))|
  {
    WindowShape(c, back);
    BackwardClockRecounts(c, st, resolved, origin, start, end, back, later);
    assert WindowStart(c, back) in Grid(WindowStart(c, back), start);
  }

  /*** Publication checkpoint ***/

  lemma {:induction false} MinExists(s: set<nat>)
    requires s != {}
    ensures exists m :: m in s && forall k :: k in s ==> m <= k
  {
    var x :| x in s;
    if s - {x} != {} {
      MinExists(s - {x});
      var m :| m in s - {x} && forall k :: k in s - {x} ==> m <= k;
      var w := Min(m, x);
      forall k | k in s ensures w <= k {
        if k != x { assert k in s - {x}; }
      }
      assert w in s;
    } else {
      assert s == {x};
    }
  }

  ghost function FirstKey(keys: set<nat>): (m: nat)
    requires keys != {}
    ensures m in keys && forall k :: k in keys ==> m <= k
  {
    MinExists(keys);
    var m :| m in keys && forall k :: k in keys ==> m <= k;
    m
  }

  /** Drops the oldest hours beyond the interval bound and counts the unresolved ones. */
  ghost function Trim(intervals: map<nat, bool>, gaps: nat): (map<nat, bool>, nat)
    decreases |intervals|
  {
    if |intervals| <= MAX_INTERVALS then (intervals, gaps)
    else
      var t := FirstKey(intervals.Keys);
      assert intervals.Keys == (intervals - {t}).Keys + {t};
      Trim(intervals - {t}, if intervals[t] then gaps else gaps + 1)
  }

  function MaxOf(a: Option<nat>, b: nat): Option<nat> {
    Some(Max(if a.None? then 0 else a.value, b))
  }

  function NoteCollected(st: Status, hour: nat, collected: bool): Status {
    if collected then st.(lastCollected := MaxOf(st.lastCollected, hour)) else st
  }

  /** The status after the selector of an hour has been acknowledged. */
  ghost function CommitStatus(st: Status, hour: nat, collected: bool, records: nat): Status {
    var trimmed := Trim(st.intervals[hour := collected], st.expiredGaps);
    NoteCollected(st, hour, collected).(
      sinkAvailable := Some(true),
      lastPublished := MaxOf(st.lastPublished, hour),
      records := records,
      intervals := trimmed.0,
      expiredGaps := trimmed.1,
      cursor := Some(hour),
      error := if collected then None else Some("source_incomplete"))
  }

  /** What the commit of an hour makes of the other fields: the error tells a collected hour from an incomplete one,
      the last published hour is the latest, and so is the last collected one, which an incomplete
      hour leaves alone. */
  lemma CommitFields(st: Status, hour: nat, collected: bool, records: nat)
    ensures var st' := CommitStatus(st, hour, collected, records);
            && st'.binding == st.binding && st'.updatedMs == st.updatedMs && st'.lagMs == st.lagMs
            && st'.records == records && st'.sinkAvailable == Some(true) && st'.cursor == Some(hour)
            && (st'.error.None? <==> collected) && (!collected ==> st'.error == Some("source_incomplete"))
            && Latest(st.lastPublished, hour, st'.lastPublished)
            && (if collected then Latest(st.lastCollected, hour, st'.lastCollected) else st'.lastCollected == st.lastCollected)
  {
  }

  /** `after` is the later of an hour and what was there before. */
  predicate Latest(before: Option<nat>, hour: nat, after: Option<nat>) {
    && after.Some? && (after == Some(hour) || after == before)
    && after.value >= hour && (before.Some? ==> after.value >= before.value)
  }

  /** The unresolved hours that are no longer kept. */
  function Lost(intervals: map<nat, bool>, kept: set<nat>): set<nat> {
    set t | t in intervals.Keys && t !in kept && !intervals[t]
  }

  lemma LostStep(intervals: map<nat, bool>, t: nat, kept: set<nat>)
    requires t in intervals && t !in kept
    ensures |Lost(intervals, kept)| == |Lost(intervals - {t}, kept)| + if intervals[t] then 0 else 1
  {
    var fewer := Lost(intervals - {t}, kept);
    assert t !in fewer;
    assert Lost(intervals, kept) == fewer + if intervals[t] then {} else {t};
  }

  lemma RemoveFirst(intervals: map<nat, bool>) returns (t: nat)
    requires intervals != map[]
    ensures t == FirstKey(intervals.Keys) && t in intervals && t !in intervals - {t}
    ensures intervals.Keys == (intervals - {t}).Keys + {t} && |intervals - {t}| == |intervals| - 1
    ensures forall u :: u in intervals - {t} ==> t < u && intervals[u] == (intervals - {t})[u]
  {
    t := FirstKey(intervals.Keys);
    assert intervals.Keys == (intervals - {t}).Keys + {t};
    assert |intervals - {t}| == |(intervals - {t}).Keys| && |intervals| == |intervals.Keys|;
  }

  /** The trim loop keeps the newest hours that fit and counts the unresolved ones among those it drops. */
  lemma {:induction false} TrimKeepsNewest(intervals: map<nat, bool>, gaps: nat)
    ensures var (kept, gaps') := Trim(intervals, gaps);
            && kept.Keys <= intervals.Keys && |kept| == Min(|intervals|, 168)
            && (forall t :: t in kept ==> kept[t] == intervals[t])
            && (forall t, u :: t in intervals && t !in kept && u in kept ==> t < u)
            && gaps' == gaps + |Lost(intervals, kept.Keys)|
    decreases |intervals|
  {
    if |intervals| <= MAX_INTERVALS {
      assert Lost(intervals, intervals.Keys) == {};
    } else {
      var t := RemoveFirst(intervals);
      TrimKeepsNewest(intervals - {t}, if intervals[t] then gaps else gaps + 1);
      LostStep(intervals, t, Trim(intervals, gaps).0.Keys);
    }
  }

  /** A window never holds more hours than the configured history. */
  lemma WindowCount(c: Settings, start: nat, end: nat)
    requires ValidSettings(c) && Aligned(start) && Aligned(end) && start <= end
    requires end - start <= c.historyHours * HOUR
    ensures |Grid(start, end)| <= c.historyHours
  {
    GridCount(start, end);
  }

  /** Publishing a known hour changes its flag and nothing else of the map; the trim loop has
      nothing to do. */
  lemma CommitKnownHour(st: Status, hour: nat, collected: bool, records: nat)
    requires hour in st.intervals && |st.intervals| <= MAX_INTERVALS
    ensures var st' := CommitStatus(st, hour, collected, records);
            st'.intervals == st.intervals[hour := collected] && st'.expiredGaps == st.expiredGaps
  {
    assert st.intervals[hour := collected].Keys == st.intervals.Keys;
    assert |st.intervals[hour := collected]| == |st.intervals[hour := collected].Keys|;
  }
}
