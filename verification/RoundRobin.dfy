/** The round-robin choice of hours: which hours one cycle attempts, and how many
    publications of other hours a waiting hour can be passed over by. */
module RoundRobin {
  import opened Common
  import opened Schedule

  /** Incomplete hours, and every hour recent enough to be read again. */
  function Candidates(c: Settings, now: nat, intervals: map<nat, bool>): set<nat> {
    set t | t in intervals.Keys && (!intervals[t] || t >= CorrectionStart(c, now))
  }

  /** The candidates from hour `t` to the end of the window, in time order. */
  function CandidateList(c: Settings, now: nat, intervals: map<nat, bool>, t: nat): seq<nat>
    decreases WindowEnd(c, now) - t
  {
    if t >= WindowEnd(c, now) then []
    else (if t in Candidates(c, now, intervals) then [t] else []) + CandidateList(c, now, intervals, t + HOUR)
  }

  /** `partition_point`: how many leading entries are at or before the cursor. */
  function Split(list: seq<nat>, cursor: nat): (n: nat)
    ensures n <= |list|
  {
    if list == [] || list[0] > cursor then 0 else 1 + Split(list[1..], cursor)
  }

  function Rotate(list: seq<nat>, cursor: Option<nat>): seq<nat> {
    match cursor
    case None => list
    case Some(at) => list[Split(list, at)..] + list[..Split(list, at)]
  }

  /** All candidates of a scheduled status, starting after the cursor and wrapping around. */
  function Queue(c: Settings, now: nat, st: Status): seq<nat> {
    Rotate(CandidateList(c, now, st.intervals, WindowStart(c, now)), st.cursor)
  }

  /** The hours one cycle attempts, in order. */
  function Picks(c: Settings, now: nat, st: Status): seq<nat> {
    var queue := Queue(c, now, st);
    queue[..Min(c.perCycle, |queue|)]
  }

  /*** The queue is the candidate set in rotation order ***/

  /** `x` comes before `y` when hours are visited upward from the cursor and then from the oldest. */
  predicate Precedes(cursor: Option<nat>, x: nat, y: nat) {
    match cursor
    case None => x < y
    case Some(at) => if (x > at) == (y > at) then x < y else x > at
  }

  predicate Above(cursor: Option<nat>, t: nat) {
    cursor.None? || t > cursor.value
  }

  predicate InOrder(cursor: Option<nat>, list: seq<nat>) {
    forall i, j :: 0 <= i < j < |list| ==> Precedes(cursor, list[i], list[j])
  }

  lemma {:induction false} CandidateListMembers(c: Settings, now: nat, intervals: map<nat, bool>, t: nat)
    requires Aligned(t) && intervals.Keys == Grid(WindowStart(c, now), WindowEnd(c, now))
    ensures forall x :: x in CandidateList(c, now, intervals, t) <==> x in Candidates(c, now, intervals) && x >= t
    decreases WindowEnd(c, now) - t
  {
    if t < WindowEnd(c, now) {
      CandidateListMembers(c, now, intervals, t + HOUR);
      forall x | x in Candidates(c, now, intervals) && x > t ensures x >= t + HOUR {
        AlignedApart(x, t);
      }
    }
  }

  lemma InOrderCons(t: nat, rest: seq<nat>)
    requires InOrder(None, rest) && forall x :: x in rest ==> t < x
    ensures InOrder(None, [t] + rest)
  {
    var list := [t] + rest;
    assert forall i :: 0 < i < |list| ==> list[i] == rest[i - 1] && rest[i - 1] in rest;
  }

  lemma {:induction false} CandidateListSorted(c: Settings, now: nat, intervals: map<nat, bool>, t: nat)
    requires Aligned(t) && intervals.Keys == Grid(WindowStart(c, now), WindowEnd(c, now))
    ensures InOrder(None, CandidateList(c, now, intervals, t))
    decreases WindowEnd(c, now) - t
  {
    if t < WindowEnd(c, now) {
      CandidateListSorted(c, now, intervals, t + HOUR);
      CandidateListMembers(c, now, intervals, t + HOUR);
      var rest := CandidateList(c, now, intervals, t + HOUR);
      InOrderCons(t, rest);
      assert [] + rest == rest;
    }
  }

  lemma {:induction false} SplitPoint(list: seq<nat>, cursor: nat)
    requires InOrder(None, list)
    ensures forall i :: 0 <= i < |list| ==> (list[i] <= cursor <==> i < Split(list, cursor))
  {
    if list != [] && list[0] <= cursor {
      SplitPoint(list[1..], cursor);
      forall i | 0 <= i < |list| ensures list[i] <= cursor <==> i < Split(list, cursor) {
        if i > 0 { assert list[i] == list[1..][i - 1]; }
      }
    }
  }

  lemma QueueShape(c: Settings, now: nat, st: Status)
    requires ValidSettings(c)
    requires st.intervals.Keys == Grid(WindowStart(c, now), WindowEnd(c, now))
    ensures InOrder(st.cursor, Queue(c, now, st))
    ensures forall x :: x in Queue(c, now, st) <==> x in Candidates(c, now, st.intervals)
  {
    WindowShape(c, now);
    var list := CandidateList(c, now, st.intervals, WindowStart(c, now));
    CandidateListMembers(c, now, st.intervals, WindowStart(c, now));
    CandidateListSorted(c, now, st.intervals, WindowStart(c, now));
    if st.cursor.Some? {
      SplitPoint(list, st.cursor.value);
      var n := Split(list, st.cursor.value);
      assert list == list[..n] + list[n..];
    }
  }

  /** Which hours of the window are candidates: those that are not resolved, and of the resolved ones exactly the
      newest, as many as the correction window has hours. */
  lemma CandidateIff(c: Settings, now: nat, intervals: map<nat, bool>, t: nat)
    requires intervals.Keys == Grid(WindowStart(c, now), WindowEnd(c, now)) && t in intervals
    ensures t in Candidates(c, now, intervals) <==>
            !intervals[t] || |set u | u in intervals && u >= t| <= c.correctionHours
  {
    var newer := set u | u in intervals && u >= t;
    assert newer == Grid(t, WindowEnd(c, now));
    GridCount(t, WindowEnd(c, now));
    WindowMeaning(c, now);
    assert |newer| * 3_600_000 == WindowEnd(c, now) - t;
  }

  /*** Ranks ***/

  function Before(hours: set<nat>, cursor: Option<nat>, t: nat): set<nat> {
    set x | x in hours && Precedes(cursor, x, t)
  }

  /** The candidates that the scheduler call at `now` works from. */
  ghost function CandidatesAt(c: Settings, now: nat, st: Status): set<nat> {
    Candidates(c, now, ScheduleStatus(c, now, st).intervals)
  }

  /** How many candidates the next scheduler call at `now` puts ahead of hour `t`. */
  ghost function Rank(c: Settings, now: nat, st: Status, t: nat): nat {
    |Before(CandidatesAt(c, now, st), st.cursor, t)|
  }

  /** In a list that enumerates a set in rotation order, position is rank. */
  lemma PrefixIsBefore(list: seq<nat>, hours: set<nat>, cursor: Option<nat>, i: nat)
    requires InOrder(cursor, list) && i < |list|
    requires forall x :: x in list <==> x in hours
    ensures Elements(list[..i]) == Before(hours, cursor, list[i])
    ensures |Before(hours, cursor, list[i])| == i
  {
    forall x | x in Before(hours, cursor, list[i]) ensures x in list[..i] {
      var k :| 0 <= k < |list| && list[k] == x;
      assert k < i;
      assert list[..i][k] == x;
    }
    assert forall x :: x in list[..i] ==> x in list;
    DistinctCount(list[..i]);
  }

  lemma PrefixHolds(list: seq<nat>, cursor: Option<nat>, n: nat, i: nat)
    requires InOrder(cursor, list) && i < |list| && n <= |list|
    ensures list[i] in list[..n] <==> i < n
  {
    assert i < n ==> list[..n][i] == list[i];
    if list[i] in list[..n] {
      var k :| 0 <= k < n && list[k] == list[i];
    }
  }

  /** Hour `t` is attempted by the next cycle exactly when fewer than `perCycle` candidates
      come before it. */
  lemma PickedIffRankSmall(c: Settings, now: nat, st: Status, t: nat)
    requires ValidSettings(c)
    requires t in CandidatesAt(c, now, st)
    ensures t in Picks(c, now, ScheduleStatus(c, now, st)) <==> Rank(c, now, st, t) < c.perCycle
  {
    var st1 := ScheduleStatus(c, now, st);
    var queue := Queue(c, now, st1);
    QueueShape(c, now, st1);
    var i :| 0 <= i < |queue| && queue[i] == t;
    PrefixIsBefore(queue, Candidates(c, now, st1.intervals), st.cursor, i);
    PrefixHolds(queue, st.cursor, Min(c.perCycle, |queue|), i);
  }

  /*** Cycles ***/

  /** The status once the publication of `hour` has been acknowledged, trimming aside. */
  function Published(st: Status, hour: nat, collected: bool): Status {
    st.(intervals := st.intervals[hour := collected], cursor := Some(hour))
  }

  function PublishedAll(st: Status, hours: seq<nat>, outcomes: seq<bool>): Status
    requires |hours| == |outcomes|
    decreases |hours|
  {
    if hours == [] then st
    else PublishedAll(Published(st, hours[0], outcomes[0]), hours[1..], outcomes[1..])
  }

  /** One cycle: the time of its scheduler call, and for the picks it got through, whether all
      sources were collected. A cycle is complete when it gets through all of its picks. */
  datatype Cycle = Cycle(now: nat, outcomes: seq<bool>)

  ghost function CyclePicks(c: Settings, st: Status, cycle: Cycle): seq<nat> {
    Picks(c, cycle.now, ScheduleStatus(c, cycle.now, st))
  }

  ghost predicate CycleFits(c: Settings, st: Status, cycle: Cycle) {
    |cycle.outcomes| <= |CyclePicks(c, st, cycle)|
  }

  ghost predicate Complete(c: Settings, st: Status, cycle: Cycle) {
    |cycle.outcomes| == |CyclePicks(c, st, cycle)|
  }

  ghost function Attempted(c: Settings, st: Status, cycle: Cycle): seq<nat>
    requires CycleFits(c, st, cycle)
  {
    CyclePicks(c, st, cycle)[..|cycle.outcomes|]
  }

  ghost function AfterCycle(c: Settings, st: Status, cycle: Cycle): Status
    requires CycleFits(c, st, cycle)
  {
    PublishedAll(ScheduleStatus(c, cycle.now, st), Attempted(c, st, cycle), cycle.outcomes)
  }

  lemma {:induction false} PublishedAllEffect(st: Status, hours: seq<nat>, outcomes: seq<bool>)
    requires |hours| == |outcomes|
    ensures var st' := PublishedAll(st, hours, outcomes);
            && st'.intervals.Keys == st.intervals.Keys + Elements(hours)
            && (forall t :: t in st.intervals && t !in hours ==> st'.intervals[t] == st.intervals[t])
            && st'.cursor == if hours == [] then st.cursor else Some(hours[|hours| - 1])
    decreases |hours|
  {
    if hours != [] {
      PublishedAllEffect(Published(st, hours[0], outcomes[0]), hours[1..], outcomes[1..]);
    }
  }

  lemma {:induction false} PublishedAllSnoc(st: Status, hours: seq<nat>, outcomes: seq<bool>, hour: nat, outcome: bool)
    requires |hours| == |outcomes|
    ensures PublishedAll(st, hours + [hour], outcomes + [outcome])
         == Published(PublishedAll(st, hours, outcomes), hour, outcome)
    decreases |hours|
  {
    if hours != [] {
      assert (hours + [hour])[1..] == hours[1..] + [hour];
      assert (outcomes + [outcome])[1..] == outcomes[1..] + [outcome];
      PublishedAllSnoc(Published(st, hours[0], outcomes[0]), hours[1..], outcomes[1..], hour, outcome);
    }
  }

  /** Moving the cursor to a visited hour `at` removes exactly the visited hours from those
      ahead of a later hour. */
  lemma AdvanceCursor(hours: set<nat>, cursor: Option<nat>, at: nat, t: nat)
    requires Precedes(cursor, at, t)
    ensures Before(hours, Some(at), t) == Before(hours, cursor, t) - Before(hours, cursor, at) - {at}
  {
  }

  lemma RemovedCount(ahead: set<nat>, passed: set<nat>, at: nat, n: nat)
    requires at !in passed && |passed| + 1 == n && passed + {at} <= ahead
    ensures |ahead - passed - {at}| == |ahead| - n
  {
    assert |passed + {at}| == n;
    assert ahead - passed - {at} == ahead - (passed + {at});
    assert ahead == (ahead - (passed + {at})) + (passed + {at});
  }

  lemma PrecedesTransitive(cursor: Option<nat>, x: nat, y: nat, z: nat)
    requires Precedes(cursor, x, y) && Precedes(cursor, y, z)
    ensures Precedes(cursor, x, z)
  {
  }

  lemma PassedAreAhead(hours: set<nat>, cursor: Option<nat>, at: nat, t: nat)
    requires at in hours && Precedes(cursor, at, t)
    ensures at !in Before(hours, cursor, at) && Before(hours, cursor, at) + {at} <= Before(hours, cursor, t)
  {
    forall x | x in Before(hours, cursor, at) ensures x in Before(hours, cursor, t) {
      PrecedesTransitive(cursor, x, at, t);
    }
  }

  /** Visiting the first `n` entries of a list in rotation order. */
  lemma VisitedShortenWait(list: seq<nat>, hours: set<nat>, cursor: Option<nat>, n: nat, i: nat)
    requires InOrder(cursor, list) && 0 < n <= i < |list|
    requires forall x :: x in list <==> x in hours
    ensures Precedes(cursor, list[n - 1], list[i])
    ensures |Before(hours, Some(list[n - 1]), list[i])| == |Before(hours, cursor, list[i])| - n
  {
    var at, t := list[n - 1], list[i];
    PrefixIsBefore(list, hours, cursor, n - 1);
    assert at in list;
    AdvanceCursor(hours, cursor, at, t);
    PassedAreAhead(hours, cursor, at, t);
    RemovedCount(Before(hours, cursor, t), Before(hours, cursor, at), at, n);
  }

  /** Publishing the first hours of the queue shortens the wait of every hour behind them by
      exactly their number. */
  lemma AttemptsShortenWait(c: Settings, now: nat, st1: Status, n: nat, t: nat, cursor: Option<nat>)
    requires ValidSettings(c) && n <= |Picks(c, now, st1)|
    requires st1.intervals.Keys == Grid(WindowStart(c, now), WindowEnd(c, now))
    requires t in Candidates(c, now, st1.intervals) && t !in Picks(c, now, st1)[..n]
    requires cursor == if n == 0 then st1.cursor else Some(Picks(c, now, st1)[n - 1])
    ensures |Before(Candidates(c, now, st1.intervals), cursor, t)| == |Before(Candidates(c, now, st1.intervals), st1.cursor, t)| - n
    ensures Above(st1.cursor, t) ==> Above(cursor, t)
  {
    if n > 0 {
      var queue := Queue(c, now, st1);
      QueueShape(c, now, st1);
      var i :| 0 <= i < |queue| && queue[i] == t;
      assert forall k :: 0 <= k < n ==> queue[k] == Picks(c, now, st1)[..n][k];
      VisitedShortenWait(queue, Candidates(c, now, st1.intervals), st1.cursor, n, i);
    }
  }

  /** The candidates of a later call were candidates before, or have arrived since. */
  lemma CandidatesLater(c: Settings, now: nat, later: nat, st1: Status, st2: Status, x: nat)
    requires ValidSettings(c) && now <= later
    requires st1.intervals.Keys == Grid(WindowStart(c, now), WindowEnd(c, now)) == st2.intervals.Keys
    requires x in st1.intervals ==> x in Candidates(c, now, st1.intervals) || st2.intervals[x] == st1.intervals[x]
    requires x in CandidatesAt(c, later, st2)
    ensures x in Candidates(c, now, st1.intervals) || x in Grid(WindowEnd(c, now), WindowEnd(c, later))
  {
    WindowMonotone(c, now, later);
    if x < WindowEnd(c, now) { assert x in st1.intervals; }
  }

  /** How hours that arrive beyond the window change the hours ahead of `t`. */
  lemma ArrivalsAhead(hours: set<nat>, hours2: set<nat>, arrived: set<nat>, cursor: Option<nat>, t: nat)
    requires hours2 <= hours + arrived && forall x :: x in arrived ==> x > t
    ensures |Before(hours2, cursor, t)| <= |Before(hours, cursor, t)| + if Above(cursor, t) then 0 else |arrived|
  {
    var ahead := Before(hours, cursor, t);
    if Above(cursor, t) {
      SubsetCount(Before(hours2, cursor, t), ahead);
    } else {
      SubsetCount(Before(hours2, cursor, t), ahead + arrived);
    }
  }

  lemma AttemptedAreCandidates(c: Settings, st: Status, cycle: Cycle)
    requires ValidSettings(c) && CycleFits(c, st, cycle)
    ensures forall x :: x in Attempted(c, st, cycle) ==> x in CandidatesAt(c, cycle.now, st)
  {
    var st1 := ScheduleStatus(c, cycle.now, st);
    QueueShape(c, cycle.now, st1);
    assert forall x :: x in Attempted(c, st, cycle) ==> x in Queue(c, cycle.now, st1);
  }

  lemma CycleCandidates(c: Settings, st: Status, cycle: Cycle, later: nat)
    requires ValidSettings(c) && CycleFits(c, st, cycle) && cycle.now <= later
    ensures CandidatesAt(c, later, AfterCycle(c, st, cycle))
         <= CandidatesAt(c, cycle.now, st) + Grid(WindowEnd(c, cycle.now), WindowEnd(c, later))
  {
    var st1, st' := ScheduleStatus(c, cycle.now, st), AfterCycle(c, st, cycle);
    AttemptedAreCandidates(c, st, cycle);
    PublishedAllEffect(st1, Attempted(c, st, cycle), cycle.outcomes);
    assert st'.intervals.Keys == st1.intervals.Keys;
    forall x | x in CandidatesAt(c, later, st')
      ensures x in CandidatesAt(c, cycle.now, st) || x in Grid(WindowEnd(c, cycle.now), WindowEnd(c, later))
    {
      CandidatesLater(c, cycle.now, later, st1, st', x);
    }
  }

  /** From one cycle to the next the wait of an hour that was not attempted shrinks by the number
      of hours that were published. Hours that arrive in between matter only to an hour the
      cursor has already passed. */
  lemma NextCycleRank(c: Settings, st: Status, cycle: Cycle, later: nat, t: nat)
    requires ValidSettings(c) && CycleFits(c, st, cycle) && cycle.now <= later
    requires t in CandidatesAt(c, cycle.now, st)
    requires t !in Attempted(c, st, cycle)
    ensures var st' := AfterCycle(c, st, cycle);
            && Rank(c, later, st', t) + |cycle.outcomes|
               <= Rank(c, cycle.now, st, t) + Arrivals(c, st, cycle.now, later, t)
            && (Above(st.cursor, t) ==> Above(st'.cursor, t))
  {
    CycleCursor(c, st, cycle);
    CycleShortensWait(c, st, cycle, t, AfterCycle(c, st, cycle).cursor);
    RankLater(c, st, cycle, later, t);
  }

  /** Where a cycle leaves the cursor. */
  lemma CycleCursor(c: Settings, st: Status, cycle: Cycle)
    requires CycleFits(c, st, cycle)
    ensures var n := |cycle.outcomes|;
            AfterCycle(c, st, cycle).cursor == if n == 0 then st.cursor else Some(CyclePicks(c, st, cycle)[n - 1])
  {
    PublishedAllCursor(ScheduleStatus(c, cycle.now, st), Attempted(c, st, cycle), cycle.outcomes);
  }

  lemma {:induction false} PublishedAllCursor(st: Status, hours: seq<nat>, outcomes: seq<bool>)
    requires |hours| == |outcomes|
    ensures PublishedAll(st, hours, outcomes).cursor == if hours == [] then st.cursor else Some(hours[|hours| - 1])
    decreases |hours|
  {
    if hours != [] { PublishedAllCursor(Published(st, hours[0], outcomes[0]), hours[1..], outcomes[1..]); }
  }

  /** A cycle shortens the wait of an hour it did not attempt by the number of hours it published. */
  lemma CycleShortensWait(c: Settings, st: Status, cycle: Cycle, t: nat, cursor: Option<nat>)
    requires ValidSettings(c) && CycleFits(c, st, cycle)
    requires t in CandidatesAt(c, cycle.now, st) && t !in Attempted(c, st, cycle)
    requires var n := |cycle.outcomes|; cursor == if n == 0 then st.cursor else Some(CyclePicks(c, st, cycle)[n - 1])
    ensures |Before(CandidatesAt(c, cycle.now, st), cursor, t)| == Rank(c, cycle.now, st, t) - |cycle.outcomes|
    ensures Above(st.cursor, t) ==> Above(cursor, t)
  {
    var st1 := ScheduleStatus(c, cycle.now, st);
    assert st1.cursor == st.cursor;
    AttemptsShortenWait(c, cycle.now, st1, |cycle.outcomes|, t, cursor);
  }

  /** Between two calls, only arrivals come between an hour and its turn. */
  lemma RankLater(c: Settings, st: Status, cycle: Cycle, later: nat, t: nat)
    requires ValidSettings(c) && CycleFits(c, st, cycle) && cycle.now <= later && t in CandidatesAt(c, cycle.now, st)
    ensures var st' := AfterCycle(c, st, cycle);
            Rank(c, later, st', t) <= |Before(CandidatesAt(c, cycle.now, st), st'.cursor, t)| + Arrivals(c, st', cycle.now, later, t)
  {
    var st' := AfterCycle(c, st, cycle);
    ArrivedCount(c, cycle.now, later);
    CycleCandidates(c, st, cycle, later);
    ArrivalsAhead(CandidatesAt(c, cycle.now, st), CandidatesAt(c, later, st'),
                  Grid(WindowEnd(c, cycle.now), WindowEnd(c, later)), st'.cursor, t);
  }

  lemma ArrivedCount(c: Settings, now: nat, later: nat)
    requires ValidSettings(c) && now <= later
    ensures |Grid(WindowEnd(c, now), WindowEnd(c, later))| == SatSub(WindowEnd(c, later), WindowEnd(c, now)) / HOUR
  {
    WindowMonotone(c, now, later);
    WindowShape(c, now);
    WindowShape(c, later);
    GridCount(WindowEnd(c, now), WindowEnd(c, later));
  }

  /** Hours that can overtake `t` between two scheduler calls. */
  function Arrivals(c: Settings, st: Status, now: nat, later: nat, t: nat): nat {
    if Above(st.cursor, t) then 0 else SatSub(WindowEnd(c, later), WindowEnd(c, now)) / HOUR
  }

  /*** Whole runs ***/

  ghost predicate Run(c: Settings, st: Status, cycles: seq<Cycle>)
    decreases |cycles|
  {
    cycles == [] ||
    (&& CycleFits(c, st, cycles[0])
     && (|cycles| > 1 ==> cycles[0].now <= cycles[1].now)
     && Run(c, AfterCycle(c, st, cycles[0]), cycles[1..]))
  }

  /** Hour `t` is a candidate of every scheduler call of the run. */
  ghost predicate StaysCandidate(c: Settings, st: Status, cycles: seq<Cycle>, t: nat)
    requires Run(c, st, cycles)
    decreases |cycles|
  {
    cycles == [] ||
    (&& t in CandidatesAt(c, cycles[0].now, st)
     && StaysCandidate(c, AfterCycle(c, st, cycles[0]), cycles[1..], t))
  }

  ghost predicate EverAttempted(c: Settings, st: Status, cycles: seq<Cycle>, t: nat)
    requires Run(c, st, cycles)
    decreases |cycles|
  {
    cycles != [] &&
    (t in Attempted(c, st, cycles[0]) || EverAttempted(c, AfterCycle(c, st, cycles[0]), cycles[1..], t))
  }

  ghost predicate AllComplete(c: Settings, st: Status, cycles: seq<Cycle>)
    requires Run(c, st, cycles)
    decreases |cycles|
  {
    cycles == [] ||
    (Complete(c, st, cycles[0]) && AllComplete(c, AfterCycle(c, st, cycles[0]), cycles[1..]))
  }

  function Publications(cycles: seq<Cycle>): nat {
    if cycles == [] then 0 else |cycles[0].outcomes| + Publications(cycles[1..])
  }

  /** Bounded overtaking, for every run with a nondecreasing clock, interrupted cycles included:
      before hour `t` is attempted, at most as many publications happen as there were candidates
      ahead of it, plus the hours that arrived while it waited behind the cursor. */
  lemma {:induction false} WaitBound(c: Settings, st: Status, cycles: seq<Cycle>, t: nat)
    requires ValidSettings(c) && cycles != [] && Run(c, st, cycles)
    requires StaysCandidate(c, st, cycles, t) && !EverAttempted(c, st, cycles, t)
    ensures Publications(cycles)
         <= Rank(c, cycles[0].now, st, t) + Arrivals(c, st, cycles[0].now, cycles[|cycles| - 1].now, t)
    decreases |cycles|
  {
    var st' := AfterCycle(c, st, cycles[0]);
    var rest := cycles[1..];
    if rest == [] {
      CycleCursor(c, st, cycles[0]);
      CycleShortensWait(c, st, cycles[0], t, st'.cursor);
    } else {
      WaitUnfolds(c, st, cycles, t);
      WaitBound(c, st', rest, t);
      NextCycleRank(c, st, cycles[0], rest[0].now, t);
      RunMonotone(c, st', rest);
      ArrivalsAdd(c, st, st', cycles[0].now, rest[0].now, rest[|rest| - 1].now, t);
    }
  }

  /** Arrivals add up over time. */
  lemma ArrivalsAdd(c: Settings, st: Status, st': Status, now: nat, later: nat, last: nat, t: nat)
    requires now <= later <= last && (Above(st.cursor, t) ==> Above(st'.cursor, t))
    ensures Arrivals(c, st, now, later, t) + Arrivals(c, st', later, last, t) <= Arrivals(c, st, now, last, t)
  {
    WindowMonotone(c, now, later);
    WindowMonotone(c, later, last);
  }

  lemma {:induction false} RunMonotone(c: Settings, st: Status, cycles: seq<Cycle>)
    requires cycles != [] && Run(c, st, cycles)
    ensures cycles[0].now <= cycles[|cycles| - 1].now
    decreases |cycles|
  {
    if |cycles| > 1 {
      RunMonotone(c, AfterCycle(c, st, cycles[0]), cycles[1..]);
    }
  }

  /** A complete cycle that passes a candidate over publishes a full share of hours. */
  lemma FullShare(c: Settings, st: Status, cycle: Cycle, t: nat)
    requires ValidSettings(c) && CycleFits(c, st, cycle) && Complete(c, st, cycle)
    requires t in CandidatesAt(c, cycle.now, st)
    requires t !in Attempted(c, st, cycle)
    ensures |cycle.outcomes| == c.perCycle
  {
    var st1 := ScheduleStatus(c, cycle.now, st);
    var queue := Queue(c, cycle.now, st1);
    QueueShape(c, cycle.now, st1);
    assert t in queue;
    assert queue[..|queue|] == queue;
    assert Attempted(c, st, cycle) == Picks(c, cycle.now, st1);
  }

  /** `n` cycles of `k` hours each. */
  function Shares(n: nat, k: nat): nat {
    if n == 0 then 0 else k + Shares(n - 1, k)
  }

  lemma {:induction false} SharesIsProduct(n: nat, k: nat)
    ensures Shares(n, k) == n * k
  {
    if n > 0 {
      SharesIsProduct(n - 1, k);
      assert (n - 1) * k + k == n * k;
    }
  }

  /** How many cycles of a run are complete; others fail, crash or are cut short. */
  ghost function CompleteCount(c: Settings, st: Status, cycles: seq<Cycle>): nat
    requires Run(c, st, cycles)
    decreases |cycles|
  {
    if cycles == [] then 0
    else (if Complete(c, st, cycles[0]) then 1 else 0) + CompleteCount(c, AfterCycle(c, st, cycles[0]), cycles[1..])
  }

  lemma {:induction false} AllCompleteCount(c: Settings, st: Status, cycles: seq<Cycle>)
    requires Run(c, st, cycles)
    ensures AllComplete(c, st, cycles) <==> CompleteCount(c, st, cycles) == |cycles|
    ensures CompleteCount(c, st, cycles) <= |cycles|
    decreases |cycles|
  {
    if cycles != [] { AllCompleteCount(c, AfterCycle(c, st, cycles[0]), cycles[1..]); }
  }

  /** What an undisturbed wait says about the first cycle, and about the rest. */
  lemma WaitUnfolds(c: Settings, st: Status, cycles: seq<Cycle>, t: nat)
    requires cycles != [] && Run(c, st, cycles)
    requires StaysCandidate(c, st, cycles, t) && !EverAttempted(c, st, cycles, t)
    ensures CycleFits(c, st, cycles[0])
    ensures t in CandidatesAt(c, cycles[0].now, st) && t !in Attempted(c, st, cycles[0])
    ensures var st' := AfterCycle(c, st, cycles[0]);
            Run(c, st', cycles[1..]) && StaysCandidate(c, st', cycles[1..], t) && !EverAttempted(c, st', cycles[1..], t)
  {
  }

  /** What a cycle owes a waiting hour: a full share if it is complete. */
  ghost function Share(c: Settings, st: Status, cycle: Cycle): nat {
    if Complete(c, st, cycle) then c.perCycle else 0
  }

  lemma ShareIsPaid(c: Settings, st: Status, cycle: Cycle, t: nat)
    requires ValidSettings(c) && CycleFits(c, st, cycle)
    requires t in CandidatesAt(c, cycle.now, st) && t !in Attempted(c, st, cycle)
    ensures |cycle.outcomes| >= Share(c, st, cycle)
  {
    if Complete(c, st, cycle) { FullShare(c, st, cycle, t); }
  }

  lemma {:induction false} CountUnfold(c: Settings, st: Status, cycles: seq<Cycle>)
    requires Run(c, st, cycles) && cycles != []
    ensures CycleFits(c, st, cycles[0]) && Run(c, AfterCycle(c, st, cycles[0]), cycles[1..])
    ensures CompleteCount(c, st, cycles)
         == CompleteCount(c, AfterCycle(c, st, cycles[0]), cycles[1..]) + if Complete(c, st, cycles[0]) then 1 else 0
  {
  }

  lemma {:induction false} SharesSucc(n: nat, k: nat)
    ensures Shares(n + 1, k) == Shares(n, k) + k
  {
  }

  lemma {:induction false} PublicationsUnfold(cycles: seq<Cycle>)
    requires cycles != []
    ensures Publications(cycles) == |cycles[0].outcomes| + Publications(cycles[1..])
  {
  }

  lemma AddShare(all: nat, first: nat, rest: nat, count: nat, less: nat, k: nat, complete: bool)
    requires all == first + rest && count == less + (if complete then 1 else 0)
    requires first >= (if complete then k else 0) && rest >= Shares(less, k)
    ensures all >= Shares(count, k)
  {
    SharesSucc(less, k);
  }

  /** The complete cycles of a wait publish a full share each; the others publish what they get through. */
  lemma {:induction false} CompleteCyclesPublish(c: Settings, st: Status, cycles: seq<Cycle>, t: nat)
    requires ValidSettings(c) && Run(c, st, cycles)
    requires StaysCandidate(c, st, cycles, t) && !EverAttempted(c, st, cycles, t)
    ensures Publications(cycles) >= Shares(CompleteCount(c, st, cycles), c.perCycle)
    decreases |cycles|
  {
    if cycles != [] {
      var st' := AfterCycle(c, st, cycles[0]);
      WaitUnfolds(c, st, cycles, t);
      ShareIsPaid(c, st, cycles[0], t);
      CountUnfold(c, st, cycles);
      PublicationsUnfold(cycles);
      CompleteCyclesPublish(c, st', cycles[1..], t);
      AddShare(Publications(cycles), |cycles[0].outcomes|, Publications(cycles[1..]), CompleteCount(c, st, cycles),
               CompleteCount(c, st', cycles[1..]), c.perCycle, Complete(c, st, cycles[0]));
    }
  }

  /** The candidates after the cursor up to and including `t`. */
  function Waiting(hours: set<nat>, cursor: Option<nat>, t: nat): set<nat> {
    set x | x in hours && Above(cursor, x) && x <= t
  }

  lemma WaitingCount(hours: set<nat>, cursor: Option<nat>, t: nat)
    requires Above(cursor, t) && t in hours
    ensures |Waiting(hours, cursor, t)| == |Before(hours, cursor, t)| + 1
  {
    assert Waiting(hours, cursor, t) == Before(hours, cursor, t) + {t};
  }

  lemma RankBound(hours: set<nat>, cursor: Option<nat>, t: nat)
    requires t in hours
    ensures |Before(hours, cursor, t)| < |hours|
  {
    assert t !in Before(hours, cursor, t);
    SubsetCount(Before(hours, cursor, t) + {t}, hours);
  }

  /** Progress above the cursor: with m candidates after the cursor up to `t`, hour `t` is attempted
      within ceil(m / perCycle) complete cycles, whatever arrives later, however many earlier hours stay
      incomplete, and however many cycles fail in between. */
  lemma RoundRobinProgress(c: Settings, st: Status, cycles: seq<Cycle>, t: nat)
    requires ValidSettings(c) && cycles != [] && Run(c, st, cycles)
    requires StaysCandidate(c, st, cycles, t) && Above(st.cursor, t)
    requires CompleteCount(c, st, cycles) * c.perCycle >= |Waiting(CandidatesAt(c, cycles[0].now, st), st.cursor, t)|
    ensures EverAttempted(c, st, cycles, t)
  {
    if !EverAttempted(c, st, cycles, t) {
      WaitBound(c, st, cycles, t);
      CompleteCyclesPublish(c, st, cycles, t);
      SharesIsProduct(CompleteCount(c, st, cycles), c.perCycle);
      WaitingCount(CandidatesAt(c, cycles[0].now, st), st.cursor, t);
    }
  }

  /** Progress in a fixed window: every one of n candidates is attempted within ceil(n / perCycle)
      complete cycles, wherever the cursor stands and however many cycles fail in between. */
  lemma FixedWindowProgress(c: Settings, st: Status, cycles: seq<Cycle>, t: nat)
    requires ValidSettings(c) && cycles != [] && Run(c, st, cycles)
    requires StaysCandidate(c, st, cycles, t)
    requires WindowEnd(c, cycles[0].now) == WindowEnd(c, cycles[|cycles| - 1].now)
    requires CompleteCount(c, st, cycles) * c.perCycle >= |CandidatesAt(c, cycles[0].now, st)|
    ensures EverAttempted(c, st, cycles, t)
  {
    if !EverAttempted(c, st, cycles, t) {
      WaitBound(c, st, cycles, t);
      CompleteCyclesPublish(c, st, cycles, t);
      SharesIsProduct(CompleteCount(c, st, cycles), c.perCycle);
      RankBound(CandidatesAt(c, cycles[0].now, st), st.cursor, t);
    }
  }

  /*** The hour that comes first ***/

  /** The next call at `now` puts hour `h` first. */
  ghost predicate First(c: Settings, now: nat, st: Status, h: nat) {
    var picks := Picks(c, now, ScheduleStatus(c, now, st));
    picks != [] && picks[0] == h
  }

  lemma HeadIff(list: seq<nat>, hours: set<nat>, cursor: Option<nat>, h: nat)
    requires InOrder(cursor, list) && forall x :: x in list <==> x in hours
    ensures list != [] && list[0] == h <==> h in hours && forall x :: x in hours && x != h ==> Precedes(cursor, h, x)
  {
    if list != [] && list[0] == h {
      forall x | x in hours && x != h ensures Precedes(cursor, h, x) {
        var k :| 0 <= k < |list| && list[k] == x;
      }
    }
    if h in hours {
      var k :| 0 <= k < |list| && list[k] == h;
      assert list[0] in hours;
    }
  }

  lemma FirstIff(c: Settings, now: nat, st: Status, h: nat)
    requires ValidSettings(c)
    ensures First(c, now, st, h) <==>
            h in CandidatesAt(c, now, st) && forall x :: x in CandidatesAt(c, now, st) && x != h ==> Precedes(st.cursor, h, x)
  {
    var st1 := ScheduleStatus(c, now, st);
    QueueShape(c, now, st1);
    HeadIff(Queue(c, now, st1), CandidatesAt(c, now, st), st.cursor, h);
  }

  /** An hour of the window is a candidate of a later call unless it leaves the window or, being resolved,
      the correction window. */
  predicate RemainsCandidate(c: Settings, now: nat, st: Status, h: nat) {
    WindowStart(c, now) <= h && (Flagged(st, h) ==> CorrectionStart(c, now) <= h)
  }

  lemma RemainsCandidateIff(c: Settings, now: nat, later: nat, st: Status, h: nat)
    requires ValidSettings(c) && now <= later && h in CandidatesAt(c, now, st)
    ensures var st1 := ScheduleStatus(c, now, st);
            h in CandidatesAt(c, later, st1) <==> RemainsCandidate(c, later, st1, h)
  {
    WindowMonotone(c, now, later);
  }

  lemma NewestArrives(c: Settings, now: nat, later: nat, st1: Status)
    requires ValidSettings(c) && WindowEnd(c, now) < WindowEnd(c, later)
    requires st1.intervals.Keys == Grid(WindowStart(c, now), WindowEnd(c, now))
    ensures var x := WindowEnd(c, later) - HOUR;
            WindowEnd(c, now) <= x && x in CandidatesAt(c, later, st1)
  {
    WindowShape(c, now);
    WindowShape(c, later);
    AlignedApart(WindowEnd(c, later), WindowEnd(c, now));
    AlignedApart(WindowEnd(c, later), WindowStart(c, later));
    var x := WindowEnd(c, later) - HOUR;
    assert Aligned(x);
    assert x in Grid(WindowStart(c, later), WindowEnd(c, later));
  }

  lemma UnmovedCandidates(c: Settings, now: nat, later: nat, st: Status, x: nat)
    requires ValidSettings(c) && now <= later && x in CandidatesAt(c, later, ScheduleStatus(c, now, st))
    ensures x in CandidatesAt(c, now, st) || (WindowEnd(c, now) <= x && WindowEnd(c, now) < WindowEnd(c, later))
  {
    var st1 := ScheduleStatus(c, now, st);
    CandidatesLater(c, now, later, st1, st1, x);
  }

  /** The rotation protects waiting hours only from hours that publish. When a cycle publishes nothing, the
      hour that came first comes first again exactly if it is still a candidate and no new hour goes
      ahead of it, which happens only once the cursor has passed it. */
  lemma StaysFirstIff(c: Settings, now: nat, later: nat, st: Status, h: nat)
    requires ValidSettings(c) && now <= later && First(c, now, st, h)
    requires st.cursor.Some? ==> st.cursor.value < WindowEnd(c, now)
    ensures var st1 := ScheduleStatus(c, now, st);
            First(c, later, st1, h) <==>
            RemainsCandidate(c, later, st1, h) && (Above(st.cursor, h) || WindowEnd(c, later) == WindowEnd(c, now))
  {
    var st1 := ScheduleStatus(c, now, st);
    FirstIff(c, now, st, h);
    FirstIff(c, later, st1, h);
    RemainsCandidateIff(c, now, later, st, h);
    WindowMonotone(c, now, later);
    if RemainsCandidate(c, later, st1, h) && (Above(st.cursor, h) || WindowEnd(c, later) == WindowEnd(c, now)) {
      forall x | x in CandidatesAt(c, later, st1) && x != h ensures Precedes(st.cursor, h, x) {
        UnmovedCandidates(c, now, later, st, x);
      }
    } else if RemainsCandidate(c, later, st1, h) {
      NewestArrives(c, now, later, st1);
    }
  }
}
