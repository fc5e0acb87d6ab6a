/** Comparison of client activity with the site's hourly WAN counters: when it is reported as
    compared, every hour of the window contributed exactly once. */
module WanReconciliation {
  import opened Common
  import opened Schedule

  /** A floating-point counter; rounding is not modelled. */
  datatype Counter = Finite(value: real) | NotFinite

  datatype WanRow = WanRow(time: Option<nat>, rx: Option<Counter>, tx: Option<Counter>)

  datatype Window = Window(start: nat, end: nat)

  /** `ActivityWindow::new` accepts only ordered whole hours. */
  function NewWindow(start: nat, end: nat): Option<Window> {
    if end <= start || !Aligned(start) || !Aligned(end) then None else Some(Window(start, end))
  }

  predicate ValidWindow(w: Window) {
    NewWindow(w.start, w.end) == Some(w)
  }

  /** A window is accepted exactly if it runs from one whole hour to a later one. */
  lemma NewWindowIff(start: nat, end: nat)
    ensures NewWindow(start, end).Some? <==> start < end && start % 3_600_000 == 0 && end % 3_600_000 == 0
    ensures NewWindow(start, end).Some? ==> NewWindow(start, end).value.start == start && NewWindow(start, end).value.end == end
  {
  }

  datatype Bucket = Bucket(hour: nat, rx: real, tx: real)

  /** Counters that are absent unless the comparison is complete. */
  datatype Compared = Compared(siteRx: real, siteTx: real, unmatchedRx: real, unmatchedTx: real)

  datatype Reconciliation = Reconciliation(hours: nat, expected: nat, compared: Option<Compared>)

  datatype WanError = InvalidOrDuplicateBucket

  /*** Rows ***/

  predicate OutOfWindow(w: Window, r: WanRow) {
    r.time.Some? && !(w.start <= r.time.value < w.end)
  }

  predicate Present(r: WanRow) {
    r.time.Some? && r.rx.Some? && r.tx.Some?
  }

  predicate Usable(r: WanRow) {
    && Present(r) && Aligned(r.time.value)
    && r.rx.value.Finite? && r.tx.value.Finite?
    && r.rx.value.value >= 0.0 && r.tx.value.value >= 0.0
  }

  function BucketOf(r: WanRow): Bucket
    requires Usable(r)
  {
    Bucket(r.time.value, r.rx.value.value, r.tx.value.value)
  }

  /** The buckets of the window, in the order of their rows. */
  function Buckets(w: Window, rows: seq<WanRow>): seq<Bucket> {
    if rows == [] then []
    else (if !OutOfWindow(w, rows[0]) && Usable(rows[0]) then [BucketOf(rows[0])] else []) + Buckets(w, rows[1..])
  }

  ghost predicate SomeMissing(w: Window, rows: seq<WanRow>) {
    exists r :: r in rows && !OutOfWindow(w, r) && !Present(r)
  }

  ghost predicate SomeUnusable(w: Window, rows: seq<WanRow>) {
    exists r :: r in rows && !OutOfWindow(w, r) && Present(r) && !Usable(r)
  }

  function HoursOf(buckets: seq<Bucket>): set<nat> {
    set b | b in buckets :: b.hour
  }

  predicate DistinctHours(buckets: seq<Bucket>) {
    forall i, j :: 0 <= i < j < |buckets| ==> buckets[i].hour != buckets[j].hour
  }

  function Sum(buckets: seq<Bucket>, f: Bucket -> real): real {
    if buckets == [] then 0.0 else f(buckets[0]) + Sum(buckets[1..], f)
  }

  const Rx := (b: Bucket) => b.rx
  const Tx := (b: Bucket) => b.tx

  lemma {:induction false} BucketsConcat(w: Window, a: seq<WanRow>, b: seq<WanRow>)
    ensures Buckets(w, a + b) == Buckets(w, a) + Buckets(w, b)
  {
    if a == [] {
      assert a + b == b;
    } else {
      assert (a + b)[1..] == a[1..] + b;
      BucketsConcat(w, a[1..], b);
    }
  }

  lemma {:induction false} SumSnoc(buckets: seq<Bucket>, b: Bucket, f: Bucket -> real)
    ensures Sum(buckets + [b], f) == Sum(buckets, f) + f(b)
  {
    if buckets == [] {
      assert [b][1..] == [];
    } else {
      assert (buckets + [b])[1..] == buckets[1..] + [b];
      SumSnoc(buckets[1..], b, f);
    }
  }

  lemma {:induction false} BucketsInWindow(w: Window, rows: seq<WanRow>)
    ensures forall b :: b in Buckets(w, rows) ==> w.start <= b.hour < w.end && Aligned(b.hour)
  {
    if rows != [] { BucketsInWindow(w, rows[1..]); }
  }

  lemma {:induction false} DistinctHoursCount(buckets: seq<Bucket>)
    requires DistinctHours(buckets)
    ensures |HoursOf(buckets)| == |buckets|
  {
    if buckets != [] {
      var front, last := buckets[..|buckets| - 1], buckets[|buckets| - 1];
      DistinctHoursCount(front);
      assert HoursOf(buckets) == HoursOf(front) + {last.hour};
    }
  }

  /*** The loop ***/

  /** The rows of the window, added up: which hours, whether a counter is missing, and the sums. */
  datatype Added = Added(hours: set<nat>, missing: bool, rx: real, tx: real)

  ghost predicate Progress(w: Window, rows: seq<WanRow>, acc: Added) {
    && RowsOk(w, rows)
    && acc.hours == HoursOf(Buckets(w, rows))
    && (acc.missing <==> SomeMissing(w, rows))
    && acc.rx == Sum(Buckets(w, rows), Rx) && acc.tx == Sum(Buckets(w, rows), Tx)
  }

  /** The effect of one row on the sums. */
  function AddRow(w: Window, acc: Added, r: WanRow): Added {
    if OutOfWindow(w, r) then acc
    else if !Usable(r) then acc.(missing := true)
    else Added(acc.hours + {r.time.value}, acc.missing, acc.rx + BucketOf(r).rx, acc.tx + BucketOf(r).tx)
  }

  predicate RowRefused(w: Window, acc: Added, r: WanRow) {
    !OutOfWindow(w, r) && Present(r) && (!Usable(r) || r.time.value in acc.hours)
  }

  lemma BucketsSnoc(w: Window, rows: seq<WanRow>, r: WanRow)
    ensures Buckets(w, rows + [r])
         == Buckets(w, rows) + if !OutOfWindow(w, r) && Usable(r) then [BucketOf(r)] else []
  {
    BucketsConcat(w, rows, [r]);
    assert [r][1..] == [] && Buckets(w, []) == [];
  }

  lemma FlagsSnoc(w: Window, rows: seq<WanRow>, r: WanRow)
    ensures SomeMissing(w, rows + [r]) <==> SomeMissing(w, rows) || (!OutOfWindow(w, r) && !Present(r))
    ensures SomeUnusable(w, rows + [r]) <==> SomeUnusable(w, rows) || (!OutOfWindow(w, r) && Present(r) && !Usable(r))
  {
    assert forall x :: x in rows + [r] <==> x in rows || x == r;
  }

  lemma HoursSnoc(buckets: seq<Bucket>, b: Bucket)
    ensures HoursOf(buckets + [b]) == HoursOf(buckets) + {b.hour}
    ensures DistinctHours(buckets + [b]) <==> DistinctHours(buckets) && b.hour !in HoursOf(buckets)
  {
    var all := buckets + [b];
    assert forall x :: x in all <==> x in buckets || x == b;
    forall i | 0 <= i < |buckets| ensures all[i] == buckets[i] && buckets[i].hour in HoursOf(buckets) {
      assert buckets[i] in buckets;
    }
    if b.hour in HoursOf(buckets) {
      var x :| x in buckets && x.hour == b.hour;
      var i :| 0 <= i < |buckets| && buckets[i] == x;
      assert all[i].hour == all[|buckets|].hour;
    }
    if DistinctHours(all) {
      assert forall i, j :: 0 <= i < j < |buckets| ==> all[i].hour != all[j].hour;
    }
  }

  lemma ProgressStep(w: Window, rows: seq<WanRow>, r: WanRow, acc: Added)
    requires Progress(w, rows, acc) && !RowRefused(w, acc, r)
    ensures Progress(w, rows + [r], AddRow(w, acc, r))
  {
    BucketsSnoc(w, rows, r);
    FlagsSnoc(w, rows, r);
    if !OutOfWindow(w, r) && Usable(r) {
      HoursSnoc(Buckets(w, rows), BucketOf(r));
      SumSnoc(Buckets(w, rows), BucketOf(r), Rx);
      SumSnoc(Buckets(w, rows), BucketOf(r), Tx);
    } else {
      assert Buckets(w, rows) + [] == Buckets(w, rows);
    }
  }

  /** The rows of the window are usable where present, and no hour comes twice. */
  ghost predicate RowsOk(w: Window, rows: seq<WanRow>) {
    !SomeUnusable(w, rows) && DistinctHours(Buckets(w, rows))
  }

  lemma RowsOkPrefix(w: Window, a: seq<WanRow>, b: seq<WanRow>)
    requires RowsOk(w, a + b)
    ensures RowsOk(w, a)
  {
    BucketsConcat(w, a, b);
    assert forall x :: x in a ==> x in a + b;
    var all := Buckets(w, a) + Buckets(w, b);
    assert forall i :: 0 <= i < |Buckets(w, a)| ==> Buckets(w, a)[i] == all[i];
  }

  lemma BadRow(w: Window, rows: seq<WanRow>, n: nat, acc: Added)
    requires n < |rows| && Progress(w, rows[..n], acc) && RowRefused(w, acc, rows[n])
    ensures !RowsOk(w, rows)
  {
    var r := rows[n];
    BucketsSnoc(w, rows[..n], r);
    FlagsSnoc(w, rows[..n], r);
    if Usable(r) { HoursSnoc(Buckets(w, rows[..n]), BucketOf(r)); }
    assert rows == (rows[..n] + [r]) + rows[n + 1..];
    if RowsOk(w, rows) { RowsOkPrefix(w, rows[..n] + [r], rows[n + 1..]); }
  }

  method AddUp(w: Window, rows: seq<WanRow>) returns (r: Result<Added, WanError>)
    ensures r.Ok? <==> RowsOk(w, rows)
    ensures r.Ok? ==> Progress(w, rows, r.value)
  {
    var acc := Added({}, false, 0.0, 0.0);
    for n := 0 to |rows|
      invariant Progress(w, rows[..n], acc)
    {
      var row := rows[n];
      assert rows[..n + 1] == rows[..n] + [row];
      if RowRefused(w, acc, row) {
        BadRow(w, rows, n, acc);
        return Err(InvalidOrDuplicateBucket);
      }
      ProgressStep(w, rows[..n], row, acc);
      acc := AddRow(w, acc, row);
    }
    assert rows[..|rows|] == rows;
    return Ok(acc);
  }

  /** Compares the rows of a window with the clients' total. The site counters are reported exactly
      when every hour of the window has its bucket, no counter is missing and the sums do not exceed the
      `largest` finite number; they are then the sums over the hours of the window, each once. */
  method Reconcile(w: Window, rows: seq<WanRow>, clientRx: nat, clientTx: nat, largest: real)
    returns (r: Result<Reconciliation, WanError>)
    requires ValidWindow(w)
    ensures r.Ok? <==> RowsOk(w, rows)
    ensures r.Ok? ==>
              var buckets := Buckets(w, rows);
              && r.value.expected == |Grid(w.start, w.end)|
              && r.value.hours == |buckets|
              && (r.value.compared.Some? <==>
                    && !SomeMissing(w, rows) && HoursOf(buckets) == Grid(w.start, w.end)
                    && Received(w.start, w.end, rows) <= largest && Transmitted(w.start, w.end, rows) <= largest)
              && (r.value.compared.Some? ==>
                    && r.value.compared.value.siteRx == Received(w.start, w.end, rows)
                    && r.value.compared.value.siteTx == Transmitted(w.start, w.end, rows)
                    && r.value.compared.value.unmatchedRx == Received(w.start, w.end, rows) - clientRx as real
                    && r.value.compared.value.unmatchedTx == Transmitted(w.start, w.end, rows) - clientTx as real)
  {
    var added := AddUp(w, rows);
    if added.Err? { return Err(added.error); }
    var Added(hours, missing, rx, tx) := added.value;
    var expected := (w.end - w.start) / HOUR;
    Coverage(w, rows);
    if !missing {
      PresentRowsUsable(w, rows);
      WindowCounters(w, rows, w.start);
    }
    var complete := !missing && |hours| == expected && rx <= largest && tx <= largest;
    return Ok(Reconciliation(|hours|, expected,
      if complete then Some(Compared(rx, tx, rx - clientRx as real, tx - clientTx as real)) else None));
  }

  /*** Coverage by counting ***/

  /** The counter of an hour, zero if it has no bucket. */
  function At(buckets: seq<Bucket>, hour: nat, f: Bucket -> real): real {
    if buckets == [] then 0.0
    else if buckets[0].hour == hour then f(buckets[0])
    else At(buckets[1..], hour, f)
  }

  /** The sum over the hours of a window, each visited once. */
  function HourSum(t: nat, end: nat, buckets: seq<Bucket>, f: Bucket -> real): real
    decreases end - t
  {
    if t >= end then 0.0 else At(buckets, t, f) + HourSum(t + HOUR, end, buckets, f)
  }

  lemma {:induction false} AtAbsent(buckets: seq<Bucket>, hour: nat, f: Bucket -> real)
    requires forall i :: 0 <= i < |buckets| ==> buckets[i].hour != hour
    ensures At(buckets, hour, f) == 0.0
  {
    if buckets != [] { AtAbsent(buckets[1..], hour, f); }
  }

  lemma {:induction false} HourSumEmpty(t: nat, end: nat, f: Bucket -> real)
    ensures HourSum(t, end, [], f) == 0.0
    decreases end - t
  {
    if t < end { HourSumEmpty(t + HOUR, end, f); }
  }

  /** One more bucket adds its counter to the hour sum, if its hour is visited. */
  lemma {:induction false} HourSumCons(t: nat, end: nat, b: Bucket, rest: seq<Bucket>, f: Bucket -> real)
    requires Aligned(t) && Aligned(b.hour) && b.hour < end
    requires forall i :: 0 <= i < |rest| ==> rest[i].hour != b.hour
    ensures HourSum(t, end, [b] + rest, f) == HourSum(t, end, rest, f) + if b.hour >= t then f(b) else 0.0
    decreases end - t
  {
    if t < end {
      HourSumCons(t + HOUR, end, b, rest, f);
      assert ([b] + rest)[1..] == rest;
      if b.hour == t { AtAbsent(rest, t, f); }
      if b.hour > t { AlignedApart(b.hour, t); }
    }
  }

  /** With distinct hours of the window, summing the buckets is summing the hours. */
  lemma {:induction false} SumIsHourSum(start: nat, end: nat, buckets: seq<Bucket>, f: Bucket -> real)
    requires Aligned(start) && DistinctHours(buckets)
    requires forall i :: 0 <= i < |buckets| ==> start <= buckets[i].hour < end && Aligned(buckets[i].hour)
    ensures Sum(buckets, f) == HourSum(start, end, buckets, f)
  {
    if buckets == [] {
      HourSumEmpty(start, end, f);
    } else {
      SumIsHourSum(start, end, buckets[1..], f);
      HourSumCons(start, end, buckets[0], buckets[1..], f);
      assert buckets == [buckets[0]] + buckets[1..];
    }
  }

  /** As many distinct hours of the window as the window has hours are all of them. */
  lemma FullByCount(hours: set<nat>, grid: set<nat>)
    requires hours <= grid
    ensures |hours| == |grid| <==> hours == grid
  {
    if |hours| == |grid| && hours != grid {
      var t :| t in grid && t !in hours;
      SubsetCount(hours + {t}, grid);
    }
  }

  lemma Coverage(w: Window, rows: seq<WanRow>)
    requires ValidWindow(w) && RowsOk(w, rows)
    ensures var buckets := Buckets(w, rows);
            && |HoursOf(buckets)| == |buckets|
            && (w.end - w.start) / HOUR == |Grid(w.start, w.end)|
            && (|HoursOf(buckets)| == |Grid(w.start, w.end)| <==> HoursOf(buckets) == Grid(w.start, w.end))
            && Sum(buckets, Rx) == HourSum(w.start, w.end, buckets, Rx)
            && Sum(buckets, Tx) == HourSum(w.start, w.end, buckets, Tx)
  {
    var buckets := Buckets(w, rows);
    BucketsInWindow(w, rows);
    DistinctHoursCount(buckets);
    GridCount(w.start, w.end);
    assert HoursOf(buckets) <= Grid(w.start, w.end);
    FullByCount(HoursOf(buckets), Grid(w.start, w.end));
    assert forall i :: 0 <= i < |buckets| ==> buckets[i] in buckets;
    SumIsHourSum(w.start, w.end, buckets, Rx);
    SumIsHourSum(w.start, w.end, buckets, Tx);
  }

  /*** The counters of the rows themselves ***/

  function Amount(counter: Option<Counter>): real {
    match counter
    case Some(Finite(value)) => value
    case _ => 0.0
  }

  /** What the rows report as received, and as transmitted, in one hour. */
  function ReceivedAt(rows: seq<WanRow>, hour: nat): real {
    if rows == [] then 0.0
    else (if rows[0].time == Some(hour) then Amount(rows[0].rx) else 0.0) + ReceivedAt(rows[1..], hour)
  }

  function TransmittedAt(rows: seq<WanRow>, hour: nat): real {
    if rows == [] then 0.0
    else (if rows[0].time == Some(hour) then Amount(rows[0].tx) else 0.0) + TransmittedAt(rows[1..], hour)
  }

  /** The same over the hours of a window. */
  function Received(start: nat, end: nat, rows: seq<WanRow>): real
    decreases end - start
  {
    if start >= end then 0.0 else ReceivedAt(rows, start) + Received(start + 3_600_000, end, rows)
  }

  function Transmitted(start: nat, end: nat, rows: seq<WanRow>): real
    decreases end - start
  {
    if start >= end then 0.0 else TransmittedAt(rows, start) + Transmitted(start + 3_600_000, end, rows)
  }

  /** Every row of the window is a bucket. */
  ghost predicate AllUsable(w: Window, rows: seq<WanRow>) {
    forall r :: r in rows && !OutOfWindow(w, r) ==> Usable(r)
  }

  lemma HeadBucket(w: Window, rows: seq<WanRow>)
    requires rows != [] && !OutOfWindow(w, rows[0]) && Usable(rows[0])
    ensures rows[0].time.value in HoursOf(Buckets(w, rows))
  {
    assert Buckets(w, rows)[0] == BucketOf(rows[0]);
    assert Buckets(w, rows)[0] in Buckets(w, rows);
  }

  lemma {:induction false} AbsentHour(w: Window, rows: seq<WanRow>, hour: nat)
    requires AllUsable(w, rows) && w.start <= hour < w.end && hour !in HoursOf(Buckets(w, rows))
    ensures ReceivedAt(rows, hour) == 0.0 && TransmittedAt(rows, hour) == 0.0
  {
    if rows != [] {
      var buckets := Buckets(w, rows);
      assert rows[0] in rows;
      if !OutOfWindow(w, rows[0]) { HeadBucket(w, rows); }
      assert forall b :: b in Buckets(w, rows[1..]) ==> b in buckets;
      AbsentHour(w, rows[1..], hour);
    }
  }

  /** The bucket of an hour holds what the rows report for it. */
  lemma {:induction false} BucketCounters(w: Window, rows: seq<WanRow>, hour: nat)
    requires AllUsable(w, rows) && DistinctHours(Buckets(w, rows)) && w.start <= hour < w.end
    ensures At(Buckets(w, rows), hour, Rx) == ReceivedAt(rows, hour)
    ensures At(Buckets(w, rows), hour, Tx) == TransmittedAt(rows, hour)
  {
    if rows != [] {
      var buckets, rest := Buckets(w, rows), Buckets(w, rows[1..]);
      assert rows[0] in rows;
      if OutOfWindow(w, rows[0]) {
        assert buckets == rest;
      } else {
        assert buckets[0] == BucketOf(rows[0]) && buckets[1..] == rest;
        assert forall i :: 0 <= i < |rest| ==> rest[i] == buckets[i + 1];
        if rows[0].time == Some(hour) { AbsentHour(w, rows[1..], hour); }
      }
      BucketCounters(w, rows[1..], hour);
    }
  }

  lemma {:induction false} WindowCounters(w: Window, rows: seq<WanRow>, t: nat)
    requires AllUsable(w, rows) && DistinctHours(Buckets(w, rows)) && w.start <= t
    ensures HourSum(t, w.end, Buckets(w, rows), Rx) == Received(t, w.end, rows)
    ensures HourSum(t, w.end, Buckets(w, rows), Tx) == Transmitted(t, w.end, rows)
    decreases w.end - t
  {
    if t < w.end {
      BucketCounters(w, rows, t);
      WindowCounters(w, rows, t + HOUR);
    }
  }

  lemma PresentRowsUsable(w: Window, rows: seq<WanRow>)
    requires RowsOk(w, rows) && !SomeMissing(w, rows)
    ensures AllUsable(w, rows)
  {
  }

  /*** What is refused ***/

  /** The row lies in the window and has both counters. */
  predicate Reports(w: Window, r: WanRow) {
    && r.time.Some? && w.start <= r.time.value < w.end && r.rx.Some? && r.tx.Some?
  }

  predicate GoodCounter(counter: Counter) {
    counter.Finite? && counter.value >= 0.0
  }

  lemma {:induction false} BucketHours(w: Window, rows: seq<WanRow>)
    requires forall r :: r in rows && Reports(w, r) ==> Usable(r)
    ensures forall t :: t in HoursOf(Buckets(w, rows)) <==> exists i :: 0 <= i < |rows| && Reports(w, rows[i]) && rows[i].time.value == t
  {
    if rows != [] {
      var rest := Buckets(w, rows[1..]);
      assert rows[0] in rows;
      BucketHours(w, rows[1..]);
      forall t ensures t in HoursOf(Buckets(w, rows)) <==> (Reports(w, rows[0]) && rows[0].time.value == t) || t in HoursOf(rest) {
        if t in HoursOf(rest) {
          var b :| b in rest && b.hour == t;
          assert b in Buckets(w, rows);
        }
        if Reports(w, rows[0]) && rows[0].time.value == t { assert Buckets(w, rows)[0].hour == t && Buckets(w, rows)[0] in Buckets(w, rows); }
      }
      assert forall i :: 0 < i < |rows| ==> rows[i] == rows[1..][i - 1];
    }
  }

  /** No hour is reported twice. */
  predicate Apart(w: Window, rows: seq<WanRow>) {
    forall i, j :: 0 <= i < j < |rows| && Reports(w, rows[i]) && Reports(w, rows[j]) ==> rows[i].time != rows[j].time
  }

  lemma ApartSnoc(w: Window, front: seq<WanRow>, last: WanRow)
    ensures Apart(w, front + [last]) <==>
            && Apart(w, front)
            && (Reports(w, last) ==> forall i :: 0 <= i < |front| && Reports(w, front[i]) ==> front[i].time != last.time)
  {
    var rows := front + [last];
    assert rows[|front|] == last && forall i :: 0 <= i < |front| ==> rows[i] == front[i];
    if Apart(w, rows) {
      forall i, j | 0 <= i < j < |front| && Reports(w, front[i]) && Reports(w, front[j]) ensures front[i].time != front[j].time {
        assert rows[i] == front[i] && rows[j] == front[j];
      }
    }
  }

  lemma {:induction false} DistinctIff(w: Window, rows: seq<WanRow>)
    requires forall r :: r in rows && Reports(w, r) ==> Usable(r)
    ensures DistinctHours(Buckets(w, rows)) <==> Apart(w, rows)
  {
    if rows != [] {
      var front, last := rows[..|rows| - 1], rows[|rows| - 1];
      assert rows == front + [last] && last in rows;
      DistinctIff(w, front);
      BucketHours(w, front);
      BucketsSnoc(w, front, last);
      ApartSnoc(w, front, last);
      if Reports(w, last) {
        HoursSnoc(Buckets(w, front), BucketOf(last));
      } else {
        assert Buckets(w, front) + [] == Buckets(w, front);
      }
    }
  }

  /** The rows are accepted exactly when every reported counter of the window is finite and not negative, its time is a
      whole hour, and no hour is reported twice. */
  lemma AcceptedIff(w: Window, rows: seq<WanRow>)
    ensures RowsOk(w, rows) <==>
            && (forall r :: r in rows && Reports(w, r) ==>
                  r.time.value % 3_600_000 == 0 && GoodCounter(r.rx.value) && GoodCounter(r.tx.value))
            && Apart(w, rows)
  {
    assert forall r :: Reports(w, r) <==> !OutOfWindow(w, r) && Present(r);
    if forall r :: r in rows && Reports(w, r) ==> Usable(r) { DistinctIff(w, rows); }
  }

  /** The whole hour is reported by a row. */
  ghost predicate Reported(w: Window, rows: seq<WanRow>, t: nat) {
    exists i :: 0 <= i < |rows| && Reports(w, rows[i]) && rows[i].time.value == t
  }

  lemma HoursReported(w: Window, rows: seq<WanRow>)
    requires RowsOk(w, rows)
    ensures forall t :: t in HoursOf(Buckets(w, rows)) <==> Reported(w, rows, t)
  {
    AcceptedIff(w, rows);
    BucketHours(w, rows);
  }

  /** The comparison is complete exactly when every row is outside the window or reports both counters, and every whole
      hour of the window is reported. */
  lemma CompleteIff(w: Window, rows: seq<WanRow>)
    requires RowsOk(w, rows)
    ensures !SomeMissing(w, rows) <==>
            forall r :: r in rows ==> Reports(w, r) || (r.time.Some? && (r.time.value < w.start || r.time.value >= w.end))
    ensures HoursOf(Buckets(w, rows)) == Grid(w.start, w.end) <==>
            forall t :: w.start <= t < w.end && t % 3_600_000 == 0 ==> Reported(w, rows, t)
  {
    HoursReported(w, rows);
    BucketsInWindow(w, rows);
    var hours := HoursOf(Buckets(w, rows));
    assert hours <= Grid(w.start, w.end);
    if forall t :: w.start <= t < w.end && t % 3_600_000 == 0 ==> Reported(w, rows, t) {
      forall t | t in Grid(w.start, w.end) ensures t in hours {
        assert Reported(w, rows, t);
      }
    } else {
      var t :| w.start <= t < w.end && t % 3_600_000 == 0 && !Reported(w, rows, t);
      assert t in Grid(w.start, w.end) && t !in hours;
    }
  }
}
