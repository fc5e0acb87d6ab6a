/** Time-keyset paging of Protect events: one page of a newest-first response, and the walk that
    follows continuations to the end of a window. */
module ProtectEvents {
  import opened Common

  const MAXIMUM_PAGE_LIMIT: nat := 999
  const MAXIMUM_ID_BYTES: nat := 256

  datatype Event = Event(id: string, start: nat)

  datatype Page = Page(events: seq<Event>, scanned: nat, next: Option<nat>)

  datatype PageError = InvalidId | PastEnd | NotNewestFirst | TooManyRows | NoContinuation | GroupExceedsLimit
                     | StartAfterEnd | BadLimit | BadContinuation

  /*** One page ***/

  predicate IdOk(e: Event) {
    0 < |e.id| <= MAXIMUM_ID_BYTES
  }

  predicate NewestFirst(events: seq<Event>) {
    forall i, j :: 0 <= i < j < |events| ==> events[i].start >= events[j].start
  }

  /** The checks every response must pass. */
  predicate Acceptable(end: nat, limit: nat, events: seq<Event>) {
    && (forall i :: 0 <= i < |events| ==> IdOk(events[i]) && events[i].start <= end)
    && NewestFirst(events)
    && |events| <= limit + 1
  }

  /** Rows of a time range, in their order. */
  function Within(events: seq<Event>, low: nat, high: nat): seq<Event> {
    if events == [] then []
    else (if low <= events[0].start <= high then [events[0]] else []) + Within(events[1..], low, high)
  }

  /** The first check that a response fails. */
  function Problem(end: nat, limit: nat, events: seq<Event>): Option<PageError> {
    if exists i :: 0 <= i < |events| && !IdOk(events[i]) then Some(InvalidId)
    else if exists i :: 0 <= i < |events| && events[i].start > end then Some(PastEnd)
    else if !NewestFirst(events) then Some(NotNewestFirst)
    else if |events| > limit + 1 then Some(TooManyRows)
    else None
  }

  /** The lookahead row is in the window: more rows may follow this page. */
  predicate MoreFollow(start: nat, limit: nat, events: seq<Event>) {
    |events| == limit + 1 && events[limit].start >= start
  }

  /** The inclusive upper time key of the next page: the key of a group that the page would split,
      else the instant before the last row. */
  function NextEnd(limit: nat, events: seq<Event>): int
    requires 0 < limit < |events|
  {
    if events[limit - 1].start == events[limit].start then events[limit].start else events[limit - 1].start - 1
  }

  /** The page an acceptable response gives. */
  function PageOf(start: nat, end: nat, limit: nat, events: seq<Event>): Result<Page, PageError>
    requires limit > 0 && Acceptable(end, limit, events)
  {
    var scanned := Min(limit, |events|);
    if !MoreFollow(start, limit, events) then Ok(Page(Within(events[..scanned], start, end), scanned, None))
    else
      var next := NextEnd(limit, events);
      if next < 0 || events[0].start <= next then Err(GroupExceedsLimit)
      else Ok(Page(Within(events[..scanned], next + 1, end), scanned, Some(next)))
  }

  function Finish(start: nat, end: nat, limit: nat, events: seq<Event>): Result<Page, PageError> {
    var problem := Problem(end, limit, events);
    if problem.Some? then Err(problem.value)
    else if limit > 0 then PageOf(start, end, limit, events)
    else if MoreFollow(start, limit, events) then Err(NoContinuation)
    else Ok(Page([], 0, None))
  }

  /** One call: the request is validated before the controller is asked. */
  function Call(start: nat, end: nat, limit: nat, continuation: Option<nat>, response: seq<Event>): Result<Page, PageError> {
    if start > end then Err(StartAfterEnd)
    else if !(1 <= limit <= MAXIMUM_PAGE_LIMIT) then Err(BadLimit)
    else if continuation.Some? && (continuation.value < start || continuation.value > end) then Err(BadContinuation)
    else Finish(start, RequestEnd(end, continuation), limit, response)
  }

  function RequestEnd(end: nat, continuation: Option<nat>): nat {
    if continuation.Some? then continuation.value else end
  }

  lemma {:induction false} WithinAll(events: seq<Event>, low: nat, high: nat)
    requires forall i :: 0 <= i < |events| ==> low <= events[i].start <= high
    ensures Within(events, low, high) == events
  {
    if events != [] { WithinAll(events[1..], low, high); }
  }

  lemma {:induction false} WithinNone(events: seq<Event>, low: nat, high: nat)
    requires forall i :: 0 <= i < |events| ==> !(low <= events[i].start <= high)
    ensures Within(events, low, high) == []
  {
    if events != [] { WithinNone(events[1..], low, high); }
  }

  lemma {:induction false} WithinConcat(a: seq<Event>, b: seq<Event>, low: nat, high: nat)
    ensures Within(a + b, low, high) == Within(a, low, high) + Within(b, low, high)
  {
    if a == [] {
      assert a + b == b;
    } else {
      assert (a + b)[1..] == a[1..] + b;
      WithinConcat(a[1..], b, low, high);
    }
  }

  /** A newest-first list cut at the first row older than `low`. */
  lemma WithinPrefix(events: seq<Event>, n: nat, low: nat, high: nat)
    requires NewestFirst(events) && n <= |events|
    requires forall i :: 0 <= i < n ==> low <= events[i].start <= high
    requires n < |events| ==> events[n].start < low
    ensures Within(events, low, high) == events[..n]
  {
    var head, tail := events[..n], events[n..];
    assert events == head + tail;
    OlderTail(events, n, low);
    WithinAll(head, low, high);
    WithinNone(tail, low, high);
    WithinConcat(head, tail, low, high);
  }

  lemma OlderTail(events: seq<Event>, n: nat, low: nat)
    requires NewestFirst(events) && n <= |events| && (n < |events| ==> events[n].start < low)
    ensures forall i :: 0 <= i < |events[n..]| ==> events[n..][i].start < low
  {
    forall i | 0 <= i < |events[n..]| ensures events[n..][i].start < low {
      assert events[n..][i] == events[n + i];
      assert i > 0 ==> events[n].start >= events[n + i].start;
    }
  }

  /** The checks of a response, in order. */
  method CheckResponse(end: nat, limit: nat, events: seq<Event>) returns (problem: Option<PageError>)
    ensures problem == Problem(end, limit, events)
    ensures problem.None? <==> Acceptable(end, limit, events)
  {
    for i := 0 to |events|
      invariant forall k :: 0 <= k < i ==> IdOk(events[k])
    {
      if !IdOk(events[i]) { return Some(InvalidId); }
    }
    for i := 0 to |events|
      invariant forall k :: 0 <= k < i ==> events[k].start <= end
    {
      if events[i].start > end { return Some(PastEnd); }
    }
    for i := 0 to |events|
      invariant forall j, k :: 0 <= j < k < i ==> events[j].start >= events[k].start
    {
      if i > 0 && events[i - 1].start < events[i].start { return Some(NotNewestFirst); }
    }
    return if |events| > limit + 1 then Some(TooManyRows) else None;
  }

  /** Drops the rows of the last group; they belong to the next page. */
  method DropGroup(rows: seq<Event>, boundary: nat, end: nat) returns (events: seq<Event>)
    requires rows != [] && NewestFirst(rows) && rows[|rows| - 1].start == boundary
    requires forall i :: 0 <= i < |rows| ==> rows[i].start <= end
    ensures events == Within(rows, boundary + 1, end)
    ensures events == [] <==> rows[0].start == boundary
  {
    events := rows;
    while events != [] && events[|events| - 1].start == boundary
      invariant |events| <= |rows| && events == rows[..|events|]
      invariant forall k :: |events| <= k < |rows| ==> rows[k].start == boundary
    {
      events := events[..|events| - 1];
    }
    WithinPrefix(rows, |events|, boundary + 1, end);
  }

  /** The first row older than the window, or the number of rows. */
  method FirstOlder(events: seq<Event>, start: nat, end: nat) returns (n: nat)
    requires NewestFirst(events) && forall i :: 0 <= i < |events| ==> events[i].start <= end
    ensures n <= |events| && Within(events, start, end) == events[..n]
    ensures n < |events| ==> events[n].start < start
    ensures forall k :: 0 <= k < n ==> events[k].start >= start
  {
    n := 0;
    while n < |events| && events[n].start >= start
      invariant n <= |events|
      invariant forall k :: 0 <= k < n ==> events[k].start >= start
    {
      n := n + 1;
    }
    WithinPrefix(events, n, start, end);
  }

  /** The page whose last row is followed by a lookahead row in the window. */
  method ContinuePage(start: nat, end: nat, limit: nat, response: seq<Event>) returns (r: Result<Page, PageError>)
    requires limit > 0 && Acceptable(end, limit, response) && MoreFollow(start, limit, response)
    ensures r == PageOf(start, end, limit, response)
  {
    var events := response[..limit];
    var boundary := events[limit - 1].start;
    if boundary == response[limit].start {
      events := DropGroup(events, boundary, end);
      if events == [] { return Err(GroupExceedsLimit); }
      return Ok(Page(events, limit, Some(boundary)));
    }
    WithinAll(events, boundary, end);
    return Ok(Page(events, limit, Some(boundary - 1)));
  }

  /** Turns one response into a page: drops the lookahead row, stops at the window's start, and never
      splits a group of equal timestamps. The guard against underflow of the time key is not
      needed: a boundary above the lookahead row is at least one. */
  method FinishPage(start: nat, end: nat, limit: nat, response: seq<Event>) returns (r: Result<Page, PageError>)
    ensures r == Finish(start, end, limit, response)
  {
    var problem := CheckResponse(end, limit, response);
    if problem.Some? { return Err(problem.value); }
    var scanned := Min(limit, |response|);
    var events := response[..scanned];
    var older := FirstOlder(events, start, end);
    if older < |events| {
      return Ok(Page(events[..older], scanned, None));
    }
    assert events[..older] == events;
    if |response| <= limit || response[limit].start < start {
      return Ok(Page(events, scanned, None));
    }
    if events == [] { return Err(NoContinuation); }
    r := ContinuePage(start, end, limit, response);
  }

  /*** What every accepted page promises, whoever answered ***/

  /** The part of the window that a page covers starts here. */
  function PageFrom(start: nat, page: Page): nat {
    if page.next.Some? then page.next.value + 1 else start
  }

  /** A page is the part of the response from its lower end on, and the lookahead row is below it. */
  lemma PageShape(start: nat, end: nat, limit: nat, response: seq<Event>)
    requires limit > 0 && Acceptable(end, limit, response)
    ensures var r := PageOf(start, end, limit, response);
            r.Ok? ==>
              && r.value.scanned == Min(limit, |response|)
              && r.value.events == Within(response[..Min(limit, |response|)], PageFrom(start, r.value), end)
              && PageFrom(start, r.value) >= start
              && (|response| > limit ==> response[limit].start < PageFrom(start, r.value))
  {
    if |response| > limit {
      assert response[limit - 1].start >= response[limit].start;
    }
  }

  lemma NextBounds(start: nat, end: nat, limit: nat, response: seq<Event>)
    requires limit > 0 && Acceptable(end, limit, response)
    ensures var r := PageOf(start, end, limit, response);
            r.Ok? && r.value.next.Some? ==> start <= r.value.next.value < end && r.value.events != []
  {
    var r := PageOf(start, end, limit, response);
    if r.Ok? && r.value.next.Some? {
      assert response[limit - 1].start >= response[limit].start;
      WithinHead(response[..limit], r.value.next.value + 1, end);
    }
  }

  lemma NewestTake(events: seq<Event>, n: nat)
    requires NewestFirst(events) && n <= |events|
    ensures NewestFirst(events[..n]) && forall e :: e in events[..n] ==> e in events
  {
  }

  lemma PageRows(start: nat, end: nat, limit: nat, response: seq<Event>)
    requires limit > 0 && Acceptable(end, limit, response)
    ensures var r := PageOf(start, end, limit, response);
            r.Ok? ==>
              && |r.value.events| <= r.value.scanned <= limit
              && NewestFirst(r.value.events)
              && forall e :: e in r.value.events ==> e in response && PageFrom(start, r.value) <= e.start <= end
  {
    var r := PageOf(start, end, limit, response);
    if r.Ok? {
      var scanned := Min(limit, |response|);
      PageShape(start, end, limit, response);
      NewestTake(response, scanned);
      WithinMembers(response[..scanned], PageFrom(start, r.value), end);
      WithinNewest(response[..scanned], PageFrom(start, r.value), end);
    }
  }

  /** Progress: a continuation lies in the window and strictly below the request, so the next call
      accepts it; its page is not empty; and every row is in the window, above the continuation,
      newest first. */
  lemma PagePromises(start: nat, end: nat, limit: nat, continuation: Option<nat>, response: seq<Event>)
    ensures var r := Call(start, end, limit, continuation, response);
            r.Ok? ==>
              && (r.value.next.Some? ==>
                    start <= r.value.next.value < RequestEnd(end, continuation) <= end && r.value.events != [])
              && |r.value.events| <= r.value.scanned <= limit
              && NewestFirst(r.value.events)
              && forall e :: e in r.value.events ==>
                   e in response && PageFrom(start, r.value) <= e.start <= RequestEnd(end, continuation)
  {
    if Call(start, end, limit, continuation, response).Ok? {
      NextBounds(start, RequestEnd(end, continuation), limit, response);
      PageRows(start, RequestEnd(end, continuation), limit, response);
    }
  }

  lemma {:induction false} WithinMembers(events: seq<Event>, low: nat, high: nat)
    ensures |Within(events, low, high)| <= |events|
    ensures forall e :: e in Within(events, low, high) <==> e in events && low <= e.start <= high
  {
    if events != [] { WithinMembers(events[1..], low, high); }
  }

  lemma NewestTail(events: seq<Event>)
    requires NewestFirst(events) && events != []
    ensures NewestFirst(events[1..]) && forall e :: e in events[1..] ==> events[0].start >= e.start
  {
  }

  lemma NewestCons(e: Event, rest: seq<Event>)
    requires NewestFirst(rest) && forall x :: x in rest ==> e.start >= x.start
    ensures NewestFirst([e] + rest)
  {
    assert forall i :: 0 <= i < |rest| ==> rest[i] in rest;
  }

  lemma {:induction false} WithinNewest(events: seq<Event>, low: nat, high: nat)
    requires NewestFirst(events)
    ensures NewestFirst(Within(events, low, high))
  {
    if events != [] {
      NewestTail(events);
      WithinNewest(events[1..], low, high);
      WithinMembers(events[1..], low, high);
      NewestCons(events[0], Within(events[1..], low, high));
      assert [] + Within(events[1..], low, high) == Within(events[1..], low, high);
    }
  }

  lemma WithinKeeps(events: seq<Event>, low: nat, high: nat)
    ensures |Within(events, low, high)| <= |events|
    ensures forall e :: e in Within(events, low, high) <==> e in events && low <= e.start <= high
    ensures NewestFirst(events) ==> NewestFirst(Within(events, low, high))
  {
    WithinMembers(events, low, high);
    if NewestFirst(events) { WithinNewest(events, low, high); }
  }

  lemma WithinHead(events: seq<Event>, low: nat, high: nat)
    requires events != [] && low <= events[0].start <= high
    ensures Within(events, low, high) != []
  {
  }

  /** The boundary error occurs exactly when the newest remaining group has more rows than the limit. */
  lemma BoundaryError(start: nat, end: nat, limit: nat, response: seq<Event>)
    requires limit > 0 && Acceptable(end, limit, response)
    ensures PageOf(start, end, limit, response) == Err(GroupExceedsLimit)
       <==> |response| == limit + 1 && response[limit].start == response[0].start && response[0].start >= start
    ensures PageOf(start, end, limit, response).Err? ==> PageOf(start, end, limit, response) == Err(GroupExceedsLimit)
  {
    if |response| == limit + 1 {
      assert response[0].start >= response[limit].start;
      assert limit > 1 ==> response[0].start >= response[limit - 1].start >= response[limit].start;
    }
  }

  lemma {:induction false} NewestIff(events: seq<Event>)
    ensures NewestFirst(events) <==> forall i :: 0 < i < |events| ==> events[i - 1].start >= events[i].start
  {
    if |events| > 1 {
      NewestIff(events[1..]);
      if forall i :: 0 < i < |events| ==> events[i - 1].start >= events[i].start {
        forall i | 0 < i < |events[1..]| ensures events[1..][i - 1].start >= events[1..][i].start {
          assert events[i].start >= events[i + 1].start;
        }
        assert events[0].start >= events[1].start;
        forall j | 1 < j < |events| ensures events[1].start >= events[j].start {
          assert events[1..][0].start >= events[1..][j - 1].start;
        }
        NewestCons(events[0], events[1..]);
        assert events == [events[0]] + events[1..];
      }
    }
  }

  /** Which requests are refused before the controller is asked. */
  lemma RequestRefusedIff(start: nat, end: nat, limit: nat, continuation: Option<nat>, response: seq<Event>)
    ensures var r := Call(start, end, limit, continuation, response);
            && (r == Err(StartAfterEnd) <==> start > end)
            && (r == Err(BadLimit) <==> start <= end && (limit < 1 || limit > 999))
            && (r == Err(BadContinuation) <==>
                  start <= end && 1 <= limit <= 999 && continuation.Some? && !(start <= continuation.value <= end))
  {
  }

  /** Which responses are refused: exactly those with an id that is empty or longer than 256 bytes, a row newer than the
      request, rows out of order, more rows than asked for, or a newest group that fills the page and more. */
  lemma ResponseRefusedIff(start: nat, end: nat, limit: nat, continuation: Option<nat>, response: seq<Event>)
    requires start <= end && 1 <= limit <= 999 && (continuation.Some? ==> start <= continuation.value <= end)
    ensures var newest := if continuation.Some? then continuation.value else end;
            Call(start, end, limit, continuation, response).Ok? <==>
            && (forall i :: 0 <= i < |response| ==> 1 <= |response[i].id| <= 256 && response[i].start <= newest)
            && (forall i :: 0 < i < |response| ==> response[i - 1].start >= response[i].start)
            && |response| <= limit + 1
            && !(|response| == limit + 1 && response[limit].start == response[0].start >= start)
  {
    NewestIff(response);
    if Acceptable(RequestEnd(end, continuation), limit, response) {
      BoundaryError(start, RequestEnd(end, continuation), limit, response);
    }
  }

  /*** The walk ***/

  /** What the controller stores: newest first, with usable ids. */
  predicate Store(events: seq<Event>) {
    NewestFirst(events) && forall i :: 0 <= i < |events| ==> IdOk(events[i])
  }

  /** An honest answer: the first rows up to `end`, whether or not older rows than the window's
      start, from `low` on, are included. */
  function Respond(store: seq<Event>, low: nat, end: nat, count: nat): seq<Event> {
    var rows := Within(store, low, end);
    rows[..Min(count, |rows|)]
  }

  lemma RespondAcceptable(store: seq<Event>, low: nat, end: nat, limit: nat)
    requires Store(store)
    ensures Acceptable(end, limit, Respond(store, low, end, limit + 1))
  {
    WithinKeeps(store, low, end);
    var rows := Within(store, low, end);
    assert forall i :: 0 <= i < |rows| ==> rows[i] in rows;
  }

  /** The successive states of the store, and how far below the window each answer reaches. */
  datatype Controller = Controller(stores: nat -> seq<Event>, lows: nat -> nat)

  ghost predicate Honest(c: Controller, start: nat) {
    forall i: nat :: Store(c.stores(i)) && c.lows(i) <= start
  }

  function Answer(c: Controller, i: nat, end: nat, limit: nat): seq<Event> {
    Respond(c.stores(i), c.lows(i), end, limit + 1)
  }

  /** A continuation lies strictly below the request that returned it. */
  lemma NextSmaller(start: nat, end: nat, limit: nat, continuation: Option<nat>, response: seq<Event>)
    ensures var r := Call(start, end, limit, continuation, response);
            r.Ok? && r.value.next.Some? ==> start <= r.value.next.value < RequestEnd(end, continuation) <= end
  {
    PagePromises(start, end, limit, continuation, response);
  }

  /** Follows continuations from page `i` on and concatenates the pages. */
  function Walk(c: Controller, start: nat, end: nat, limit: nat, continuation: Option<nat>, i: nat): Result<seq<Event>, PageError>
    decreases RequestEnd(end, continuation)
  {
    var r := Call(start, end, limit, continuation, Answer(c, i, RequestEnd(end, continuation), limit));
    if r.Err? then Err(r.error)
    else if r.value.next.None? then Ok(r.value.events)
    else
      NextSmaller(start, end, limit, continuation, Answer(c, i, RequestEnd(end, continuation), limit));
      var rest := Walk(c, start, end, limit, r.value.next, i + 1);
      if rest.Err? then rest else Ok(r.value.events + rest.value)
  }

  /** Between pages of the walk, only rows newer than the continuation change. */
  ghost predicate Undisturbed(c: Controller, start: nat, end: nat, limit: nat, continuation: Option<nat>, i: nat)
    decreases RequestEnd(end, continuation)
  {
    var r := Call(start, end, limit, continuation, Answer(c, i, RequestEnd(end, continuation), limit));
    NextSmaller(start, end, limit, continuation, Answer(c, i, RequestEnd(end, continuation), limit));
    r.Ok? && r.value.next.Some? ==>
      && Within(c.stores(i + 1), 0, r.value.next.value) == Within(c.stores(i), 0, r.value.next.value)
      && Undisturbed(c, start, end, limit, r.value.next, i + 1)
  }

  lemma {:induction false} WithinWithin(events: seq<Event>, a: nat, b: nat, low: nat, high: nat)
    requires a <= low && high <= b
    ensures Within(Within(events, a, b), low, high) == Within(events, low, high)
  {
    if events != [] {
      WithinWithin(events[1..], a, b, low, high);
      var head := if a <= events[0].start <= b then [events[0]] else [];
      WithinConcat(head, Within(events[1..], a, b), low, high);
    }
  }

  /** In a newest-first list the rows above a key come before the rows at or below it. */
  lemma {:induction false} WithinSplit(events: seq<Event>, low: nat, middle: nat, high: nat)
    requires NewestFirst(events) && low <= middle < high
    ensures Within(events, low, high) == Within(events, middle + 1, high) + Within(events, low, middle)
  {
    if events != [] {
      WithinSplit(events[1..], low, middle, high);
      if events[0].start <= middle {
        WithinNone(events, middle + 1, high);
        WithinNone(events[1..], middle + 1, high);
      }
    }
  }

  lemma {:induction false} WithinSmaller(events: seq<Event>, a: nat, b: nat, low: nat, high: nat)
    requires a <= low && high <= b
    ensures |Within(events, low, high)| <= |Within(events, a, b)|
  {
    if events != [] { WithinSmaller(events[1..], a, b, low, high); }
  }

  /** Cutting an answer loses nothing above the first row left out. */
  lemma CutAnswer(store: seq<Event>, low: nat, end: nat, n: nat, from: nat)
    requires NewestFirst(store) && low <= from && n <= |Within(store, low, end)|
    requires n < |Within(store, low, end)| ==> Within(store, low, end)[n].start < from
    ensures Within(Within(store, low, end)[..n], from, end) == Within(store, from, end)
  {
    var rows := Within(store, low, end);
    WithinKeeps(store, low, end);
    assert rows == rows[..n] + rows[n..];
    WithinConcat(rows[..n], rows[n..], from, end);
    forall k | 0 <= k < |rows[n..]| ensures rows[n..][k].start < from {
      if k > 0 { assert rows[n].start >= rows[n + k].start; }
    }
    WithinNone(rows[n..], from, end);
    WithinWithin(store, low, end, from, end);
  }

  lemma CutExact(store: seq<Event>, low: nat, end: nat, limit: nat, from: nat)
    requires NewestFirst(store) && low <= from
    requires var response := Respond(store, low, end, limit + 1); |response| > limit ==> response[limit].start < from
    ensures var response := Respond(store, low, end, limit + 1);
            && Within(response[..Min(limit, |response|)], from, end) == Within(store, from, end)
            && |Within(store, from, end)| <= limit
  {
    var rows := Within(store, low, end);
    var response := Respond(store, low, end, limit + 1);
    var n := Min(limit, |response|);
    assert response[..n] == rows[..n];
    CutAnswer(store, low, end, n, from);
    WithinKeeps(rows[..n], from, end);
  }

  /** One honest page holds exactly the stored rows of its part of the window. */
  lemma PageExact(store: seq<Event>, low: nat, start: nat, end: nat, limit: nat)
    requires NewestFirst(store) && limit > 0 && low <= start <= end
    requires Acceptable(end, limit, Respond(store, low, end, limit + 1))
    requires PageOf(start, end, limit, Respond(store, low, end, limit + 1)).Ok?
    ensures var page := PageOf(start, end, limit, Respond(store, low, end, limit + 1)).value;
            && page.events == Within(store, PageFrom(start, page), end)
            && |page.events| <= limit
  {
    var page := PageOf(start, end, limit, Respond(store, low, end, limit + 1)).value;
    PageShape(start, end, limit, Respond(store, low, end, limit + 1));
    CutExact(store, low, end, limit, PageFrom(start, page));
  }

  /*** Completeness ***/

  /** Every group of simultaneous events in the window fits a page. */
  ghost predicate GroupsFit(store: seq<Event>, start: nat, end: nat, limit: nat) {
    forall key :: start <= key <= end ==> |Within(store, key, key)| <= limit
  }

  /** The newest group of simultaneous events in the window. */
  function NewestGroup(store: seq<Event>, start: nat, end: nat): seq<Event> {
    var rows := Within(store, start, end);
    if rows == [] then [] else Within(store, rows[0].start, rows[0].start)
  }

  lemma GroupAtFront(store: seq<Event>, low: nat, end: nat, n: nat, key: nat)
    requires low <= key <= end && n <= |Within(store, low, end)|
    requires forall i :: 0 <= i < n ==> Within(store, low, end)[i].start == key
    ensures |Within(store, key, key)| >= n
  {
    var rows := Within(store, low, end);
    assert rows == rows[..n] + rows[n..];
    WithinAll(rows[..n], key, key);
    WithinConcat(rows[..n], rows[n..], key, key);
    WithinWithin(store, low, end, key, key);
  }

  /** An oversized newest group shows up as an oversized group of the store. */
  lemma OversizedGroup(store: seq<Event>, low: nat, start: nat, end: nat, limit: nat)
    requires limit > 0 && low <= start <= end
    requires Acceptable(end, limit, Respond(store, low, end, limit + 1))
    requires PageOf(start, end, limit, Respond(store, low, end, limit + 1)).Err?
    ensures !GroupsFit(store, start, end, limit) && |NewestGroup(store, start, end)| > limit
  {
    var response := Respond(store, low, end, limit + 1);
    BoundaryError(start, end, limit, response);
    var key := response[0].start;
    forall i | 0 <= i < |response| ensures Within(store, low, end)[i].start == key {
      assert response[i] == Within(store, low, end)[i];
      assert i > 0 ==> response[0].start >= response[i].start;
      assert i < limit ==> response[i].start >= response[limit].start;
    }
    GroupAtFront(store, low, end, limit + 1, key);
    WithinWithin(store, low, end, start, end);
    assert Within(store, start, end)[0] == response[0];
  }

  /** A page that is returned shows that the newest group fits. */
  lemma NewestFits(store: seq<Event>, start: nat, from: nat, end: nat, limit: nat)
    requires NewestFirst(store) && start <= from && GroupsFit(store, from, end, limit)
    requires from == start || Within(store, from, end) != []
    ensures |NewestGroup(store, start, end)| <= limit
  {
    var rows := Within(store, start, end);
    WithinKeeps(store, start, end);
    WithinKeeps(store, from, end);
    if rows != [] {
      var key := rows[0].start;
      assert rows[0] in rows;
      if from != start {
        var e := Within(store, from, end)[0];
        assert e in Within(store, from, end);
        var k :| 0 <= k < |rows| && rows[k] == e;
        assert k > 0 ==> rows[0].start >= rows[k].start;
      }
      assert from <= key <= end;
    }
  }

  lemma PageFits(store: seq<Event>, from: nat, end: nat, limit: nat)
    requires |Within(store, from, end)| <= limit
    ensures GroupsFit(store, from, end, limit)
  {
    forall key | from <= key <= end ensures |Within(store, key, key)| <= limit {
      WithinSmaller(store, from, end, key, key);
    }
  }

  /** An honest page fails exactly when the newest group of the stored window exceeds the limit, and otherwise
      holds exactly the stored rows of its part of the window. */
  lemma HonestPage(c: Controller, start: nat, end: nat, limit: nat, continuation: Option<nat>, i: nat)
    requires Honest(c, start) && 1 <= limit <= MAXIMUM_PAGE_LIMIT
    requires start <= RequestEnd(end, continuation) <= end
    ensures var to := RequestEnd(end, continuation);
            var r := Call(start, end, limit, continuation, Answer(c, i, to, limit));
            && (r.Err? <==> |NewestGroup(c.stores(i), start, to)| > limit)
            && (r.Err? ==> !GroupsFit(c.stores(i), start, to, limit))
            && (r.Ok? ==> r.value.events == Within(c.stores(i), PageFrom(start, r.value), to))
            && (r.Ok? ==> GroupsFit(c.stores(i), PageFrom(start, r.value), to, limit))
  {
    var to := RequestEnd(end, continuation);
    var store := c.stores(i);
    var response := Answer(c, i, to, limit);
    RespondAcceptable(store, c.lows(i), to, limit);
    var r := Call(start, end, limit, continuation, response);
    assert r == PageOf(start, to, limit, response);
    if r.Err? {
      OversizedGroup(store, c.lows(i), start, to, limit);
    } else {
      PageExact(store, c.lows(i), start, to, limit);
      PageFits(store, PageFrom(start, r.value), to, limit);
      NextBounds(start, to, limit, response);
      NewestFits(store, start, PageFrom(start, r.value), to, limit);
    }
  }

  /** Event walk completeness. While only rows newer than the continuation come or go between pages,
      the walk succeeds exactly when every group of simultaneous events fits a page, and then it
      returns exactly the rows that the window held when the walk began: each once, newest first. */
  lemma {:induction false} WalkComplete(c: Controller, start: nat, end: nat, limit: nat, continuation: Option<nat>, i: nat)
    requires Honest(c, start) && 1 <= limit <= MAXIMUM_PAGE_LIMIT
    requires start <= RequestEnd(end, continuation) <= end
    requires Undisturbed(c, start, end, limit, continuation, i)
    ensures var to := RequestEnd(end, continuation);
            var r := Walk(c, start, end, limit, continuation, i);
            && (r.Ok? <==> GroupsFit(c.stores(i), start, to, limit))
            && (r.Ok? ==> r.value == Within(c.stores(i), start, to))
    decreases RequestEnd(end, continuation)
  {
    var to := RequestEnd(end, continuation);
    var store := c.stores(i);
    var r := Call(start, end, limit, continuation, Answer(c, i, to, limit));
    HonestPage(c, start, end, limit, continuation, i);
    if r.Ok? && r.value.next.Some? {
      var next := r.value.next.value;
      NextSmaller(start, end, limit, continuation, Answer(c, i, to, limit));
      WalkComplete(c, start, end, limit, r.value.next, i + 1);
      JoinPages(store, c.stores(i + 1), start, next, to, limit);
    }
  }

  /** A page above `next` and the rest of the window below it make up the window. */
  lemma JoinPages(store: seq<Event>, later: seq<Event>, start: nat, next: nat, to: nat, limit: nat)
    requires NewestFirst(store) && start <= next < to
    requires Within(later, 0, next) == Within(store, 0, next)
    requires GroupsFit(store, next + 1, to, limit)
    ensures Within(store, start, to) == Within(store, next + 1, to) + Within(later, start, next)
    ensures GroupsFit(store, start, to, limit) <==> GroupsFit(later, start, next, limit)
  {
    SameBelow(store, later, start, next, limit);
    WithinSplit(store, start, next, to);
    GroupsSplit(store, start, next, to, limit);
  }

  lemma SameBelow(a: seq<Event>, b: seq<Event>, start: nat, next: nat, limit: nat)
    requires Within(a, 0, next) == Within(b, 0, next)
    ensures Within(a, start, next) == Within(b, start, next)
    ensures GroupsFit(a, start, next, limit) <==> GroupsFit(b, start, next, limit)
  {
    WithinWithin(a, 0, next, start, next);
    WithinWithin(b, 0, next, start, next);
    forall key | start <= key <= next ensures Within(a, key, key) == Within(b, key, key) {
      WithinWithin(a, 0, next, key, key);
      WithinWithin(b, 0, next, key, key);
    }
  }

  lemma GroupsSplit(store: seq<Event>, start: nat, next: nat, to: nat, limit: nat)
    requires start <= next < to && GroupsFit(store, next + 1, to, limit)
    ensures GroupsFit(store, start, to, limit) <==> GroupsFit(store, start, next, limit)
  {
  }

  /** The case of a store that does not change: the walk returns the window. */
  lemma FixedStoreWalk(store: seq<Event>, start: nat, end: nat, limit: nat)
    requires Store(store) && 1 <= limit <= MAXIMUM_PAGE_LIMIT && start <= end
    ensures var r := Walk(Controller(_ => store, _ => 0), start, end, limit, None, 0);
            && (r.Ok? <==> GroupsFit(store, start, end, limit))
            && (r.Ok? ==> r.value == Within(store, start, end))
  {
    var c := Controller(_ => store, _ => 0);
    FixedUndisturbed(c, store, start, end, limit, None, 0);
    WalkComplete(c, start, end, limit, None, 0);
  }

  lemma {:induction false} FixedUndisturbed(c: Controller, store: seq<Event>, start: nat, end: nat, limit: nat, continuation: Option<nat>, i: nat)
    requires forall k: nat :: c.stores(k) == store
    ensures Undisturbed(c, start, end, limit, continuation, i)
    decreases RequestEnd(end, continuation)
  {
    var response := Answer(c, i, RequestEnd(end, continuation), limit);
    var r := Call(start, end, limit, continuation, response);
    if r.Ok? && r.value.next.Some? {
      PagePromises(start, end, limit, continuation, response);
      FixedUndisturbed(c, store, start, end, limit, r.value.next, i + 1);
    }
  }
}
