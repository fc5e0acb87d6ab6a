/** Any number of concurrent callers of one login session, as interleaved atomic steps. The
    session mutex is held across a whole login; a caller may be cancelled anywhere, and a login
    cancelled midway records nothing but a console kind it may have learned. */
module SessionMachine {
  import opened Common
  import opened LegacySession

  datatype Class = IdempotentRead | Mutation

  /** One request of a caller: its class, the generation it was sent under, and how often it was sent. */
  datatype Call = Call(class_: Class, observed: nat, sends: nat)

  datatype Pc =
    | Entering(call: Call)      // wants a session
    | EnsureLogin(call: Call)   // holds the mutex, logging in
    | Ready(call: Call)
    | Sent(call: Call)
    | WantRefresh(call: Call)   // was told to log in
    | RefreshLogin(call: Call)  // holds the mutex, logging in again
    | Again(call: Call)         // a read that may be sent once more
    | SentAgain(call: Call)
    | Finished(call: Call)

  /** Logins that returned or began, in order. */
  datatype LoginEvent = Began(at: nat) | Failed(began: nat, at: nat, backoff: nat) | Succeeded(at: nat)

  datatype State = State(
    clock: nat, session: Session, holder: Option<nat>, callers: map<nat, Pc>,
    began: nat, log: seq<LoginEvent>, rejected: set<nat>)

  const Init := State(0, NewSession, None, map[], 0, [], {})

  datatype Reply = Answered | Refused(error: ApiError)

  /** The reply says that the session is no longer good. */
  predicate LoginRequired(reply: Reply) {
    reply.Refused? && IsLoginRequired(reply.error)
  }

  /** The reply asks for a pause that is short enough to wait for. */
  predicate ShortlyLimited(reply: Reply) {
    && reply.Refused? && reply.error.RateLimited? && reply.error.retryAfter.Some?
    && reply.error.retryAfter.value <= MAXIMUM_RETRY_AFTER
  }

  datatype Step =
    | Tick(by_: nat)
    | Spawn(id: nat, class_: Class)
    | Enter(id: nat)
    | Latch(id: nat, kind: Kind)
    | LoginEnds(id: nat, answers: Answers)
    | Send(id: nat)
    | Receive(id: nat, reply: Reply)
    | Refresh(id: nat)
    | Cancel(id: nat)

  predicate LoggingIn(pc: Pc) {
    pc.EnsureLogin? || pc.RefreshLogin?
  }

  predicate Enabled(s: State, step: Step) {
    match step
    case Tick(_) => true
    case Spawn(id, _) => id !in s.callers
    case Enter(id) => id in s.callers && s.callers[id].Entering? && s.holder.None?
    case Latch(id, _) => id in s.callers && LoggingIn(s.callers[id]) && s.session.kind.None?
    case LoginEnds(id, _) => id in s.callers && LoggingIn(s.callers[id])
    case Send(id) => id in s.callers && (s.callers[id].Ready? || s.callers[id].Again?) && s.holder.None?
    case Receive(id, _) => id in s.callers && (s.callers[id].Sent? || s.callers[id].SentAgain?)
    case Refresh(id) => id in s.callers && s.callers[id].WantRefresh? && s.holder.None?
    case Cancel(id) => id in s.callers
  }

  function At(s: State, id: nat, pc: Pc): State {
    s.(callers := s.callers[id := pc])
  }

  function BeginLogin(s: State, id: nat, pc: Pc): State {
    At(s, id, pc).(session := s.session.(authenticated := false), holder := Some(id), began := s.clock,
                   log := s.log + [Began(s.clock)])
  }

  /** A caller with a usable session for another send: only a read goes out again. */
  function NextSend(call: Call): Pc {
    if call.class_ == Mutation then Finished(call) else Again(call)
  }

  function DoEnter(s: State, id: nat): State
    requires Enabled(s, Enter(id))
  {
    var call := s.callers[id].call;
    if s.session.authenticated then At(s, id, Ready(call.(observed := s.session.generation)))
    else if SharedFailure(s.session, s.clock).Some? then At(s, id, Finished(call))
    else BeginLogin(s, id, EnsureLogin(call))
  }

  function DoRefresh(s: State, id: nat): State
    requires Enabled(s, Refresh(id))
  {
    var call := s.callers[id].call;
    if s.session.generation != call.observed && s.session.authenticated then At(s, id, NextSend(call))
    else if SharedFailure(s.session, s.clock).Some? then At(s, id, Finished(call))
    else BeginLogin(s, id, RefreshLogin(call))
  }

  function DoLoginEnds(s: State, id: nat, answers: Answers): State
    requires Enabled(s, LoginEnds(id, answers))
  {
    var pc := s.callers[id];
    var (session, error) := Login(s.session, answers);
    if error.Some? then
      At(s, id, Finished(pc.call)).(
        session := RecordFailure(session, error.value, s.clock), holder := None,
        log := s.log + [Failed(s.began, s.clock, BackoffWindow(error.value))])
    else
      var next := if pc.EnsureLogin? then Ready(pc.call.(observed := session.generation)) else NextSend(pc.call);
      At(s, id, next).(session := session, holder := None, log := s.log + [Succeeded(s.clock)])
  }

  function DoSend(s: State, id: nat): State
    requires Enabled(s, Send(id))
  {
    var pc := s.callers[id];
    var call := pc.call.(sends := pc.call.sends + 1);
    At(s, id, if pc.Ready? then Sent(call) else SentAgain(call))
  }

  function DoReceive(s: State, id: nat, reply: Reply): State
    requires Enabled(s, Receive(id, reply))
  {
    var pc := s.callers[id];
    if pc.Sent? && LoginRequired(reply) then
      At(s, id, WantRefresh(pc.call)).(rejected := s.rejected + {pc.call.observed})
    else if pc.Sent? && pc.call.class_ == IdempotentRead && ShortlyLimited(reply) then
      At(s, id, Again(pc.call))
    else At(s, id, Finished(pc.call))
  }

  function Do(s: State, step: Step): State
    requires Enabled(s, step)
  {
    match step
    case Tick(d) => s.(clock := s.clock + d)
    case Spawn(id, class_) => At(s, id, Entering(Call(class_, 0, 0)))
    case Enter(id) => DoEnter(s, id)
    case Latch(id, kind) => s.(session := s.session.(kind := Some(kind)))
    case LoginEnds(id, answers) => DoLoginEnds(s, id, answers)
    case Send(id) => DoSend(s, id)
    case Receive(id, reply) => DoReceive(s, id, reply)
    case Refresh(id) => DoRefresh(s, id)
    case Cancel(id) =>
      At(s, id, Finished(s.callers[id].call)).(holder := if s.holder == Some(id) then None else s.holder)
  }

  ghost predicate Runs(s: State, steps: seq<Step>, to: State)
    decreases |steps|
  {
    if steps == [] then s == to else Enabled(s, steps[0]) && Runs(Do(s, steps[0]), steps[1..], to)
  }

  /** The client object's methods are these steps, taken without interruption: enter or refresh, let the
      login take its time, and end it. */
  lemma MethodsAreSteps(s: State, id: nat, answers: Answers, d: nat)
    requires s.holder.None? && id in s.callers
    ensures Enabled(s, Enter(id)) ==>
              var s1 := Do(Do(s, Enter(id)), Tick(d));
              var s2 := if Enabled(s1, LoginEnds(id, answers)) then Do(s1, LoginEnds(id, answers)) else s1;
              s2.session == AfterEnsure(s.session, s.clock, answers, s.clock + d)
    ensures Enabled(s, Refresh(id)) ==>
              var s1 := Do(Do(s, Refresh(id)), Tick(d));
              var s2 := if Enabled(s1, LoginEnds(id, answers)) then Do(s1, LoginEnds(id, answers)) else s1;
              s2.session == LegacySession.AfterRefresh(s.session, s.callers[id].call.observed, s.clock, answers, s.clock + d)
  {
    assert s.session.(authenticated := false).failed == s.session.failed;
  }

  /*** The session invariant ***/

  /** The mutex is held exactly by the caller that is logging in, on an unauthenticated session. */
  ghost predicate HolderOk(s: State) {
    && (forall id :: id in s.callers ==> (LoggingIn(s.callers[id]) <==> s.holder == Some(id)))
    && (s.holder.Some? ==> s.holder.value in s.callers && !s.session.authenticated && s.began <= s.clock)
  }

  /** How often a request has been sent by the time its caller is at `pc`. */
  predicate SendsOk(pc: Pc) {
    match pc
    case Entering(call) => call.sends == 0
    case EnsureLogin(call) => call.sends == 0
    case Ready(call) => call.sends == 0
    case Sent(call) => call.sends == 1
    case WantRefresh(call) => call.sends == 1
    case RefreshLogin(call) => call.sends == 1
    case Again(call) => call.sends == 1 && call.class_ == IdempotentRead
    case SentAgain(call) => call.sends == 2 && call.class_ == IdempotentRead
    case Finished(call) => call.sends <= if call.class_ == Mutation then 1 else 2
  }

  /** A caller past its session check used a generation that existed; one that was told to log in
      has its generation among the rejected ones. */
  predicate ObservedOk(s: State, pc: Pc) {
    && (pc.Ready? || pc.Sent? || pc.Again? || pc.SentAgain? || pc.WantRefresh? || pc.RefreshLogin? ==>
          1 <= pc.call.observed <= s.session.generation)
    && (pc.WantRefresh? || pc.RefreshLogin? ==> pc.call.observed in s.rejected)
  }

  function Wins(log: seq<LoginEvent>): nat {
    if log == [] then 0 else Wins(log[..|log| - 1]) + if log[|log| - 1].Succeeded? then 1 else 0
  }

  /** Every generation that was left behind was rejected first; so was the current one if the
      session is not authenticated. */
  ghost predicate RejectionsOk(s: State) {
    && (forall g :: g in s.rejected ==> 1 <= g <= s.session.generation)
    && (forall g :: 1 <= g < s.session.generation ==> g in s.rejected)
    && (s.session.generation > 0 && !s.session.authenticated ==> s.session.generation in s.rejected)
  }

  ghost predicate CallersOk(s: State) {
    forall id :: id in s.callers ==> SendsOk(s.callers[id]) && ObservedOk(s, s.callers[id])
  }

  ghost predicate Safe(s: State) {
    && SessionOk(s.session)
    && (s.session.generation > 0 ==> s.session.kind.Some?)
    && s.session.generation == Wins(s.log)
    && HolderOk(s)
    && RejectionsOk(s)
    && CallersOk(s)
  }

  lemma WinsSnoc(log: seq<LoginEvent>, e: LoginEvent)
    ensures Wins(log + [e]) == Wins(log) + if e.Succeeded? then 1 else 0
  {
    assert (log + [e])[..|log|] == log;
  }

  /** One caller moves; generations only grow and rejections are not forgotten. */
  lemma CallerMoves(s: State, s': State, id: nat, pc: Pc)
    requires CallersOk(s) && s'.callers == s.callers[id := pc] && SendsOk(pc) && ObservedOk(s', pc)
    requires s.session.generation <= s'.session.generation && s.rejected <= s'.rejected
    ensures CallersOk(s')
  {
  }

  /** A caller takes the mutex to log in. */
  lemma HolderTakes(s: State, s': State, id: nat, pc: Pc)
    requires HolderOk(s) && s.holder.None? && LoggingIn(pc) && s'.callers == s.callers[id := pc]
    requires s'.holder == Some(id) && !s'.session.authenticated && s'.began <= s'.clock
    ensures HolderOk(s')
  {
  }

  /** The caller that logged in lets go of the mutex. */
  lemma HolderReleases(s: State, s': State, id: nat, pc: Pc)
    requires HolderOk(s) && s.holder == Some(id) && !LoggingIn(pc) && s'.callers == s.callers[id := pc] && s'.holder.None?
    ensures HolderOk(s')
  {
  }

  lemma RejectionsKept(s: State, s': State)
    requires RejectionsOk(s) && s'.session.generation == s.session.generation && s'.rejected == s.rejected
    requires s'.session.authenticated || !s.session.authenticated || s.session.generation in s.rejected
    ensures RejectionsOk(s')
  {
  }

  /** Moving a caller that does not hold the mutex. */
  lemma MoveSafe(s: State, id: nat, pc: Pc)
    requires Safe(s) && !LoggingIn(pc) && s.holder != Some(id)
    requires SendsOk(pc) && ObservedOk(s, pc)
    ensures Safe(At(s, id, pc))
  {
  }

  lemma BeginLoginSafe(s: State, id: nat, pc: Pc)
    requires Safe(s) && s.holder.None? && LoggingIn(pc) && SendsOk(pc) && ObservedOk(s, pc)
    requires s.session.authenticated ==> s.session.generation in s.rejected
    ensures Safe(BeginLogin(s, id, pc))
  {
    var s' := BeginLogin(s, id, pc);
    WinsSnoc(s.log, Began(s.clock));
    HolderTakes(s, s', id, pc);
    CallerMoves(s, s', id, pc);
    RejectionsKept(s, s');
  }

  lemma EnterSafe(s: State, id: nat)
    requires Safe(s) && Enabled(s, Enter(id))
    ensures Safe(DoEnter(s, id))
  {
    var call := s.callers[id].call;
    if s.session.authenticated {
      MoveSafe(s, id, Ready(call.(observed := s.session.generation)));
    } else if SharedFailure(s.session, s.clock).Some? {
      MoveSafe(s, id, Finished(call));
    } else {
      BeginLoginSafe(s, id, EnsureLogin(call));
    }
  }

  lemma RefreshSafe(s: State, id: nat)
    requires Safe(s) && Enabled(s, Refresh(id))
    ensures Safe(DoRefresh(s, id))
  {
    var call := s.callers[id].call;
    if s.session.generation != call.observed && s.session.authenticated {
      MoveSafe(s, id, NextSend(call));
    } else if SharedFailure(s.session, s.clock).Some? {
      MoveSafe(s, id, Finished(call));
    } else {
      BeginLoginSafe(s, id, RefreshLogin(call));
    }
  }

  lemma RejectSafe(s: State, g: nat)
    requires Safe(s) && 1 <= g <= s.session.generation
    ensures Safe(s.(rejected := s.rejected + {g}))
  {
  }

  lemma ReceiveSafe(s: State, id: nat, reply: Reply)
    requires Safe(s) && Enabled(s, Receive(id, reply))
    ensures Safe(DoReceive(s, id, reply))
  {
    var pc := s.callers[id];
    if pc.Sent? && LoginRequired(reply) {
      RejectSafe(s, pc.call.observed);
      MoveSafe(s.(rejected := s.rejected + {pc.call.observed}), id, WantRefresh(pc.call));
    } else {
      MoveSafe(s, id, DoReceive(s, id, reply).callers[id]);
    }
  }

  lemma SendSafe(s: State, id: nat)
    requires Safe(s) && Enabled(s, Send(id))
    ensures Safe(DoSend(s, id))
  {
    var pc := s.callers[id];
    var call := pc.call.(sends := pc.call.sends + 1);
    MoveSafe(s, id, if pc.Ready? then Sent(call) else SentAgain(call));
  }

  lemma CancelSafe(s: State, id: nat)
    requires Safe(s) && Enabled(s, Cancel(id))
    ensures Safe(Do(s, Cancel(id)))
  {
  }

  lemma LoginFailsSafe(s: State, id: nat, session: Session, error: ApiError)
    requires Safe(s) && s.holder == Some(id) && session == s.session.(kind := session.kind)
    requires s.session.kind.Some? ==> session.kind == s.session.kind
    ensures Safe(At(s, id, Finished(s.callers[id].call)).(
                   session := RecordFailure(session, error, s.clock), holder := None,
                   log := s.log + [Failed(s.began, s.clock, BackoffWindow(error))]))
  {
    var pc, failed := Finished(s.callers[id].call), Failed(s.began, s.clock, BackoffWindow(error));
    WinsSnoc(s.log, failed);
    ReleaseSafe(s, At(s, id, pc).(session := RecordFailure(session, error, s.clock), holder := None, log := s.log + [failed]), id, pc);
  }

  /** The mutex is given back on a session that did not get authenticated. */
  lemma ReleaseSafe(s: State, s': State, id: nat, pc: Pc)
    requires Safe(s) && s.holder == Some(id) && pc.Finished? && SendsOk(pc)
    requires s'.callers == s.callers[id := pc] && s'.holder.None? && s'.rejected == s.rejected && Wins(s'.log) == Wins(s.log)
    requires !s'.session.authenticated && s'.session.generation == s.session.generation
    requires s.session.kind.Some? ==> s'.session.kind == s.session.kind
    ensures Safe(s')
  {
    HolderReleases(s, s', id, pc);
    CallerMoves(s, s', id, pc);
    RejectionsKept(s, s');
  }

  lemma LoginSucceedsSafe(s: State, id: nat, session: Session, pc: Pc)
    requires Safe(s) && s.holder == Some(id) && !LoggingIn(pc) && SendsOk(pc)
    requires session.authenticated && session.kind.Some? && session.generation == s.session.generation + 1 && session.failed.None?
    requires ObservedOk(s.(session := session), pc)
    ensures Safe(At(s, id, pc).(session := session, holder := None, log := s.log + [Succeeded(s.clock)]))
  {
    var s' := At(s, id, pc).(session := session, holder := None, log := s.log + [Succeeded(s.clock)]);
    WinsSnoc(s.log, Succeeded(s.clock));
    HolderReleases(s, s', id, pc);
    CallerMoves(s, s', id, pc);
    RejectionsAdvance(s, s');
  }

  /** A new generation follows one that was rejected. */
  lemma RejectionsAdvance(s: State, s': State)
    requires RejectionsOk(s) && !s.session.authenticated && s'.session.authenticated && s'.rejected == s.rejected
    requires s'.session.generation == s.session.generation + 1
    ensures RejectionsOk(s')
  {
  }

  lemma LoginEndsSafe(s: State, id: nat, answers: Answers)
    requires Safe(s) && Enabled(s, LoginEnds(id, answers))
    ensures Safe(DoLoginEnds(s, id, answers))
  {
    LoginEffect(s.session, answers);
    var (session, error) := Login(s.session, answers);
    if error.Some? {
      LoginFailsSafe(s, id, session, error.value);
    } else {
      LoginSucceedsSafe(s, id, session, DoLoginEnds(s, id, answers).callers[id]);
    }
  }

  lemma StepSafe(s: State, step: Step)
    requires Safe(s) && Enabled(s, step)
    ensures Safe(Do(s, step))
  {
    match step
    case Tick(_) =>
    case Spawn(id, class_) => MoveSafe(s, id, Entering(Call(class_, 0, 0)));
    case Enter(id) => EnterSafe(s, id);
    case Latch(_, _) =>
    case LoginEnds(id, answers) => LoginEndsSafe(s, id, answers);
    case Send(id) => SendSafe(s, id);
    case Receive(id, reply) => ReceiveSafe(s, id, reply);
    case Refresh(id) => RefreshSafe(s, id);
    case Cancel(id) => CancelSafe(s, id);
  }

  lemma {:induction false} RunSafe(s: State, steps: seq<Step>, to: State)
    requires Safe(s) && Runs(s, steps, to)
    ensures Safe(to)
    decreases |steps|
  {
    if steps != [] {
      StepSafe(s, steps[0]);
      RunSafe(Do(s, steps[0]), steps[1..], to);
    }
  }

  /** In every interleaving, an authenticated session has a known console kind and no recorded failure,
      and the generation counts the successful logins. */
  lemma SessionInvariant(steps: seq<Step>, s: State)
    requires Runs(Init, steps, s)
    ensures s.session.authenticated ==> s.session.kind.Some? && s.session.failed.None?
    ensures s.session.generation == Wins(s.log)
  {
    RunSafe(Init, steps, s);
  }

  /** Each mutation is sent at most once and each read at most twice. */
  lemma SendBound(steps: seq<Step>, s: State, id: nat)
    requires Runs(Init, steps, s) && id in s.callers
    ensures s.callers[id].call.sends <= if s.callers[id].call.class_ == Mutation then 1 else 2
  {
    RunSafe(Init, steps, s);
  }

  /** A request is only sent with the console kind known: the check for it never fails. */
  lemma SendsKnowTheKind(steps: seq<Step>, s: State, id: nat)
    requires Runs(Init, steps, s) && Enabled(s, Send(id))
    ensures s.session.kind.Some?
  {
    RunSafe(Init, steps, s);
  }

  /** A login begins only on an unauthenticated session or from a caller whose generation is current. */
  lemma LoginBeginsFresh(s: State, step: Step)
    requires Safe(s) && Enabled(s, step) && s.holder.None? && Do(s, step).holder.Some?
    ensures !s.session.authenticated
         || (step.Refresh? && s.callers[step.id].call.observed == s.session.generation)
  {
  }

  lemma {:induction false} RangeCount(rejected: set<nat>, n: nat)
    requires forall g :: 1 <= g <= n ==> g in rejected
    ensures n <= |rejected|
  {
    if n > 0 {
      RangeCount(rejected - {n}, n - 1);
    }
  }

  /** Single flight: however many callers are told to log in, successful logins exceed by at most one
      the number of different generations that were ever rejected. N rejections of one
      generation cost one login. */
  lemma SingleFlight(steps: seq<Step>, s: State)
    requires Runs(Init, steps, s)
    ensures Wins(s.log) <= |s.rejected| + 1
    ensures !s.session.authenticated ==> Wins(s.log) <= |s.rejected|
  {
    RunSafe(Init, steps, s);
    if s.session.generation > 0 {
      RangeCount(s.rejected, if s.session.authenticated then s.session.generation - 1 else s.session.generation);
    }
  }

  /** The console kind, once known, never changes. */
  lemma {:induction false} KindLatched(s: State, steps: seq<Step>, to: State)
    requires s.session.kind.Some? && Runs(s, steps, to)
    ensures to.session.kind == s.session.kind
    decreases |steps|
  {
    if steps != [] {
      if steps[0].LoginEnds? { LoginEffect(s.session, steps[0].answers); }
      KindLatched(Do(s, steps[0]), steps[1..], to);
    }
  }

  /*** Login spacing ***/

  predicate Starts(e: LoginEvent) {
    e.Began? || e.Failed?
  }

  function StartOf(e: LoginEvent): nat
    requires Starts(e)
  {
    if e.Began? then e.at else e.began
  }

  /** No login begins before the backoff of an earlier failure is over. */
  ghost predicate Spaced(log: seq<LoginEvent>) {
    forall i, j :: 0 <= i < j < |log| && log[i].Failed? && Starts(log[j]) ==>
      StartOf(log[j]) >= log[i].at + log[i].backoff
  }

  ghost predicate BackoffsOver(log: seq<LoginEvent>, now: nat) {
    forall i :: 0 <= i < |log| && log[i].Failed? ==> log[i].at + log[i].backoff <= now
  }

  ghost predicate WellTimed(log: seq<LoginEvent>) {
    forall i :: 0 <= i < |log| && log[i].Failed? ==> log[i].began <= log[i].at && 1_000 <= log[i].backoff <= 60_000
  }

  /** Every backoff that is not over yet is covered by the failure being shared. */
  ghost predicate Pacing(s: State) {
    && Spaced(s.log)
    && WellTimed(s.log)
    && (forall i :: 0 <= i < |s.log| && s.log[i].Failed? ==>
          s.log[i].at + s.log[i].backoff <= s.clock
          || (s.session.failed.Some? && s.log[i].at + s.log[i].backoff <= s.session.failed.value.until))
    && (s.holder.Some? ==> BackoffsOver(s.log, s.began))
  }

  lemma SpacedSnoc(log: seq<LoginEvent>, e: LoginEvent)
    requires Spaced(log) && (Starts(e) ==> BackoffsOver(log, StartOf(e)))
    ensures Spaced(log + [e])
  {
  }

  lemma LoginEndsPacing(s: State, id: nat, answers: Answers)
    requires Safe(s) && Pacing(s) && Enabled(s, LoginEnds(id, answers))
    ensures Pacing(DoLoginEnds(s, id, answers))
  {
    var s' := DoLoginEnds(s, id, answers);
    SpacedSnoc(s.log, s'.log[|s.log|]);
  }

  lemma BeginPacing(s: State, id: nat, pc: Pc)
    requires Pacing(s) && SharedFailure(s.session, s.clock).None?
    ensures Pacing(BeginLogin(s, id, pc))
  {
    assert BackoffsOver(s.log, s.clock);
    SpacedSnoc(s.log, Began(s.clock));
  }

  lemma StepPacing(s: State, step: Step)
    requires Safe(s) && Pacing(s) && Enabled(s, step)
    ensures Pacing(Do(s, step))
  {
    if step.LoginEnds? {
      LoginEndsPacing(s, step.id, step.answers);
    } else if step.Enter? && SharedFailure(s.session, s.clock).None? {
      BeginPacing(s, step.id, EnsureLogin(s.callers[step.id].call));
    } else if step.Refresh? && SharedFailure(s.session, s.clock).None? {
      BeginPacing(s, step.id, RefreshLogin(s.callers[step.id].call));
    }
  }

  lemma {:induction false} RunPacing(s: State, steps: seq<Step>, to: State)
    requires Safe(s) && Pacing(s) && Runs(s, steps, to)
    ensures Pacing(to)
    decreases |steps|
  {
    if steps != [] {
      StepSafe(s, steps[0]);
      StepPacing(s, steps[0]);
      RunPacing(Do(s, steps[0]), steps[1..], to);
    }
  }

  /** Login spacing: after a login fails at time T with backoff b, no login by any caller begins
      before T + b, and b is between one and sixty seconds. */
  lemma LoginSpacing(steps: seq<Step>, s: State, i: nat, j: nat)
    requires Runs(Init, steps, s) && i < j < |s.log| && s.log[i].Failed? && Starts(s.log[j])
    ensures StartOf(s.log[j]) >= s.log[i].at + s.log[i].backoff
    ensures 1_000 <= s.log[i].backoff <= 60_000
  {
    RunPacing(Init, steps, s);
  }

  /** The times at which the logins among the first `n` events failed, in order. */
  function Failures(log: seq<LoginEvent>, n: nat): seq<nat>
    requires n <= |log|
  {
    if n == 0 then [] else Failures(log, n - 1) + if log[n - 1].Failed? then [log[n - 1].at] else []
  }

  lemma {:induction false} LastFailure(log: seq<LoginEvent>, n: nat) returns (i: nat)
    requires n <= |log| && Failures(log, n) != []
    ensures i < n && log[i].Failed? && log[i].at == Failures(log, n)[|Failures(log, n)| - 1]
  {
    if log[n - 1].Failed? { i := n - 1; } else { i := LastFailure(log, n - 1); }
  }

  lemma {:induction false} FailuresSpaced(log: seq<LoginEvent>, n: nat)
    requires Spaced(log) && WellTimed(log) && n <= |log|
    ensures forall k :: 0 < k < |Failures(log, n)| ==> Failures(log, n)[k] >= Failures(log, n)[k - 1] + SECOND
  {
    if n > 0 {
      FailuresSpaced(log, n - 1);
      if log[n - 1].Failed? && Failures(log, n - 1) != [] {
        var i := LastFailure(log, n - 1);
        assert StartOf(log[n - 1]) >= log[i].at + log[i].backoff;
      }
    }
  }

  lemma {:induction false} GapsAddUp(times: seq<nat>, i: nat, j: nat)
    requires forall k :: 0 < k < |times| ==> times[k] >= times[k - 1] + SECOND
    requires i <= j < |times|
    ensures times[j] >= times[i] + (j - i) * SECOND
    decreases j - i
  {
    if i < j { GapsAddUp(times, i, j - 1); }
  }

  /** Any span of D seconds contains at most D + 1 login failures. */
  lemma FailureRate(steps: seq<Step>, s: State, i: nat, j: nat, seconds: nat)
    requires Runs(Init, steps, s) && i <= j < |Failures(s.log, |s.log|)|
    requires Failures(s.log, |s.log|)[j] <= Failures(s.log, |s.log|)[i] + seconds * 1_000
    ensures j - i + 1 <= seconds + 1
  {
    RunPacing(Init, steps, s);
    FailuresSpaced(s.log, |s.log|);
    GapsAddUp(Failures(s.log, |s.log|), i, j);
  }

  /*** What every caller is answered ***/

  /** A failure that is being shared is the end of a logged login. */
  ghost predicate FailureLogged(s: State) {
    s.session.failed.Some? ==>
      exists i :: 0 <= i < |s.log| && s.log[i].Failed? && s.log[i].at + s.log[i].backoff == s.session.failed.value.until
  }

  lemma LoggedGrows(s: State, s': State, e: LoginEvent)
    requires FailureLogged(s) && s'.session.failed == s.session.failed && s'.log == s.log + [e]
    ensures FailureLogged(s')
  {
    if s.session.failed.Some? {
      var i :| 0 <= i < |s.log| && s.log[i].Failed? && s.log[i].at + s.log[i].backoff == s.session.failed.value.until;
      assert s'.log[i] == s.log[i];
    }
  }

  lemma LoginEndsLogged(s: State, id: nat, answers: Answers)
    requires FailureLogged(s) && Enabled(s, LoginEnds(id, answers))
    ensures FailureLogged(DoLoginEnds(s, id, answers))
  {
    LoginEffect(s.session, answers);
    var s' := DoLoginEnds(s, id, answers);
    if Login(s.session, answers).1.Some? { assert s'.log[|s.log|].Failed?; }
  }

  lemma StepLogged(s: State, step: Step)
    requires FailureLogged(s) && Enabled(s, step)
    ensures FailureLogged(Do(s, step))
  {
    if step.LoginEnds? {
      LoginEndsLogged(s, step.id, step.answers);
    } else if Do(s, step).log != s.log {
      LoggedGrows(s, Do(s, step), Began(s.clock));
    }
  }

  lemma {:induction false} RunLogged(s: State, steps: seq<Step>, to: State)
    requires FailureLogged(s) && Runs(s, steps, to)
    ensures FailureLogged(to)
    decreases |steps|
  {
    if steps != [] {
      StepLogged(s, steps[0]);
      RunLogged(Do(s, steps[0]), steps[1..], to);
    }
  }

  /** In every run, a failure is being shared exactly while the backoff of some failed login is not over. */
  lemma SharedIff(steps: seq<Step>, s: State)
    requires Runs(Init, steps, s)
    ensures SharedFailure(s.session, s.clock).None? <==> BackoffsOver(s.log, s.clock)
  {
    RunPacing(Init, steps, s);
    RunLogged(Init, steps, s);
  }

  /** The session check, in every run: an authenticated session is used under its generation; else a login begins exactly
      when the backoff of every failed login is over; else the call ends with the shared failure. */
  lemma EnterIff(steps: seq<Step>, s: State, id: nat)
    requires Runs(Init, steps, s) && Enabled(s, Enter(id))
    ensures var s', call := Do(s, Enter(id)), s.callers[id].call;
            if s.session.authenticated then s'.callers[id] == Ready(call.(observed := s.session.generation)) && s'.holder.None?
            else if BackoffsOver(s.log, s.clock) then s'.callers[id] == EnsureLogin(call) && s'.holder == Some(id)
            else s'.callers[id] == Finished(call) && s'.holder.None?
  {
    SharedIff(steps, s);
  }

  /** A caller that was told to log in uses a newer session if there is one; else a login begins exactly when the backoff
      of every failed login is over. With a session, a read goes out again and a mutation does not. */
  lemma RefreshIff(steps: seq<Step>, s: State, id: nat)
    requires Runs(Init, steps, s) && Enabled(s, Refresh(id))
    ensures var s', call := Do(s, Refresh(id)), s.callers[id].call;
            if s.session.authenticated && s.session.generation != call.observed then
              s'.callers[id] == (if call.class_ == IdempotentRead then Again(call) else Finished(call)) && s'.holder.None?
            else if BackoffsOver(s.log, s.clock) then s'.callers[id] == RefreshLogin(call) && s'.holder == Some(id)
            else s'.callers[id] == Finished(call) && s'.holder.None?
  {
    SharedIff(steps, s);
  }

  /** The end of a login: exactly an authenticating answer lets the caller go on. */
  lemma LoginEndsIff(s: State, id: nat, answers: Answers)
    requires Enabled(s, LoginEnds(id, answers))
    ensures var s', pc, decisive := Do(s, LoginEnds(id, answers)), s.callers[id], Deciding(s.session.kind, answers);
            if decisive.None? || !Authenticates(decisive.value) then s'.callers[id] == Finished(pc.call) && s'.log[|s.log|].Failed?
            else if pc.EnsureLogin? then s'.callers[id] == Ready(pc.call.(observed := s.session.generation + 1))
            else s'.callers[id] == if pc.call.class_ == IdempotentRead then Again(pc.call) else Finished(pc.call)
  {
    LoginSucceedsIff(s.session, answers);
    LoginEffect(s.session, answers);
  }

  /** What a reply leads to. The first one leads to a refresh exactly if it asks for a login, and to another send exactly if
      it limits the rate of a read with a delay of at most ten seconds; everything else ends the call. */
  lemma ReceiveIff(s: State, id: nat, reply: Reply)
    requires Enabled(s, Receive(id, reply))
    ensures var pc, pc' := s.callers[id], Do(s, Receive(id, reply)).callers[id];
            && pc'.call == pc.call
            && (pc'.WantRefresh? <==> pc.Sent? && (reply == Refused(Status(401)) || reply == Refused(Rejected("api.err.LoginRequired"))))
            && (pc'.Again? <==>
                  (&& pc.Sent? && pc.call.class_ == IdempotentRead
                   && exists delay :: reply == Refused(RateLimited(Some(delay))) && delay <= 10_000))
            && (pc'.WantRefresh? || pc'.Again? || pc'.Finished?)
  {
    if reply.Refused? {
      LoginRequiredIff(reply.error);
      if ShortlyLimited(reply) { assert reply == Refused(RateLimited(Some(reply.error.retryAfter.value))); }
    }
  }
}
