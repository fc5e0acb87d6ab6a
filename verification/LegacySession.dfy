/** The login session of the local controller client: its state, the decisions taken under its
    mutex, and the client object that takes them. Times are in milliseconds. */
module LegacySession {
  import opened Common

  const SECOND: nat := 1000
  const MAXIMUM_RETRY_AFTER: nat := 10_000
  const LOGIN_REQUIRED := "api.err.LoginRequired"

  datatype Kind = UnifiOs | Standalone

  datatype ApiError =
    | RateLimited(retryAfter: Option<nat>)
    | Status(status: nat)
    | Rejected(code: string)
    | Transport
    | BodyUnreadable

  /** A controller answer: its status, its `Retry-After` delay, and the rejection code of its body
      when the body is a rejection envelope. */
  datatype Response = Response(status: nat, retryAfter: Option<nat>, readable: bool, rejection: Option<string>)

  datatype FailedLogin = FailedLogin(until: nat, error: ApiError)

  datatype Session = Session(kind: Option<Kind>, authenticated: bool, generation: nat, failed: Option<FailedLogin>)

  const NewSession := Session(None, false, 0, None)

  /*** Decisions ***/

  /** How long the outcome of a failed login is shared. */
  function BackoffWindow(error: ApiError): (d: nat)
    ensures 1_000 <= d <= 60_000
    ensures error.RateLimited? && error.retryAfter.Some? && 1_000 <= error.retryAfter.value <= 60_000
            ==> d == error.retryAfter.value
    ensures error.RateLimited? && error.retryAfter.Some? && error.retryAfter.value < 1_000 ==> d == 1_000
    ensures error.RateLimited? && error.retryAfter.Some? && error.retryAfter.value > 60_000 ==> d == 60_000
    ensures error.RateLimited? && error.retryAfter.None? ==> d == 5_000
    ensures !error.RateLimited? ==> d == 1_000
  {
    match error
    case RateLimited(Some(delay)) => Max(SECOND, Min(delay, 60 * SECOND))
    case RateLimited(None) => 5 * SECOND
    case _ => SECOND
  }

  function SharedFailure(s: Session, now: nat): Option<ApiError> {
    if s.failed.Some? && now < s.failed.value.until then Some(s.failed.value.error) else None
  }

  function RecordFailure(s: Session, error: ApiError, now: nat): Session {
    s.(failed := Some(FailedLogin(now + BackoffWindow(error), error)))
  }

  predicate IsLoginRequired(error: ApiError) {
    (error.Rejected? && error.code == LOGIN_REQUIRED) || error == Status(401)
  }

  predicate Success(status: nat) {
    200 <= status < 300
  }

  predicate Transient(r: Response) {
    r.status == 429 || 500 <= r.status < 600
  }

  function TranslateFailure(r: Response): ApiError {
    if r.status == 401 then Status(401)
    else if r.rejection.Some? then Rejected(r.rejection.value)
    else Status(r.status)
  }

  /** Why a login answer does not authenticate, if it does not. */
  function LoginError(r: Response): Option<ApiError> {
    if !r.readable then Some(BodyUnreadable)
    else if r.status == 429 then Some(RateLimited(r.retryAfter))
    else if !Success(r.status) then Some(TranslateFailure(r))
    else if r.rejection.Some? then Some(Rejected(r.rejection.value))
    else None
  }

  function FinishLogin(s: Session, r: Response): Session {
    if LoginError(r).Some? then s else s.(authenticated := true, generation := s.generation + 1, failed := None)
  }

  /** The answers to the login requests of one attempt; no answer is a transport failure. The second
      request is made only when the first shows that there is no such route. */
  datatype Answers = Answers(first: Option<Response>, second: Option<Response>)

  /** The session after a login attempt, and the error it ended with. */
  function Login(s: Session, a: Answers): (Session, Option<ApiError>) {
    if a.first.None? then (s, Some(Transport))
    else
      var r := a.first.value;
      if s.kind.Some? then (FinishLogin(s, r), LoginError(r))
      else if r.status == 404 then
        var standalone := s.(kind := Some(Standalone));
        if a.second.None? then (standalone, Some(Transport))
        else (FinishLogin(standalone, a.second.value), LoginError(a.second.value))
      else if Transient(r) then (FinishLogin(s, r), LoginError(r))
      else (FinishLogin(s.(kind := Some(UnifiOs)), r), LoginError(r))
  }

  /** What holds of the session whenever the mutex is free. */
  predicate SessionOk(s: Session) {
    && (s.authenticated ==> s.kind.Some? && s.failed.None?)
    && (s.authenticated ==> s.generation > 0)
  }

  /** A login succeeds only with a known console kind, counts one generation and clears the failure;
      a failed one leaves everything but the kind; a known kind is kept. An unknown kind stays unknown
      when there was no answer or a transient one, becomes that of a standalone controller when the
      first route does not exist, and that of a console otherwise. */
  lemma LoginEffect(s: Session, a: Answers)
    ensures var (s', error) := Login(s, a);
            && (error.None? ==> s'.authenticated && s'.kind.Some? && s'.generation == s.generation + 1 && s'.failed.None?)
            && (error.Some? ==> s' == s.(kind := s'.kind))
            && (s.kind.Some? ==> s'.kind == s.kind)
            && (s.kind.None? ==>
                  (s'.kind.None? <==>
                    a.first.None? || a.first.value.status == 429 || 500 <= a.first.value.status <= 599))
            && (s.kind.None? ==> (s'.kind == Some(Standalone) <==> a.first.Some? && a.first.value.status == 404))
  {
  }

  /** The answer that decides a login: the second one if the first showed that there is no such route. */
  function Deciding(kind: Option<Kind>, a: Answers): Option<Response> {
    if kind.None? && a.first.Some? && a.first.value.status == 404 then a.second else a.first
  }

  /** An answer that authenticates: readable, of the 200 range, and no rejection in its body. */
  predicate Authenticates(r: Response) {
    r.readable && 200 <= r.status <= 299 && r.rejection.None?
  }

  /** A login succeeds exactly when the answer that decides it exists and authenticates. */
  lemma LoginSucceedsIff(s: Session, a: Answers)
    ensures Login(s, a).1.None? <==> Deciding(s.kind, a).Some? && Authenticates(Deciding(s.kind, a).value)
  {
  }

  /** What a login that does not succeed ends with: no answer, an unreadable one, a rate limit with its delay, a status
      of its own for 401, else the rejection code of the body, else the status. */
  lemma LoginErrors(s: Session, a: Answers)
    ensures Deciding(s.kind, a).None? ==> Login(s, a).1 == Some(Transport)
    ensures Deciding(s.kind, a).Some? ==>
              var r, error := Deciding(s.kind, a).value, Login(s, a).1;
              && (!r.readable ==> error == Some(BodyUnreadable))
              && (r.readable && r.status == 429 ==> error == Some(RateLimited(r.retryAfter)))
              && (r.readable && r.status == 401 ==> error == Some(Status(401)))
              && (r.readable && r.status != 429 && r.status != 401 && r.rejection.Some? ==> error == Some(Rejected(r.rejection.value)))
              && (r.readable && r.status != 429 && r.rejection.None? && !(200 <= r.status <= 299) ==> error == Some(Status(r.status)))
  {
  }

  /** A request is refused for want of a login with status 401, or with one rejection code. */
  lemma LoginRequiredIff(error: ApiError)
    ensures IsLoginRequired(error) <==> error == Status(401) || error == Rejected("api.err.LoginRequired")
  {
  }

  /** What a session check at `now` leaves behind; a login that it starts returns at `later`. */
  function AfterEnsure(s: Session, now: nat, a: Answers, later: nat): Session {
    if s.authenticated || SharedFailure(s, now).Some? then s
    else if Login(s, a).1.None? then Login(s, a).0
    else RecordFailure(Login(s, a).0, Login(s, a).1.value, later)
  }

  /** What a refresh by a caller that used generation `observed` leaves behind. */
  function AfterRefresh(s: Session, observed: nat, now: nat, a: Answers, later: nat): Session {
    if (s.generation != observed && s.authenticated) || SharedFailure(s, now).Some? then s
    else AfterEnsure(s.(authenticated := false), now, a, later)
  }

  /*** The client object ***/

  class LegacyClient {
    var kind: Option<Kind>
    var authenticated: bool
    var generation: nat
    var failed: Option<FailedLogin>

    function View(): Session
      reads this
    {
      Session(kind, authenticated, generation, failed)
    }

    constructor ()
      ensures View() == NewSession
    {
      kind, authenticated, generation, failed := None, false, 0, None;
    }

    method Finish(response: Response) returns (error: Option<ApiError>)
      modifies this
      ensures View() == FinishLogin(old(View()), response) && error == LoginError(response)
    {
      if !response.readable { return Some(BodyUnreadable); }
      if response.status == 429 { return Some(RateLimited(response.retryAfter)); }
      if !Success(response.status) { return Some(TranslateFailure(response)); }
      if response.rejection.Some? { return Some(Rejected(response.rejection.value)); }
      authenticated := true;
      generation := generation + 1;
      failed := None;
      error := None;
    }

    /** Logs in, detecting the console family on first use. A transient answer latches nothing. */
    method LogIn(answers: Answers) returns (error: Option<ApiError>)
      modifies this
      ensures (View(), error) == Login(old(View()), answers)
      ensures old(kind).None? ==>
                (kind.None? <==>
                  answers.first.None? || answers.first.value.status == 429 || 500 <= answers.first.value.status <= 599)
      ensures error.None? <==> Deciding(old(kind), answers).Some? && Authenticates(Deciding(old(kind), answers).value)
    {
      LoginSucceedsIff(View(), answers);
      if answers.first.None? { return Some(Transport); }
      var response := answers.first.value;
      if kind.None? {
        if response.status == 404 {
          kind := Some(Standalone);
          if answers.second.None? { return Some(Transport); }
          response := answers.second.value;
        } else if !Transient(response) {
          kind := Some(UnifiOs);
        }
      }
      error := Finish(response);
    }

    /** An authenticated session, or the reason there is none. `now` is the time of the check and
        `later` the time at which a login that it started returned. */
    method EnsureSession(now: nat, answers: Answers, later: nat) returns (r: Result<nat, ApiError>)
      requires SessionOk(View())
      modifies this
      ensures SessionOk(View())
      ensures r.Ok? <==> authenticated
      ensures r.Ok? ==> r.value == generation
      ensures View() == AfterEnsure(old(View()), now, answers, later)
      ensures !old(authenticated) && SharedFailure(old(View()), now).Some? ==> r == Err(SharedFailure(old(View()), now).value)
      ensures !old(authenticated) && SharedFailure(old(View()), now).None? && r.Err? ==>
                Login(old(View()), answers).1 == Some(r.error)
    {
      if !authenticated {
        var shared := SharedFailure(View(), now);
        if shared.Some? { return Err(shared.value); }
        LoginEffect(View(), answers);
        var error := LogIn(answers);
        if error.Some? {
          failed := Some(FailedLogin(later + BackoffWindow(error.value), error.value));
          return Err(error.value);
        }
      }
      return Ok(generation);
    }

    /** Logs in again after a rejection of the generation that the caller used, unless a newer session
        exists already or a failed login is still being shared. */
    method RefreshSession(observed: nat, now: nat, answers: Answers, later: nat) returns (error: Option<ApiError>)
      requires SessionOk(View())
      modifies this
      ensures SessionOk(View())
      ensures error.None? ==> authenticated
      ensures View() == AfterRefresh(old(View()), observed, now, answers, later)
      ensures !(old(generation) != observed && old(authenticated)) && SharedFailure(old(View()), now).Some? ==>
                error == SharedFailure(old(View()), now)
      ensures !(old(generation) != observed && old(authenticated)) && SharedFailure(old(View()), now).None? ==>
                error == Login(old(View()).(authenticated := false), answers).1
    {
      if generation != observed && authenticated { return None; }
      var shared := SharedFailure(View(), now);
      if shared.Some? { return shared; }
      authenticated := false;
      LoginEffect(View(), answers);
      error := LogIn(answers);
      if error.Some? {
        failed := Some(FailedLogin(later + BackoffWindow(error.value), error.value));
      }
    }
  }
}
