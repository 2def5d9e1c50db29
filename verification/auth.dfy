/** The sign-in state of the client's authentication service.

    The service keeps the current signed-in flag in memory and a copy of it
    in browser storage under `auth_data`.  Storage is an optional boolean (the
    serialised flag, or nothing).  Each HTTP call is replaced by its reply:
    `HttpClient` delivers a 2xx answer to the `map` step, whose `res.ok` is
    then always true, and turns any other status into an error that skips the
    `map` step and reaches the caller unchanged. */
module Auth {
  import opened Wrappers

  datatype AuthState = AuthState(signedIn: bool, stored: Option<bool>)

  /** The reply to one HTTP call: a 2xx answer, or an error status. */
  datatype Reply = Answered | Rejected(status: int)

  /** What the returned observable delivers: the `ok` flag of a 2xx answer, or the error status. */
  type Outcome = Result<bool, int>

  /** The caller sees `true` for an answer and the status for an error. */
  function OutcomeOf(reply: Reply): (o: Outcome)
    ensures o.Success? <==> reply.Answered?
    ensures o.Success? ==> o.value
    ensures reply.Rejected? ==> o.error == reply.status
  {
    match reply
    case Answered => Success(true)
    case Rejected(status) => Failure(status)
  }

  /** `isSignedOut$`: the negation of the signed-in flag. */
  function IsSignedOut(s: AuthState): bool {
    !s.signedIn
  }

  /** Construction: the flag starts false and takes the stored value when there is one. */
  function Init(stored: Option<bool>): (s: AuthState)
    ensures s.stored == stored
    ensures stored == None ==> !s.signedIn
    ensures stored.Some? ==> s.signedIn == stored.value
  {
    AuthState(if stored.Some? then stored.value else false, stored)
  }

  /** `signIn`: an answer signs in and stores `true`; an error status leaves
      both the flag and storage as they were. */
  function SignIn(s: AuthState, reply: Reply): (r: (AuthState, Outcome))
    ensures reply.Answered? ==> r.0 == AuthState(true, Some(true)) && r.1 == Success(true)
    ensures reply.Rejected? ==> r.0 == s && r.1 == Failure(reply.status)
  {
    match reply
    case Answered => (AuthState(true, Some(true)), OutcomeOf(reply))
    case Rejected(_) => (s, OutcomeOf(reply))
  }

  /** `signOut`: an answer signs out and empties storage; an error status
      leaves both the flag and storage as they were. */
  function SignOut(s: AuthState, reply: Reply): (r: (AuthState, Outcome))
    ensures reply.Answered? ==> r.0 == AuthState(false, None) && r.1 == Success(true)
    ensures reply.Rejected? ==> r.0 == s && r.1 == Failure(reply.status)
  {
    match reply
    case Answered => (AuthState(false, None), OutcomeOf(reply))
    case Rejected(_) => (s, OutcomeOf(reply))
  }

  /** `register`: the state is untouched either way; the caller sees the outcome. */
  function Register(s: AuthState, reply: Reply): (r: (AuthState, Outcome))
    ensures r.0 == s
    ensures reply.Answered? ==> r.1 == Success(true)
    ensures reply.Rejected? ==> r.1 == Failure(reply.status)
  {
    (s, OutcomeOf(reply))
  }

  /** Memory and storage agree: restoring from storage gives back the flag. */
  predicate InStep(s: AuthState) {
    s.signedIn == s.stored.GetOr(false)
  }

  /** A call to the service, with the reply it received. */
  datatype Call = SignInCall(reply: Reply) | SignOutCall(reply: Reply) | RegisterCall(reply: Reply)

  function Perform(s: AuthState, c: Call): AuthState {
    match c
    case SignInCall(reply) => SignIn(s, reply).0
    case SignOutCall(reply) => SignOut(s, reply).0
    case RegisterCall(reply) => Register(s, reply).0
  }

  /** The state after the calls, performed in order. */
  function RunCalls(s: AuthState, calls: seq<Call>): AuthState
    decreases |calls|
  {
    if |calls| == 0 then s else Perform(RunCalls(s, calls[..|calls| - 1]), calls[|calls| - 1])
  }

  /** A call that changes the session: a sign-in or sign-out that was answered. */
  predicate ChangesSession(c: Call) {
    !c.RegisterCall? && c.reply.Answered?
  }

  /** The state an answered sign-in or sign-out leaves behind. */
  function SessionAfter(c: Call): AuthState {
    if c.SignInCall? then AuthState(true, Some(true)) else AuthState(false, None)
  }

  /** Every call keeps memory and storage in step. */
  lemma PerformKeepsInStep(s: AuthState, c: Call)
    requires InStep(s)
    ensures InStep(Perform(s, c))
  {
  }

  /** Starting from any stored value and after any calls, memory and storage
      agree, so a reload of the page restores exactly the current flag, and
      `isSignedOut$` holds exactly when storage does not hold `true`. */
  lemma {:induction false} ReloadRestoresState(stored: Option<bool>, calls: seq<Call>)
    ensures var s := RunCalls(Init(stored), calls); Init(s.stored) == s
    ensures var s := RunCalls(Init(stored), calls); IsSignedOut(s) <==> s.stored != Some(true)
  {
    InStepAlongCalls(Init(stored), calls);
  }

  lemma {:induction false} InStepAlongCalls(s: AuthState, calls: seq<Call>)
    requires InStep(s)
    ensures InStep(RunCalls(s, calls))
    decreases |calls|
  {
    if |calls| > 0 {
      InStepAlongCalls(s, calls[..|calls| - 1]);
      PerformKeepsInStep(RunCalls(s, calls[..|calls| - 1]), calls[|calls| - 1]);
    }
  }

  /** Calls that do not change the session leave the state as it was. */
  lemma {:induction false} QuietCallsKeepState(s: AuthState, calls: seq<Call>)
    requires forall i :: 0 <= i < |calls| ==> !ChangesSession(calls[i])
    ensures RunCalls(s, calls) == s
    decreases |calls|
  {
    if |calls| > 0 {
      QuietCallsKeepState(s, calls[..|calls| - 1]);
    }
  }

  /** The state after any calls is decided by the last answered sign-in or
      sign-out: signed in with `true` stored after a sign-in, signed out with
      storage empty after a sign-out.  Failed calls and registrations after it
      change nothing. */
  lemma {:induction false} LastSessionCallDecides(s: AuthState, calls: seq<Call>, k: nat)
    requires k < |calls| && ChangesSession(calls[k])
    requires forall j :: k < j < |calls| ==> !ChangesSession(calls[j])
    ensures RunCalls(s, calls) == SessionAfter(calls[k])
    ensures calls[k].SignInCall? ==> !IsSignedOut(RunCalls(s, calls))
    ensures calls[k].SignOutCall? ==> IsSignedOut(RunCalls(s, calls))
    decreases |calls|
  {
    var prefix := calls[..|calls| - 1];
    if k < |calls| - 1 {
      assert forall j :: k < j < |prefix| ==> prefix[j] == calls[j];
      LastSessionCallDecides(s, prefix, k);
    }
  }
}
