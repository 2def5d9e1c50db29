/** The two-step account deletion of the account page.

    Opening the delete dialog without a stored confirmation token sends a
    first delete request; a response carrying a token stores it.  Confirming
    sends the stored token with a second delete request; success clears the
    token and the user's information, failure keeps the token and shows an
    error in the dialog.  Requests are returned instead of subscribed to, and
    responses are inputs. */
module AccountDeletion {
  import opened Wrappers

  const FirstAttemptFailed: string := "Failed to delete account. Please try again later"
  const ConfirmationFailed: string := "Account deletion failed. Please log out, then log back in and try again"

  /** What the token service holds: the confirmation token and its message. */
  datatype TokenStore = TokenStore(token: Option<string>, message: Option<string>)

  /** The page and session state the deletion flow reads and writes. */
  datatype Deletion = Deletion(
    store: TokenStore,
    confirmationMessage: string,
    deleteError: Option<string>,
    deleteModalError: Option<string>,
    userInfoStored: bool,
    onLoginPage: bool)

  /** The two delete requests: the first carries no token, the second the stored one. */
  datatype DeleteRequest = RequestDeletion | ConfirmWithToken(token: string)

  /** The body of a successful first delete response, `null` when absent. */
  datatype FirstBody = FirstBody(confirmationToken: Option<string>, confirmationMessage: string)

  datatype FirstResponse = FirstOk(body: Option<FirstBody>) | FirstFailed

  /** JavaScript truthiness of an optional string: present and non-empty. */
  predicate Truthy(s: Option<string>) {
    s.Some? && s.value != ""
  }

  /** `openDeleteDialog()`: clears both errors, shows a stored confirmation
      message, and sends the first delete request only when no token is stored. */
  function OpenDeleteDialog(d: Deletion): (r: (Deletion, Option<DeleteRequest>))
    ensures r.1 == Some(RequestDeletion) <==> !Truthy(d.store.token)
    ensures r.1 == None <==> Truthy(d.store.token)
    ensures r.0.deleteError == None && r.0.deleteModalError == None
    ensures r.0.store == d.store && r.0.userInfoStored == d.userInfoStored
    ensures Truthy(d.store.message) ==> r.0.confirmationMessage == d.store.message.value
    ensures !Truthy(d.store.message) ==> r.0.confirmationMessage == d.confirmationMessage
    ensures r.0.(deleteError := d.deleteError, deleteModalError := d.deleteModalError, confirmationMessage := d.confirmationMessage) == d
  {
    var shown := if Truthy(d.store.message) then d.store.message.value else d.confirmationMessage;
    var d' := d.(deleteError := None, deleteModalError := None, confirmationMessage := shown);
    (d', if Truthy(d.store.token) then None else Some(RequestDeletion))
  }

  /** The handler of the first delete request: a response carrying a token
      stores it with its message; an error sets the page's delete error. */
  function OnFirstResponse(d: Deletion, response: FirstResponse): (d': Deletion)
    ensures d'.store != d.store ==> response.FirstOk? && response.body.Some? && Truthy(response.body.value.confirmationToken)
    ensures response.FirstOk? && response.body.Some? && Truthy(response.body.value.confirmationToken) ==>
              d'.store == TokenStore(response.body.value.confirmationToken, Some(response.body.value.confirmationMessage))
              && d'.confirmationMessage == response.body.value.confirmationMessage
              && d'.(store := d.store, confirmationMessage := d.confirmationMessage) == d
    ensures response.FirstOk? && !(response.body.Some? && Truthy(response.body.value.confirmationToken)) ==> d' == d
    ensures response.FirstFailed? ==> d' == d.(deleteError := Some(FirstAttemptFailed))
    ensures d'.userInfoStored == d.userInfoStored && d'.deleteModalError == d.deleteModalError
  {
    match response
    case FirstFailed => d.(deleteError := Some(FirstAttemptFailed))
    case FirstOk(body) =>
      if body.Some? && Truthy(body.value.confirmationToken) then
        d.(confirmationMessage := body.value.confirmationMessage,
           store := TokenStore(body.value.confirmationToken, Some(body.value.confirmationMessage)))
      else d
  }

  /** `confirmDeletion()`: clears the dialog error and sends the stored token,
      if there is one. */
  function ConfirmDeletion(d: Deletion): (r: (Deletion, Option<DeleteRequest>))
    ensures r.1.Some? <==> Truthy(d.store.token)
    ensures r.1.Some? ==> r.1.value == ConfirmWithToken(d.store.token.value)
    ensures r.0 == d.(deleteModalError := None)
  {
    var d' := d.(deleteModalError := None);
    if Truthy(d.store.token) then (d', Some(ConfirmWithToken(d.store.token.value))) else (d', None)
  }

  /** The dialog closed: only an explicit `true` result confirms the deletion. */
  function AfterDialogClosed(d: Deletion, confirmed: bool): (r: (Deletion, Option<DeleteRequest>))
    ensures !confirmed ==> r == (d, None)
    ensures r.1.Some? <==> confirmed && Truthy(d.store.token)
    ensures r.1.Some? ==> r.1 == Some(ConfirmWithToken(d.store.token.value))
    ensures confirmed ==> r.0 == d.(deleteModalError := None)
  {
    if confirmed then ConfirmDeletion(d) else (d, None)
  }

  /** `closeDialog()`: both errors are cleared. */
  function CloseDialog(d: Deletion): (d': Deletion)
    ensures d'.deleteError == None && d'.deleteModalError == None
    ensures d'.(deleteError := d.deleteError, deleteModalError := d.deleteModalError) == d
  {
    d.(deleteError := None, deleteModalError := None)
  }

  /** The handler of the confirming request: success clears the token and its
      message and the user's information and goes to the login page; failure
      keeps everything but the dialog error. */
  function OnConfirmResponse(d: Deletion, ok: bool): (d': Deletion)
    ensures ok ==> d'.store == TokenStore(None, None) && !d'.userInfoStored && d'.onLoginPage
    ensures ok ==> d'.(store := d.store, userInfoStored := d.userInfoStored, onLoginPage := d.onLoginPage) == d
    ensures !ok ==> d'.deleteModalError == Some(ConfirmationFailed)
    ensures !ok ==> d'.(deleteModalError := d.deleteModalError) == d
  {
    if ok then d.(store := TokenStore(None, None), userInfoStored := false, onLoginPage := true)
    else d.(deleteModalError := Some(ConfirmationFailed))
  }

  /** A stored token is never empty: the store only takes tokens that passed the truthiness test. */
  predicate StoreWellFormed(d: Deletion) {
    d.store.token.Some? ==> d.store.token.value != ""
  }

  /** The flow together with the requests in flight: `pending` are the
      requests sent and not yet answered, `sent` every request sent so far. */
  datatype Session = Session(d: Deletion, pending: seq<DeleteRequest>, sent: seq<DeleteRequest>)

  /** The events of the flow.  A reply names the pending request it answers
      by its position, since replies may arrive in any order. */
  datatype Event =
    | Open
    | FirstReply(request: nat, response: FirstResponse)
    | Closed(confirmed: bool)
    | Close
    | ConfirmReply(request: nat, ok: bool)

  /** The request, if any, as a list of requests sent. */
  function Sent(request: Option<DeleteRequest>): seq<DeleteRequest> {
    if request.Some? then [request.value] else []
  }

  /** The pending requests without the one at position `i`. */
  function Answer(pending: seq<DeleteRequest>, i: nat): (rest: seq<DeleteRequest>)
    requires i < |pending|
    ensures |rest| == |pending| - 1
    ensures forall r :: r in rest ==> r in pending
  {
    pending[..i] + pending[i + 1..]
  }

  /** One event.  A reply consumes the pending request it answers and runs
      that request's handler; a reply to no pending request of its kind
      cannot arrive and changes nothing. */
  function Step(s: Session, e: Event): Session {
    match e
    case Open =>
      var (d', request) := OpenDeleteDialog(s.d);
      Session(d', s.pending + Sent(request), s.sent + Sent(request))
    case FirstReply(i, response) =>
      if i < |s.pending| && s.pending[i] == RequestDeletion
      then Session(OnFirstResponse(s.d, response), Answer(s.pending, i), s.sent)
      else s
    case Closed(confirmed) =>
      var (d', request) := AfterDialogClosed(s.d, confirmed);
      Session(d', s.pending + Sent(request), s.sent + Sent(request))
    case Close => s.(d := CloseDialog(s.d))
    case ConfirmReply(i, ok) =>
      if i < |s.pending| && s.pending[i].ConfirmWithToken?
      then Session(OnConfirmResponse(s.d, ok), Answer(s.pending, i), s.sent)
      else s
  }

  function Run(s: Session, events: seq<Event>): Session
    decreases |events|
  {
    if |events| == 0 then s else Run(Step(s, events[0]), events[1..])
  }

  /** The stored token is non-empty, every pending request was sent, and every
      confirming request sent carried a non-empty token. */
  predicate SessionWellFormed(s: Session) {
    && StoreWellFormed(s.d)
    && (forall r :: r in s.pending ==> r in s.sent)
    && (forall r :: r in s.sent && r.ConfirmWithToken? ==> r.token != "")
  }

  /** A confirming request is only ever sent with the stored token, so it is never empty. */
  lemma StepKeepsSessionWellFormed(s: Session, e: Event)
    requires SessionWellFormed(s)
    ensures SessionWellFormed(Step(s, e))
    ensures s.sent <= Step(s, e).sent
    ensures s.d.userInfoStored && !Step(s, e).d.userInfoStored ==>
              e.ConfirmReply? && e.ok && e.request < |s.pending| && s.pending[e.request].ConfirmWithToken?
  {
  }

  /** Along any sequence of events the stored token stays non-empty, and the
      user's information is dropped only when a successful reply answers a
      confirming request that was sent with a non-empty token. */
  lemma {:induction false} RunKeepsSessionWellFormed(s: Session, events: seq<Event>)
    requires SessionWellFormed(s)
    ensures SessionWellFormed(Run(s, events))
    ensures s.sent <= Run(s, events).sent
    ensures s.d.userInfoStored && !Run(s, events).d.userInfoStored ==>
              exists t :: ConfirmWithToken(t) in Run(s, events).sent && t != ""
    decreases |events|
  {
    if |events| > 0 {
      var next := Step(s, events[0]);
      StepKeepsSessionWellFormed(s, events[0]);
      RunKeepsSessionWellFormed(next, events[1..]);
      if s.d.userInfoStored && !Run(s, events).d.userInfoStored && !next.d.userInfoStored {
        var r := s.pending[events[0].request];
        assert r in s.sent;
        assert r in Run(s, events).sent by {
          assert s.sent <= next.sent <= Run(next, events[1..]).sent;
        }
        assert ConfirmWithToken(r.token) == r;
      }
    }
  }

  /** The whole flow from a session with no token: open the dialog, receive a
      token, confirm; the confirming request carries exactly that token, and
      its success clears the token and the user's information. */
  lemma HappyPath(d: Deletion, token: string, message: string)
    requires d.store.token == None
    requires token != ""
    ensures OpenDeleteDialog(d).1 == Some(RequestDeletion)
    ensures OnFirstResponse(OpenDeleteDialog(d).0, FirstOk(Some(FirstBody(Some(token), message)))).store.token == Some(token)
    ensures var stored := OnFirstResponse(OpenDeleteDialog(d).0, FirstOk(Some(FirstBody(Some(token), message))));
            AfterDialogClosed(stored, true).1 == Some(ConfirmWithToken(token))
            && OnConfirmResponse(AfterDialogClosed(stored, true).0, true).store.token == None
            && !OnConfirmResponse(AfterDialogClosed(stored, true).0, true).userInfoStored
  {
  }

  /** Reopening the dialog while a token is stored sends no new first request
      and leaves the store as it is. */
  lemma ReopenKeepsToken(d: Deletion)
    requires Truthy(d.store.token)
    ensures OpenDeleteDialog(d).1 == None && OpenDeleteDialog(d).0.store == d.store
  {
  }

  /** Opening the dialog twice before the first reply arrives sends two first
      requests: nothing is stored yet, so the second open sends again, and the
      later reply's token replaces the earlier one. */
  lemma DoubleOpenSendsTwice(d: Deletion, first: string, second: string)
    requires !Truthy(d.store.token)
    requires first != "" && second != ""
    ensures OpenDeleteDialog(d).1 == Some(RequestDeletion)
    ensures OpenDeleteDialog(OpenDeleteDialog(d).0).1 == Some(RequestDeletion)
    ensures var twice := OpenDeleteDialog(OpenDeleteDialog(d).0).0;
            var afterFirst := OnFirstResponse(twice, FirstOk(Some(FirstBody(Some(first), ""))));
            OnFirstResponse(afterFirst, FirstOk(Some(FirstBody(Some(second), "")))).store.token == Some(second)
  {
  }

  /** The same flow as a run of events: the two requests go out in order, each
      reply consumes its request, and the run ends with nothing in flight and
      the user's information dropped. */
  lemma HappyRun(d: Deletion, token: string, message: string)
    requires d.store.token == None && d.userInfoStored
    requires token != ""
    ensures var events := [Open, FirstReply(0, FirstOk(Some(FirstBody(Some(token), message)))), Closed(true), ConfirmReply(0, true)];
            var s := Run(Session(d, [], []), events);
            && s.sent == [RequestDeletion, ConfirmWithToken(token)]
            && s.pending == []
            && !s.d.userInfoStored && s.d.store.token == None
  {
    var s0 := Session(d, [], []);
    var s1 := Step(s0, Open);
    assert s1.pending == [RequestDeletion];
    var s2 := Step(s1, FirstReply(0, FirstOk(Some(FirstBody(Some(token), message)))));
    assert s2.pending == [] && s2.d.store.token == Some(token);
    var s3 := Step(s2, Closed(true));
    assert s3.pending == [ConfirmWithToken(token)];
    var s4 := Step(s3, ConfirmReply(0, true));
    assert s4.pending == [];
    var events := [Open, FirstReply(0, FirstOk(Some(FirstBody(Some(token), message)))), Closed(true), ConfirmReply(0, true)];
    assert Run(s3, events[3..]) == s4 by {
      assert events[3..] == [ConfirmReply(0, true)];
      assert Run(s4, events[4..]) == s4;
    }
    assert Run(s2, events[2..]) == s4 by { assert events[2..][1..] == events[3..]; }
    assert Run(s1, events[1..]) == s4 by { assert events[1..][1..] == events[2..]; }
  }
}
