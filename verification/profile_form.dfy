/** The profile and password forms of the account page: which requests
    `save()` and `savePassword()` send, and what their responses do to the page.

    Requests are returned as a list instead of being subscribed to; each
    response is an input delivered to the handler of the request it answers. */
module ProfileForm {
  import PasswordRules

  /** The user being edited, and equally the values of the profile form. */
  datatype User = User(firstName: string, lastName: string, email: string, preferredCurrency: string)

  /** The requests the page sends through the user service. */
  datatype Call =
    | SetUserInfo(firstName: string, lastName: string, preferredCurrency: string)
    | ManageEmail(email: string)
    | ManagePassword(password: string, oldPassword: string)

  /** A response: success, or an API error carrying per-field messages. */
  datatype Response = Ok | Error(errors: map<string, string>)

  /** The values of the three password fields. */
  datatype PasswordFields = PasswordFields(oldPassword: string, password: string, confirmPassword: string)

  /** The fields of a newly built password form. */
  const EmptyPasswordFields := PasswordFields("", "", "")

  /** The page fields these handlers read and write.  A form is valid only
      while it is enabled: Angular reports a disabled form group as not valid. */
  datatype Page = Page(
    editingUser: User,
    userFormEnabled: bool,
    passwordFields: PasswordFields,
    passwordFormEnabled: bool,
    passwordFormActive: bool,
    indicators: PasswordRules.Indicators,
    isEmailUpdated: bool,
    isPasswordUpdated: bool,
    httpErrors: bool,
    errors: map<string, string>)

  /** `reset()`: the form shows `user`, who becomes the user being edited, and is disabled. */
  function Reset(page: Page, user: User): (p: Page)
    ensures p.editingUser == user && !p.userFormEnabled
    ensures p.(editingUser := page.editingUser, userFormEnabled := page.userFormEnabled) == page
  {
    page.(editingUser := user, userFormEnabled := false)
  }

  /** `changeStatus()`: a disabled profile form becomes editable; an enabled one stays so. */
  function ChangeStatus(page: Page): (p: Page)
    ensures p.userFormEnabled
    ensures p.(userFormEnabled := page.userFormEnabled) == page
  {
    if !page.userFormEnabled then page.(userFormEnabled := true) else page
  }

  /** `save()`: nothing happens unless the form is enabled and its validators
      pass; otherwise the form is disabled, the profile update is sent when
      first name, last name or currency changed, and the e-mail update when
      the e-mail changed. */
  function Save(page: Page, validatorsPass: bool, values: User): (r: (Page, seq<Call>))
    ensures !(page.userFormEnabled && validatorsPass) ==> r.0 == page && r.1 == []
    ensures page.userFormEnabled && validatorsPass ==> !r.0.userFormEnabled && r.0.(userFormEnabled := page.userFormEnabled) == page
    ensures SetUserInfo(values.firstName, values.lastName, values.preferredCurrency) in r.1 <==>
              page.userFormEnabled && validatorsPass
              && (|| values.firstName != page.editingUser.firstName
                  || values.lastName != page.editingUser.lastName
                  || values.preferredCurrency != page.editingUser.preferredCurrency)
    ensures ManageEmail(values.email) in r.1 <==> page.userFormEnabled && validatorsPass && values.email != page.editingUser.email
    ensures forall c :: c in r.1 ==> c == SetUserInfo(values.firstName, values.lastName, values.preferredCurrency) || c == ManageEmail(values.email)
    ensures |r.1| <= 2 && (|r.1| == 2 ==> r.1[0].SetUserInfo? && r.1[1].ManageEmail?)
  {
    if !(page.userFormEnabled && validatorsPass) then (page, [])
    else
      var editing := page.editingUser;
      var profile :=
        if values.firstName != editing.firstName || values.lastName != editing.lastName || values.preferredCurrency != editing.preferredCurrency
        then [SetUserInfo(values.firstName, values.lastName, values.preferredCurrency)]
        else [];
      var email := if values.email != editing.email then [ManageEmail(values.email)] else [];
      (page.(userFormEnabled := false), profile + email)
  }

  /** An error response re-enables the form it came from and records the API errors. */
  function RecordError(page: Page, errors: map<string, string>, passwordForm: bool): Page {
    if passwordForm then page.(passwordFormEnabled := true, httpErrors := true, errors := errors)
    else page.(userFormEnabled := true, httpErrors := true, errors := errors)
  }

  /** The handler subscribed to request `call`, applied to its response. */
  function OnResponse(page: Page, call: Call, response: Response): (p: Page)
    ensures response.Error? ==> p.httpErrors && p.errors == response.errors
    ensures response.Error? && !call.ManagePassword? ==> p.userFormEnabled
    ensures response.Error? && !call.ManagePassword? ==>
              p.(userFormEnabled := page.userFormEnabled, httpErrors := page.httpErrors, errors := page.errors) == page
    ensures response.Error? && call.ManagePassword? ==> p.passwordFormEnabled
    ensures response.Error? && call.ManagePassword? ==>
              p.(passwordFormEnabled := page.passwordFormEnabled, httpErrors := page.httpErrors, errors := page.errors) == page
    ensures response.Ok? && call.SetUserInfo? ==> p == page
    ensures response.Ok? && call.ManageEmail? ==> p == page.(isEmailUpdated := true)
    ensures response.Ok? && call.ManagePassword? ==> p == page.(isPasswordUpdated := true, passwordFormActive := false)
    ensures p.editingUser == page.editingUser
  {
    match response
    case Error(errors) => RecordError(page, errors, call.ManagePassword?)
    case Ok =>
      match call
      case SetUserInfo(_, _, _) => page
      case ManageEmail(_) => page.(isEmailUpdated := true)
      case ManagePassword(_, _) => page.(isPasswordUpdated := true, passwordFormActive := false)
  }

  /** The responses to profile requests, delivered in the order they arrive. */
  function Deliver(page: Page, replies: seq<(Call, Response)>): Page
    decreases |replies|
  {
    if |replies| == 0 then page
    else Deliver(OnResponse(page, replies[0].0, replies[0].1), replies[1..])
  }

  predicate AnyError(replies: seq<(Call, Response)>) {
    exists i :: 0 <= i < |replies| && replies[i].1.Error?
  }

  predicate EmailConfirmed(replies: seq<(Call, Response)>) {
    exists i :: 0 <= i < |replies| && replies[i].0.ManageEmail? && replies[i].1.Ok?
  }

  /** Whatever order the profile responses arrive in, the form ends up enabled
      exactly when it was already enabled or some request failed, and
      `isEmailUpdated` is set exactly when it was set or an e-mail update succeeded. */
  lemma {:induction false} DeliverOutcome(page: Page, replies: seq<(Call, Response)>)
    requires forall i :: 0 <= i < |replies| ==> !replies[i].0.ManagePassword?
    ensures Deliver(page, replies).userFormEnabled <==> page.userFormEnabled || AnyError(replies)
    ensures Deliver(page, replies).httpErrors <==> page.httpErrors || AnyError(replies)
    ensures Deliver(page, replies).isEmailUpdated <==> page.isEmailUpdated || EmailConfirmed(replies)
    ensures Deliver(page, replies).editingUser == page.editingUser
    decreases |replies|
  {
    if |replies| > 0 {
      var rest := replies[1..];
      assert forall i :: 0 <= i < |rest| ==> rest[i] == replies[i + 1];
      DeliverOutcome(OnResponse(page, replies[0].0, replies[0].1), rest);
      assert AnyError(replies) <==> replies[0].1.Error? || AnyError(rest) by {
        if AnyError(replies) && !replies[0].1.Error? {
          var i :| 0 <= i < |replies| && replies[i].1.Error?;
          assert rest[i - 1] == replies[i];
        }
      }
      assert EmailConfirmed(replies) <==> (replies[0].0.ManageEmail? && replies[0].1.Ok?) || EmailConfirmed(rest) by {
        if EmailConfirmed(replies) && !(replies[0].0.ManageEmail? && replies[0].1.Ok?) {
          var i :| 0 <= i < |replies| && replies[i].0.ManageEmail? && replies[i].1.Ok?;
          assert rest[i - 1] == replies[i];
        }
      }
    }
  }

  /** After a valid save and all of its responses, the profile form is enabled
      again exactly when one of the requests failed. */
  lemma SaveThenReplies(page: Page, values: User, responses: seq<Response>)
    requires |responses| == |Save(page, true, values).1|
    ensures var (saved, calls) := Save(page, true, values);
            var replies := seq(|calls|, i requires 0 <= i < |calls| => (calls[i], responses[i]));
            Deliver(saved, replies).userFormEnabled <==> exists i :: 0 <= i < |responses| && responses[i].Error?
  {
    var (saved, calls) := Save(page, true, values);
    var replies := seq(|calls|, i requires 0 <= i < |calls| => (calls[i], responses[i]));
    assert forall i :: 0 <= i < |replies| ==> replies[i].0 in calls;
    DeliverOutcome(saved, replies);
    assert AnyError(replies) <==> exists i :: 0 <= i < |responses| && responses[i].Error? by {
      if exists i :: 0 <= i < |responses| && responses[i].Error? {
        var i :| 0 <= i < |responses| && responses[i].Error?;
        assert replies[i].1.Error?;
      }
    }
  }

  /** Right after `reset(user)` and `changeStatus()`, saving the unchanged form sends nothing. */
  lemma SaveUnchangedSendsNothing(page: Page, user: User)
    ensures Save(ChangeStatus(Reset(page, user)), true, user).1 == []
  {
  }

  /** Successful responses never re-enable a form. */
  lemma {:induction false} OkRepliesKeepForms(page: Page, replies: seq<(Call, Response)>)
    requires forall i :: 0 <= i < |replies| ==> replies[i].1.Ok?
    ensures Deliver(page, replies).userFormEnabled == page.userFormEnabled
    ensures Deliver(page, replies).passwordFormEnabled == page.passwordFormEnabled
    ensures Deliver(page, replies).passwordFields == page.passwordFields
    decreases |replies|
  {
    if |replies| > 0 {
      var rest := replies[1..];
      assert forall i :: 0 <= i < |rest| ==> rest[i] == replies[i + 1];
      OkRepliesKeepForms(OnResponse(page, replies[0].0, replies[0].1), rest);
    }
  }

  /** Once `save()` has gone ahead, a second `save()` sends nothing until an
      error response re-enables the form, however many successful responses
      have arrived in between. */
  lemma NoSecondSaveBeforeError(page: Page, values: User, replies: seq<(Call, Response)>, validatorsPass: bool, again: User)
    requires page.userFormEnabled
    requires forall i :: 0 <= i < |replies| ==> replies[i].1.Ok?
    ensures Save(Deliver(Save(page, true, values).0, replies), validatorsPass, again).1 == []
  {
    OkRepliesKeepForms(Save(page, true, values).0, replies);
  }

  /** `Validators.required` on a text field. */
  predicate Required(value: string) {
    value != ""
  }

  /** The validators of the password form: each field is required, the new
      password must satisfy the strength pattern, and the form-level validator
      must report that the confirmation matches (`passwordsMatch`). */
  predicate PasswordFormValid(fields: PasswordFields, passwordsMatch: bool)
    ensures PasswordFormValid(fields, passwordsMatch) ==> PasswordRules.MatchesPattern(PasswordRules.Utf16(fields.password))
    ensures fields.oldPassword == "" || fields.confirmPassword == "" ==> !PasswordFormValid(fields, passwordsMatch)
  {
    && Required(fields.oldPassword)
    && Required(fields.password)
    && PasswordRules.PatternValidatorAccepts(PasswordRules.Utf16(fields.password))
    && Required(fields.confirmPassword)
    && passwordsMatch
  }

  /** `showPasswordForm()`: `resetPasswordForm()` builds a new, empty, enabled
      form, which is then shown.  Building it raises no value change, so the
      indicators keep their values. */
  function ShowPasswordForm(page: Page): (p: Page)
    ensures p.passwordFields == EmptyPasswordFields
    ensures p.passwordFormActive && p.passwordFormEnabled
    ensures p.(passwordFields := page.passwordFields, passwordFormActive := page.passwordFormActive, passwordFormEnabled := page.passwordFormEnabled) == page
  {
    page.(passwordFields := EmptyPasswordFields, passwordFormActive := true, passwordFormEnabled := true)
  }

  /** The password form's value-change handler: the form holds `fields`, and
      the five indicators are re-tested on the new password. */
  function EditPassword(page: Page, fields: PasswordFields): (p: Page)
    ensures p.passwordFields == fields
    ensures p.indicators == PasswordRules.IndicatorsOf(PasswordRules.Utf16(fields.password))
    ensures p.(passwordFields := page.passwordFields, indicators := page.indicators) == page
  {
    page.(passwordFields := fields, indicators := PasswordRules.IndicatorsOf(PasswordRules.Utf16(fields.password)))
  }

  /** `savePassword()`: when the form is enabled and its validators pass, the
      form is disabled and one request carrying the new and the old password
      is sent; nothing happens otherwise. */
  function SavePassword(page: Page, passwordsMatch: bool): (r: (Page, seq<Call>))
    ensures r.1 != [] <==> page.passwordFormEnabled && PasswordFormValid(page.passwordFields, passwordsMatch)
    ensures r.1 == [] ==> r.0 == page
    ensures r.1 != [] ==> r.1 == [ManagePassword(page.passwordFields.password, page.passwordFields.oldPassword)]
    ensures r.1 != [] ==> !r.0.passwordFormEnabled && r.0.(passwordFormEnabled := page.passwordFormEnabled) == page
  {
    if page.passwordFormEnabled && PasswordFormValid(page.passwordFields, passwordsMatch) then
      (page.(passwordFormEnabled := false), [ManagePassword(page.passwordFields.password, page.passwordFields.oldPassword)])
    else (page, [])
  }

  /** A password that `savePassword()` sends always satisfies the strength
      pattern, and is sent with a non-empty old password. */
  lemma SentPasswordMatchesPattern(page: Page, passwordsMatch: bool)
    requires SavePassword(page, passwordsMatch).1 != []
    ensures PasswordRules.MatchesPattern(PasswordRules.Utf16(SavePassword(page, passwordsMatch).1[0].password))
    ensures SavePassword(page, passwordsMatch).1[0].oldPassword != ""
  {
  }

  /** A freshly shown password form is empty and so cannot be submitted. */
  lemma FreshPasswordFormSendsNothing(page: Page, passwordsMatch: bool)
    ensures SavePassword(ShowPasswordForm(page), passwordsMatch).1 == []
  {
  }

  /** Once `savePassword()` has sent its request, a second one sends nothing
      until an error response re-enables the form. */
  lemma NoSecondPasswordSaveBeforeError(page: Page, passwordsMatch: bool, replies: seq<(Call, Response)>, again: bool)
    requires page.passwordFormEnabled && PasswordFormValid(page.passwordFields, passwordsMatch)
    requires forall i :: 0 <= i < |replies| ==> replies[i].1.Ok?
    ensures SavePassword(Deliver(SavePassword(page, passwordsMatch).0, replies), again).1 == []
  {
    OkRepliesKeepForms(SavePassword(page, passwordsMatch).0, replies);
  }

  /** Whenever a typed password is sent, the five indicators it produced are all on. */
  lemma SentPasswordShowsAllIndicators(page: Page, fields: PasswordFields, passwordsMatch: bool)
    requires SavePassword(EditPassword(page, fields), passwordsMatch).1 != []
    ensures PasswordRules.AllIndicatorsOn(EditPassword(page, fields).indicators)
  {
    PasswordRules.PatternIffIndicators(PasswordRules.Utf16(fields.password));
  }
}
