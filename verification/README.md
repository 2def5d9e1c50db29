# EconoFlow: validation and account-page logic in Dafny

This project models the pieces of EconoFlow (a personal and family finance
tracker) that have a precise meaning once HTTP, the browser and the UI
framework are set aside:

- **Expense / ExpenseItem field validation** (`expenses.dfy`, module `Expenses`).
  Each setter checks one field. It either commits the value or raises a
  `ValidationException` carrying a message and the offending property's name.
  The entity classes are not part of this model; the rules are the ones
  `ExpenseTests` asserts. A raised exception is a `Failure`. A builder chain
  followed by `Build()` is modelled as a fold that stops at the first failure.
- **Password strength** (`password_rules.dfy`, module `PasswordRules`): the
  ECMAScript meaning of the password pattern and of the five live indicator
  tests on the account page. A password is a JavaScript string, that is, a
  sequence of UTF-16 code units. The expressions carry no `u` flag, so they
  match unit by unit, and a character outside the Basic Multilingual Plane
  counts as two units.
- **`getFormFieldErrors`** (`form_errors.dfy`, module `FormErrors`): the loop
  that turns a control's error keys into messages.
- **Profile and password forms** (`profile_form.dfy`, module `ProfileForm`):
  which requests `save()` and `savePassword()` send, and what each response
  handler does to the page.
- **Account deletion** (`account_deletion.dfy`, module `AccountDeletion`): the
  two-step flow. A first request without a token may return a confirmation
  token. A second request sends that token back. A run of events keeps the
  requests in flight, and each reply answers one of them.
- **Sign-in state** (`auth.dfy`, module `Auth`): the in-memory signed-in flag
  and its copy in browser storage, kept in step by construction, `signIn` and
  `signOut`. Only a 2xx answer reaches the code that updates them; an error
  status bypasses it and reaches the caller as an error.
- **`ProjectBuilder`** (`project_builder.dfy`, module `ProjectBuilder`): the
  fluent test builder that delegates to `Project` setters.

`wrappers.dfy` holds the shared `Option` and `Result` types.

Inputs replace everything the code reads from outside:
- "now" and "200 years before now" are a `Clock`;
- each HTTP response is an answer or an error status, or a response value;
- `localStorage` is an optional stored boolean;
- the token service is a `TokenStore` record;
- whether the profile form's validators pass is a boolean. A form that is
  disabled is never valid. The password form's validators are modelled, and
  so are its field values.

Requests are returned as values, not subscribed to.

## Model

| member | source | states |
|---|---|---|
| `Expenses.Violation` | EasyFinance.Domain.Tests/Financial/ExpenseTests.cs:17-19 | The error's property is the property it is built for. The date rule's message is the bare template. Every other message is its template formatted with that same property name. |
| `Expenses.SetGoal` | EasyFinance.Domain.Tests/Financial/ExpenseTests.cs:10-20 | The goal is rejected exactly when it is negative, with `PropertyCantBeLessThanZero` formatted with "Goal" and property "Goal". An accepted goal is stored and no other field changes. |
| `Expenses.SetName` | EasyFinance.Domain.Tests/Financial/ExpenseTests.cs:22-32 | The name is rejected exactly when it is null or empty, with `PropertyCantBeNullOrEmpty` and property "Name". Otherwise it is stored and nothing else changes. |
| `Expenses.SetDate` | EasyFinance.Domain.Tests/Financial/ExpenseTests.cs:34-43 | A date after now, or at or before now minus 200 years, is rejected with the unformatted `InvalidDate` message and property "Date". Any other date is stored and nothing else changes. |
| `Expenses.InvalidDatesRejected` | EasyFinance.Domain.Tests/Financial/ExpenseTests.cs:87-92 | The two `InvalidDates` values are rejected: now plus one day, and now minus exactly 200 years. |
| `Expenses.SetAmount` | EasyFinance.Domain.Tests/Financial/ExpenseTests.cs:45-55 | The amount is rejected exactly when it is negative, with the template formatted with "Amount" and property "Amount". Otherwise it is stored and nothing else changes. |
| `Expenses.SetCreatedBy` | EasyFinance.Domain.Tests/Financial/ExpenseTests.cs:57-65 | A null creator is rejected with `PropertyCantBeNull` for "CreatedBy". Any user is stored and nothing else changes. |
| `Expenses.SetAttachments` | EasyFinance.Domain.Tests/Financial/ExpenseTests.cs:67-75 | A null attachment collection is rejected with `PropertyCantBeNull` for "Attachments". Any collection, including an empty one, is stored. |
| `Expenses.SetItems` | EasyFinance.Domain.Tests/Financial/ExpenseTests.cs:77-85 | A null item collection is rejected with `PropertyCantBeNull` for "Items". Any collection is stored. |
| `Expenses.ApplyItem` | EasyFinance.Domain.Tests/Financial/ExpenseTests.cs:67-85 | An item builder step fails exactly when its collection is null, with that collection's `PropertyCantBeNull` error. A successful step stores the collection in its own field and changes nothing else. |
| `Expenses.BuildItem` | EasyFinance.Domain.Tests/Financial/ExpenseTests.cs:70 | Any error an item builder chain raises is the error of one of its steps. |
| `Expenses.BuildItemStopsAtFirstViolation` | EasyFinance.Domain.Tests/Financial/ExpenseTests.cs:67-85 | An item chain whose first null collection is at step `i` raises exactly that step's error, so `Build()` never returns an item. |
| `Expenses.BuildItemSucceedsIffNoViolation` | EasyFinance.Domain.Tests/Financial/ExpenseTests.cs:67-85 | An item chain yields an item if and only if none of its collections is null. |
| `Expenses.ItemStepIdempotent` | EasyFinance.Domain.Tests/Financial/ExpenseTests.cs:67-85 | Setting a collection again to the value just accepted changes nothing. |
| `Expenses.ItemBuildRoundTrip` | EasyFinance.Domain.Tests/Financial/ExpenseTests.cs:67-85 | Building an item from two collections, empty ones included, succeeds whatever the draft held. Both collections read back as supplied. |
| `Expenses.Apply` | EasyFinance.Domain.Tests/Financial/ExpenseTests.cs:10-65 | A builder step fails exactly when its argument breaks its field's rule, with the error of that rule; it does not depend on the other fields. A successful step stores its argument in its own field and changes nothing else. |
| `Expenses.Build` | EasyFinance.Domain.Tests/Financial/ExpenseTests.cs:15-17 | Any error a builder chain raises is the error of one of its steps. |
| `Expenses.BuildStopsAtFirstViolation` | EasyFinance.Domain.Tests/Financial/ExpenseTests.cs:36-42 | A chain whose first invalid step is step `i` raises exactly that step's error, so `Build()` never returns an entity. |
| `Expenses.BuildSucceedsIffNoViolation` | EasyFinance.Domain.Tests/Financial/ExpenseTests.cs:10-65 | A chain yields an entity if and only if none of its steps breaks a rule. |
| `Expenses.StepPreservesValid` | EasyFinance.Domain.Tests/Financial/ExpenseTests.cs:10-65 | A successful setter keeps an entity whose every field satisfies its rule in that state. |
| `Expenses.StepIdempotent` | EasyFinance.Domain.Tests/Financial/ExpenseTests.cs:10-65 | Repeating a successful setter call with the same value changes nothing. |
| `Expenses.BuildRoundTrip` | EasyFinance.Domain.Tests/Financial/ExpenseTests.cs:10-65 | Building name "Rent", goal 500, amount 450, date now and a creator succeeds whatever the draft held. Every attribute reads back as supplied, and the result is valid. |
| `PasswordRules.EncodeChar` | easyfinance.client/src/app/features/user/detail-user/detail-user.component.ts:107 | A character inside the Basic Multilingual Plane is one code unit, equal to the character. Any other character is a high surrogate followed by a low surrogate, and the pair decodes back to the character. |
| `PasswordRules.MatchesPattern` | easyfinance.client/src/app/features/user/detail-user/detail-user.component.ts:107 | Defines the pattern on code units: the four `(?=.*[k])` lookaheads, the `(?!.* )` lookahead and `^.{8,}$`. `PatternCharacterisation` states what it accepts. |
| `PasswordRules.IndicatorsOf` | easyfinance.client/src/app/features/user/detail-user/detail-user.component.ts:111-117 | The lower-case, upper-case and digit flags are on exactly when the password has a code unit in that ASCII range. The special flag is on exactly when it has a code unit that is not an ASCII letter or digit. The length flag is on exactly when the password has at least 8 code units and no line terminator. |
| `PasswordRules.LookaheadIsContainment` | easyfinance.client/src/app/features/user/detail-user/detail-user.component.ts:107 | On an input free of line terminators, each `(?=.*[k])` lookahead holds if and only if the input contains a code unit of class `k`. |
| `PasswordRules.PatternCharacterisation` | easyfinance.client/src/app/features/user/detail-user/detail-user.component.ts:107 | The password pattern accepts exactly the inputs that meet all of these: at least 8 UTF-16 code units; no line terminator; a digit, a lower-case letter, an upper-case letter and a code unit that is not an ASCII letter or digit; no space. |
| `PasswordRules.PatternIffIndicators` | easyfinance.client/src/app/features/user/detail-user/detail-user.component.ts:107-116 | The pattern holds if and only if all five indicator flags are on and the password has no space. This holds for every input, including ones with line terminators. |
| `PasswordRules.AsciiLength` | easyfinance.client/src/app/features/user/detail-user/detail-user.component.ts:107 | A string of ASCII characters has as many code units as characters, each equal to its character. |
| `PasswordRules.StrongPasswordExample` | easyfinance.client/src/app/features/user/detail-user/detail-user.component.ts:107 | "Passw0rd!" satisfies the pattern. |
| `PasswordRules.AstralPasswordExample` | easyfinance.client/src/app/features/user/detail-user/detail-user.component.ts:107 | "Ab1!" followed by two emoji is six characters but eight code units, and satisfies the pattern. |
| `FormErrors.GetFormFieldErrors` | easyfinance.client/src/app/features/user/detail-user/detail-user.component.ts:273-298 | The result is empty when the control is missing or has no errors. Otherwise there is one message per own error key, in key order. "required" and "email" give fixed texts, "pattern" gives "", and any other key gives its own value. |
| `FormErrors.MessageFor` | easyfinance.client/src/app/features/user/detail-user/detail-user.component.ts:280-292 | Defines the message for one error key: the fixed texts for "required" and "email", "" for "pattern", and the error's own value otherwise. `GetFormFieldErrors` states the same per key. |
| `FormErrors.OwnEntriesOfOwnKeys` | easyfinance.client/src/app/features/user/detail-user/detail-user.component.ts:278-279 | When every enumerated key is the control's own, every key contributes, in order. |
| `FormErrors.OwnEntriesMembership` | easyfinance.client/src/app/features/user/detail-user/detail-user.component.ts:278-279 | A key contributes a message exactly when it is enumerated and is the control's own key. |
| `ProfileForm.Reset` | easyfinance.client/src/app/features/user/detail-user/detail-user.component.ts:88-101 | The loaded user becomes the user being edited and the form is disabled. Nothing else changes. |
| `ProfileForm.ChangeStatus` | easyfinance.client/src/app/features/user/detail-user/detail-user.component.ts:181-185 | Afterwards the profile form is enabled. Nothing else changes. |
| `ProfileForm.Save` | easyfinance.client/src/app/features/user/detail-user/detail-user.component.ts:210-247 | Unless the form is enabled and its validators pass, nothing is sent and nothing changes. Otherwise the form is disabled and nothing else changes. The profile update is sent if and only if first name, last name or currency differ from the edited user. The e-mail update is sent if and only if the e-mail differs. The two decisions are independent, and no other request is sent. |
| `ProfileForm.OnResponse` | easyfinance.client/src/app/features/user/detail-user/detail-user.component.ts:220-268 | An error re-enables the form the request came from and records the errors; nothing else changes. A successful profile update changes nothing. A successful e-mail update sets `isEmailUpdated`. A successful password change sets `isPasswordUpdated` and closes the password form. |
| `ProfileForm.DeliverOutcome` | easyfinance.client/src/app/features/user/detail-user/detail-user.component.ts:219-245 | Whatever order the profile responses arrive in, the form ends enabled if and only if it already was or some request failed. `isEmailUpdated` ends set if and only if it already was or an e-mail update succeeded. |
| `ProfileForm.SaveThenReplies` | easyfinance.client/src/app/features/user/detail-user/detail-user.component.ts:210-247 | After a save whose validators pass, and its responses, the profile form is enabled if and only if one of the responses was an error. |
| `ProfileForm.OkRepliesKeepForms` | easyfinance.client/src/app/features/user/detail-user/detail-user.component.ts:220-268 | Successful responses never re-enable either form and leave the password fields alone. |
| `ProfileForm.NoSecondSaveBeforeError` | easyfinance.client/src/app/features/user/detail-user/detail-user.component.ts:211-217 | Once a save has gone ahead, another save sends nothing until an error response arrives, however many successful responses come in between. |
| `ProfileForm.SaveUnchangedSendsNothing` | easyfinance.client/src/app/features/user/detail-user/detail-user.component.ts:211-232 | Saving the form exactly as `reset()` loaded it sends no request. |
| `ProfileForm.PasswordFormValid` | easyfinance.client/src/app/features/user/detail-user/detail-user.component.ts:105-109 | Defines the password form's validators. A form they accept has a new password that satisfies the strength pattern. An empty old password or confirmation is refused. |
| `ProfileForm.ShowPasswordForm` | easyfinance.client/src/app/features/user/detail-user/detail-user.component.ts:300-303 | Afterwards the password form has empty fields and is enabled and active. Nothing else changes, the indicators included. |
| `ProfileForm.EditPassword` | easyfinance.client/src/app/features/user/detail-user/detail-user.component.ts:111-117 | A value change stores the typed fields and re-tests the five indicators on the new password. Nothing else changes. |
| `ProfileForm.SavePassword` | easyfinance.client/src/app/features/user/detail-user/detail-user.component.ts:249-271 | A request is sent if and only if the password form is enabled and its validators pass on the typed fields. The request carries the typed new and old passwords. The form is then disabled and nothing else changes. |
| `ProfileForm.SentPasswordMatchesPattern` | easyfinance.client/src/app/features/user/detail-user/detail-user.component.ts:250-256 | A password that is sent always satisfies the strength pattern, and goes with a non-empty old password. |
| `ProfileForm.NoSecondPasswordSaveBeforeError` | easyfinance.client/src/app/features/user/detail-user/detail-user.component.ts:250-262 | After a password request is sent, another save sends nothing until an error response re-enables the form. |
| `ProfileForm.SentPasswordShowsAllIndicators` | easyfinance.client/src/app/features/user/detail-user/detail-user.component.ts:107-117 | Whenever a typed password is sent, the five indicators it produced are all on. |
| `ProfileForm.FreshPasswordFormSendsNothing` | easyfinance.client/src/app/features/user/detail-user/detail-user.component.ts:103-109 | The empty fields of a newly shown password form fail `required`, so saving it sends nothing. |
| `AccountDeletion.OpenDeleteDialog` | easyfinance.client/src/app/features/user/detail-user/detail-user.component.ts:124-147 | Both errors are cleared and a stored message is shown; nothing else changes. The first delete request is sent if and only if no token is stored. |
| `AccountDeletion.OnFirstResponse` | easyfinance.client/src/app/features/user/detail-user/detail-user.component.ts:135-146 | A response carrying a non-empty `confirmationToken` stores that token and message and shows the message; nothing else changes. Any other successful response changes nothing. An error sets the page's delete error and nothing else. |
| `AccountDeletion.ConfirmDeletion` | easyfinance.client/src/app/features/user/detail-user/detail-user.component.ts:162-166 | The dialog error is cleared. A request is sent if and only if a token is stored, and it carries that token. |
| `AccountDeletion.AfterDialogClosed` | easyfinance.client/src/app/features/user/detail-user/detail-user.component.ts:149-166 | A confirming request is sent if and only if the dialog closed with `true` and a token is stored, and it carries that token. Closing with `true` clears only the dialog error; any other result changes nothing. |
| `AccountDeletion.CloseDialog` | easyfinance.client/src/app/features/user/detail-user/detail-user.component.ts:156-160 | Both errors are cleared. Nothing else changes. |
| `AccountDeletion.OnConfirmResponse` | easyfinance.client/src/app/features/user/detail-user/detail-user.component.ts:166-177 | Success clears the token and its message and the user's information, and goes to the login page; nothing else changes. An error sets the dialog error and changes nothing else. |
| `AccountDeletion.StepKeepsSessionWellFormed` | easyfinance.client/src/app/features/user/detail-user/detail-user.component.ts:124-179 | Each event keeps the stored token non-empty, keeps every pending request among those sent, and sends a confirming request only with a non-empty token. Requests sent are never forgotten. The user's information is dropped only by a successful reply to a pending confirming request. |
| `AccountDeletion.RunKeepsSessionWellFormed` | easyfinance.client/src/app/features/user/detail-user/detail-user.component.ts:124-179 | Along any event sequence, with each reply consuming the request it answers, a stored token is never empty. If the user's information is dropped, a confirming request carrying a non-empty token was sent. |
| `AccountDeletion.HappyPath` | easyfinance.client/src/app/features/user/detail-user/detail-user.component.ts:124-179 | From a session without a token, the flow runs: open, receive token `t`, confirm. The confirming request carries exactly `t`, and its success clears the token and the user's information. |
| `AccountDeletion.HappyRun` | easyfinance.client/src/app/features/user/detail-user/detail-user.component.ts:124-179 | From a session with no token and nothing in flight, the run open, first reply, confirm, confirming reply sends the first request and then the token, and ends with nothing in flight and the user's information dropped. |
| `AccountDeletion.ReopenKeepsToken` | easyfinance.client/src/app/features/user/detail-user/detail-user.component.ts:131-135 | Reopening the dialog with a token stored sends nothing and keeps the token. |
| `AccountDeletion.DoubleOpenSendsTwice` | easyfinance.client/src/app/features/user/detail-user/detail-user.component.ts:131-146 | Opening the dialog twice before any reply sends two first requests, and the later reply's token replaces the earlier one. |
| `Auth.OutcomeOf` | easyfinance.client/src/app/Identity/auth.service.ts:25-60 | The caller sees `true` exactly when the call was answered with a 2xx status, and the error status otherwise. |
| `Auth.Init` | easyfinance.client/src/app/Identity/auth.service.ts:11-23 | The initial flag is false unless storage holds a value, in which case it is that value. |
| `Auth.SignIn` | easyfinance.client/src/app/Identity/auth.service.ts:25-38 | An answer sets the flag and the stored value to `true` and returns `true`. An error status changes neither and reaches the caller. |
| `Auth.SignOut` | easyfinance.client/src/app/Identity/auth.service.ts:40-50 | An answer clears the flag and empties storage and returns `true`. An error status changes neither and reaches the caller. |
| `Auth.Register` | easyfinance.client/src/app/Identity/auth.service.ts:52-60 | Neither the flag nor storage changes. An answer returns `true`; an error status reaches the caller. |
| `Auth.PerformKeepsInStep` | easyfinance.client/src/app/Identity/auth.service.ts:33-49 | Each call keeps the flag equal to what a restore from storage would give. |
| `Auth.InStepAlongCalls` | easyfinance.client/src/app/Identity/auth.service.ts:25-60 | Any sequence of calls keeps memory and storage in step. |
| `Auth.ReloadRestoresState` | easyfinance.client/src/app/Identity/auth.service.ts:15-50 | After construction and any calls, rebuilding the service from storage restores exactly the current state, and `isSignedOut$` holds exactly when storage does not hold `true`. |
| `Auth.QuietCallsKeepState` | easyfinance.client/src/app/Identity/auth.service.ts:25-60 | Failed calls and registrations leave the state as it was. |
| `Auth.LastSessionCallDecides` | easyfinance.client/src/app/Identity/auth.service.ts:25-60 | After any calls, the last answered sign-in or sign-out decides the state: signed in with `true` stored after a sign-in, signed out with storage empty after a sign-out. `isSignedOut$` follows. |
| `ProjectBuilder.NewBuilder` | EasyFinance.Common.Tests/FinancialProject/ProjectBuilder.cs:9-14 | A new builder owns a newly constructed project that has received no setter call. |
| `ProjectBuilder.Delegate` | EasyFinance.Common.Tests/FinancialProject/ProjectBuilder.cs:16-38 | One `Add*` step: the project receives exactly that one setter call, and the same builder and project come back. If the setter raises, its error propagates. |
| `ProjectBuilder.AddName` | EasyFinance.Common.Tests/FinancialProject/ProjectBuilder.cs:16-20 | Calls `SetName` once with the name unchanged and returns the same builder and project. If `SetName` raises, exactly its error propagates. |
| `ProjectBuilder.AddType` | EasyFinance.Common.Tests/FinancialProject/ProjectBuilder.cs:22-26 | Calls `SetType` once with the type unchanged and returns the same builder and project. If `SetType` raises, exactly its error propagates. |
| `ProjectBuilder.AddCategories` | EasyFinance.Common.Tests/FinancialProject/ProjectBuilder.cs:28-32 | Calls `SetCategories` once with the collection unchanged and returns the same builder and project. If `SetCategories` raises, exactly its error propagates. |
| `ProjectBuilder.AddIncomes` | EasyFinance.Common.Tests/FinancialProject/ProjectBuilder.cs:34-38 | Calls `SetIncomes` once with the collection unchanged and returns the same builder and project. If `SetIncomes` raises, exactly its error propagates. |
| `ProjectBuilder.ChainDelegatesInOrder` | EasyFinance.Common.Tests/FinancialProject/ProjectBuilder.cs:16-40 | If no setter rejects, a chain returns the same builder. `Build` then returns the project created with it, which has received exactly the chain's calls, in order. |
| `ProjectBuilder.ChainStopsAtFirstRejection` | EasyFinance.Common.Tests/FinancialProject/ProjectBuilder.cs:16-38 | A chain raises the error of its first rejected setter call. |
| `ProjectBuilder.ChainKeepsIdentity` | EasyFinance.Common.Tests/FinancialProject/ProjectBuilder.cs:16-40 | A successful chain returns the builder it started from, still owning the same project. |
| `ProjectBuilder.Build` | EasyFinance.Common.Tests/FinancialProject/ProjectBuilder.cs:40 | `Build` returns the project the builder owns, with the same identity and calls, and performs no check of its own. |
| `ProjectBuilder.NewBuilderChain` | EasyFinance.Common.Tests/FinancialProject/ProjectBuilder.cs:11-40 | A new builder followed by a chain that no setter rejects builds the new project, which has received exactly the chain's calls. |

## Left out

- The bodies of the `Expense`, `ExpenseItem` and `Project` setters and of `ExpenseBuilder` are not part of this model. The Expense rules come from the tests. `Project` setters are a caller-supplied `rejects` function plus a log of the calls received.
- The text of `ValidationMessages` is not modelled. A message is a template tag plus, where the test formats it, the property name.
- `Expenses.SetDate`: the tests only show that now minus exactly 200 years is rejected. The model accepts dates strictly after that bound and not after now; the exact comparison in the entity is not part of this model.
- Calendar arithmetic and the system clock: "now" and "now minus 200 years" are inputs, and a day is 864 000 000 000 ticks.
- `decimal` is modelled as an unbounded `real`; its range and precision are not modelled.
- `FormErrors.GetFormFieldErrors`: error values are modelled as strings, while the source pushes whatever value the error key holds.
- `ProfileForm.Save`: whether the profile form's validators (`required` and `Validators.email`) pass is an input flag; that a disabled form is not valid is modelled.
- `errorMessageService.setFormErrors` is not modelled; the errors are only recorded on the page.
- `ProfileForm.SavePassword`: the form-level password-match validator is an input flag. Its code is not part of this model.
- `AccountDeletion.OnConfirmResponse`: `clearToken` is taken to clear the token and its stored message. The token service's code is not part of this model.
- Dialog opening and closing, router navigation (beyond a `onLoginPage` flag), console logging, HTML sanitising, icons and `getCurrencies` are UI plumbing with no logic to state.
- RxJS asynchrony: each response is an input delivered to its handler. The `BehaviorSubject` is reduced to its current value.
- `project.service.ts` consists of plain HTTP wrappers with no decision logic.
- `ProjectBuilder.Build`: the source hands out the very `Project` object the builder holds, so later `Add*` calls on the same builder would still change it. The model's project is a value: `Build` returns the project's state at the call, and that aliasing is not modelled.
- `localStorage` and `JSON.parse`: storage is an optional boolean. An empty or malformed stored string is not modelled.
- `ProjectType`'s member list is not part of this model; a type is its underlying value.
