# Counter components, counter service, mock user backend and signup form

A Dafny model of the logic in the angular-testing teaching repository:

- **`CounterComponent`** — a counter with local state. `count` is set from the
  `startCount` input by `ngOnChanges`. `increment`, `decrement` and `resetCount`
  change it, and each change is emitted on `countChange`. A `NaN` reset is
  ignored. The emitter is a `seq<int>` of emitted values; a possibly-`NaN`
  number is an `Option<int>` (`None` is `NaN`).
- **`CounterService`** — the same rules over a private count, each change pushed
  into an rxjs `BehaviorSubject`. The class invariant `Valid()` says the subject's
  current value is the count. Every method keeps it. `Rx.BehaviorSubject` models
  the parts of rxjs's class the service relies on: a current value plus the list
  of pushed values.
- **`ServiceCounterComponent`** — holds the shared service and the stream `count$`
  (here `countStream`). It forwards the three buttons to the service, with its own
  `NaN` guard before the reset.
- **`UserController.js`** — the mock backend. The module-level `mockUsers` array is
  a `seq<Record>` field of a class. A record is a map from key to JSON value.
  `isParameterTaken` is an exact `===` lookup. `undefined === undefined` counts as
  a match, so a body without the key matches a stored record without it.
  `store_user` appends and always succeeds. `password_strength` answers 400 for a
  falsy password and 500 for a truthy password that is not a string, since the
  scorer takes only strings. Otherwise it passes the scorer's answer through.
- **`FormComponent`** — the signup form. There are four controls with Angular's
  sync validators. Three of them also have an async validator. Each async
  validator is split into steps: "the validator is invoked" (it raises the
  component's pending flag and starts a check tagged with the value) and "the
  answer arrives" (the `map` step turns it into an error object and lowers the
  flag). `signUp` does nothing unless `profileForm.valid`. Otherwise it marks the
  form submitted and sends the form value once. The reply later becomes a
  success or danger notification.
- **`Signup`** — joins the two sides: the request body the form posts, and what
  the form concludes from the backend's answers.

Modelling choices that follow the code:

- `ngOnChanges` sets `count` without emitting
  (src/app/components/counter/counter.component.ts:17-19). So "the last emitted
  value equals the count" is not a class invariant of `CounterComponent`. It holds
  right after every emitting operation, and each such method's `ensures` says so.
- The length `Validators.minLength(3)` checks is JavaScript's: UTF-16 code
  units (`Text.Utf16Length`). A character outside the Basic Multilingual Plane
  counts twice.
- When a control's value changes, the framework drops the check in flight.
  The answer to a superseded check never arrives. `Deliver*` therefore acts only
  on the current pending check, and the class invariant says that every check is
  tagged with the control's current value. The component's own flag is lowered
  only in the `map` step. So if an edit fails the sync rules while a check is in
  flight, the flag stays raised (`Form.ClearedFieldKeepsFlag`).

Where the model departs from the code as written:

- An async validator's `{}` result is read as "no error". The component's tests
  expect this (angular-form-testing/Frontend/src/app/components/form/form.component.spec.ts:74-96),
  and it is what the code evidently intends. Given the code as written it is an
  error, though (see "## Findings"). So a control is valid when it has no sync
  error, no check in flight, and its resolved check has an empty error set.

## Model

| member | source | states |
|---|---|---|
| `Counter.CounterComponent.constructor` | src/app/components/counter/counter.component.ts:9-15 | `startCount` and `count` start at 0; nothing has been emitted |
| `Counter.CounterComponent.NgOnChanges` | src/app/components/counter/counter.component.ts:17-19 | `count` becomes `startCount` exactly; nothing is emitted |
| `Counter.CounterComponent.Increment` | src/app/components/counter/counter.component.ts:21-24 | `count` rises by exactly 1 and exactly one value, the new count, is emitted |
| `Counter.CounterComponent.Decrement` | src/app/components/counter/counter.component.ts:26-29 | `count` falls by exactly 1 and the new count is emitted once |
| `Counter.CounterComponent.ResetCount` | src/app/components/counter/counter.component.ts:31-36 | a number sets `count` to it and emits it once; `NaN` changes nothing and emits nothing |
| `Counter.CounterComponent.Notify` | src/app/components/counter/counter.component.ts:38-40 | the emitted value is the count at the moment of emission |
| `Counter.IncrementThenDecrement` | src/app/components/counter/counter.component.ts:21-29 | increment then decrement restores the count, emitting the raised then the restored value |
| `Counter.IncrementsFreshCounter` | src/app/components/counter/counter.component.spec.ts:100-115 | a fresh counter shows 1 after one increment and has emitted exactly `[1]` |
| `Counter.DecrementsFreshCounter` | src/app/components/counter/counter.component.spec.ts:117-132 | a fresh counter shows -1 after one decrement and has emitted exactly `[-1]` |
| `Counter.ResetsFreshCounter` | src/app/components/counter/counter.component.spec.ts:56-88 | reset to 123 shows and emits 123; a `NaN` reset keeps the start count 0 and emits nothing |
| `Counter.ShowsStartCount` | src/app/components/counter/counter.component.spec.ts:90-98 | setting `startCount` to 123 and running `ngOnChanges` shows 123 and emits nothing |
| `Rx.BehaviorSubject.constructor` | src/app/services/counter.service.ts:12 | the subject holds the initial value and has pushed nothing |
| `Rx.BehaviorSubject.Next` | src/app/services/counter.service.ts:37 | `next` makes the value current and pushes exactly it |
| `Services.CounterService.constructor` | src/app/services/counter.service.ts:8-13 | `count` is 0, the subject's current value is 0, and the invariant holds |
| `Services.CounterService.GetCount` | src/app/services/counter.service.ts:15-17 | returns the subject's stream and changes nothing (no `modifies`) |
| `Services.CounterService.Increment` | src/app/services/counter.service.ts:19-22 | `count` rises by 1, exactly the new count is pushed, and the subject's value equals the count afterwards |
| `Services.CounterService.Decrement` | src/app/services/counter.service.ts:24-27 | `count` falls by 1, exactly the new count is pushed, and the invariant holds |
| `Services.CounterService.ResetCount` | src/app/services/counter.service.ts:29-34 | a number sets `count` to it and pushes it; `NaN` changes nothing and pushes nothing; the invariant is kept |
| `Services.CounterService.Notify` | src/app/services/counter.service.ts:36-38 | pushes the current count once, which restores the invariant |
| `ServiceCounter.ServiceCounterComponent.constructor` | src/app/components/service-counter/service-counter.component.ts:13-15 | the component keeps the injected service and observes exactly that service's subject |
| `ServiceCounter.ServiceCounterComponent.Increment` | src/app/components/service-counter/service-counter.component.ts:17-19 | the service's count and the observed value rise by 1, with one push |
| `ServiceCounter.ServiceCounterComponent.Decrement` | src/app/components/service-counter/service-counter.component.ts:21-23 | the service's count and the observed value fall by 1, with one push |
| `ServiceCounter.ServiceCounterComponent.ResetCount` | src/app/components/service-counter/service-counter.component.ts:25-29 | a number reaches the service unchanged and is pushed; `NaN` leaves service and subject untouched |
| `ServiceCounter.ObservesFreshService` | src/app/components/service-counter/service-counter.component.spec.ts:55-99 | over a real fresh service the observed count is 0, then 1 after one increment, then -1 after two decrements, then 456 after a NaN reset (which changes nothing) and a reset to 456 |
| `ServiceCounter.ComponentsShareService` | src/app/services/counter.service.ts:4-7 | two components over one root service both observe one click |
| `Backend.IsParameterTaken` | angular-form-testing/Backend/src/controllers/UserController.js:36-38 | true iff some record's field equals the value exactly (an empty store gives false) |
| `Backend.Field` | angular-form-testing/Backend/src/controllers/UserController.js:12 | `body[key]` and `const { key } = body`: the value when the key is present, `undefined` otherwise; `IsParameterTaken` and `PasswordStrength` state their results through it |
| `Backend.PasswordStrength` | angular-form-testing/Backend/src/controllers/UserController.js:21-32 | 400 / `success: false` / "Missing password" iff the password is falsy or absent; 500 iff it is truthy but not a string, which the scorer cannot take; otherwise the scorer's score, warning and suggestions for the string, unchanged |
| `Backend.MissingPasswordIgnoresScorer` | angular-form-testing/Backend/src/controllers/UserController.js:24 | the 400 answer is the same whatever the scorer: it is never consulted |
| `Backend.NonStringPasswordFails` | angular-form-testing/Backend/src/controllers/UserController.js:24-26 | `5` and `true` pass the guard and are answered 500, while `0` is answered 400 |
| `Backend.StrengthScoreInRange` | angular-form-testing/Backend/src/controllers/UserController.js:26-31 | a note on the score range: the handler does not check it, so the answer is in zxcvbn's 0..4 only because it passes the scorer's score through |
| `Backend.Truthy` | angular-form-testing/Backend/src/controllers/UserController.js:24 | JavaScript's `!password`: `undefined`, `null`, `""`, `0` and `false` are falsy; `PasswordStrength`'s contract states the guard through it |
| `Backend.AppendedIsTaken` | angular-form-testing/Backend/src/controllers/UserController.js:5-13 | after appending a record, its own field value is reported taken |
| `Backend.AppendKeepsTaken` | angular-form-testing/Backend/src/controllers/UserController.js:5-19 | after an append a value is taken iff it was before or the new record has it |
| `Backend.InitialStoreLookups` | angular-form-testing/Backend/src/controllers/UserController.js:3-19 | "Omar Yehia" and "a@b" are taken in the initial store; "omar yehia" is not (case-sensitive); nothing is taken in an empty store |
| `Backend.UserController.constructor` | angular-form-testing/Backend/src/controllers/UserController.js:3 | the store starts with the one seeded record |
| `Backend.UserController.StoreUser` | angular-form-testing/Backend/src/controllers/UserController.js:5-9 | the body is appended at the end with earlier records unchanged; the answer is success, the fixed message and the whole updated store |
| `Backend.UserController.UsernameTaken` | angular-form-testing/Backend/src/controllers/UserController.js:11-14 | answers whether some stored record has the body's username, and changes nothing |
| `Backend.UserController.EmailTaken` | angular-form-testing/Backend/src/controllers/UserController.js:16-19 | answers whether some stored record has the body's e-mail, and changes nothing |
| `Backend.SignupThenUsernameTaken` | angular-form-testing/Backend/src/controllers/UserController.js:5-14 | after `store_user(body)`, `username_taken` with the same body answers true |
| `Backend.DuplicateSignupsAccepted` | angular-form-testing/Backend/src/controllers/UserController.js:5-9 | two signups with one username both succeed and both records are stored |
| `Backend.MissingFieldsMatch` | angular-form-testing/Backend/src/controllers/UserController.js:36-38 | a stored record without `email` makes a body without `email` count as taken |
| `Text.Utf16Length` | angular-form-testing/Frontend/src/app/components/form/form.component.ts:28 | JavaScript's `length`, in UTF-16 code units: between the number of characters and twice that |
| `Text.Utf16LengthOfBmp` | angular-form-testing/Frontend/src/app/components/form/form.component.ts:28 | a string with no character above U+FFFF, any ASCII string among them, has as many code units as characters |
| `Text.Join` | angular-form-testing/Frontend/src/app/components/form/form.component.ts:94 | `join(' ')`: pieces with one separator between neighbours, `""` for none; stated by `Text.JoinSeparatorCount` and `Text.SplitJoinIff` |
| `Text.JoinSeparatorCount` | angular-form-testing/Frontend/src/app/components/form/form.component.ts:94 | for at least one piece, the joined string holds the pieces' own separators plus one between each two neighbours |
| `Text.SplitPieceCount` | angular-form-testing/Frontend/src/app/components/form/form.component.ts:94 | a split gives one piece more than the string has separators |
| `Text.SplitJoin` | angular-form-testing/Frontend/src/app/components/form/form.component.ts:94 | for at least one piece and no piece holding the separator, splitting the joined string gives the pieces back |
| `Text.SplitJoinIff` | angular-form-testing/Frontend/src/app/components/form/form.component.ts:94 | splitting undoes the join exactly when there is at least one piece and no piece holds the separator (`[]` comes back as `[""]`) |
| `Form.IsEmptyInput` | angular-form-testing/Frontend/src/app/components/form/form.component.ts:26-28 | Angular's empty-input test for a text control, `null` or `""`; the sync-rule contracts state it |
| `Form.UsernameSyncErrors` | angular-form-testing/Frontend/src/app/components/form/form.component.ts:26 | the username has an error (`required`) iff it is null or empty |
| `Form.EmailSyncErrors` | angular-form-testing/Frontend/src/app/components/form/form.component.ts:27 | empty gives `required`, a non-empty non-address gives `email`, and no error iff non-empty and e-mail-shaped |
| `Form.PasswordSyncErrors` | angular-form-testing/Frontend/src/app/components/form/form.component.ts:28 | empty gives `required`, shorter than 3 UTF-16 code units gives `minlength` with that length, and no error iff the length is at least 3 |
| `Form.TosErrors` | angular-form-testing/Frontend/src/app/components/form/form.component.ts:29 | no error iff the box holds exactly `true` |
| `Form.UsernameResult` | angular-form-testing/Frontend/src/app/components/form/form.component.ts:64-67 | `{usernameTaken: true}` iff the answer is "taken", `{}` otherwise |
| `Form.EmailResult` | angular-form-testing/Frontend/src/app/components/form/form.component.ts:76-79 | `{emailTaken: true}` iff the answer is "taken", `{}` otherwise |
| `Form.PasswordResult` | angular-form-testing/Frontend/src/app/components/form/form.component.ts:88-96 | a `passwordStrength` error with the score and the space-joined suggestions iff the score is below 3, `{}` otherwise |
| `Form.WeakPasswordKeepsSuggestions` | angular-form-testing/Frontend/src/app/components/form/form.component.ts:90-96 | the weak-password error is the only error and keeps the score and the space-joined string, not the list; the string splits back into the list iff there is a suggestion and none holds a space |
| `Form.TestWeakAnswerLosesBoundaries` | angular-form-testing/Frontend/src/app/components/form/form.component.spec.ts:25-29 | for the tests' weak answer the error holds "Add few more words.", which does not split back into its one suggestion |
| `Form.Coherent` | angular-form-testing/Frontend/src/app/components/form/form.component.ts:26-28 | Angular's bookkeeping for a control: the sync errors are the current value's, the check runs iff they are empty, and it is tagged with the current value; part of `Form.StateValid` |
| `Form.StateValid` | angular-form-testing/Frontend/src/app/components/form/form.component.ts:19-30 | the class invariant: each control coherent with its rules, each flag raised while its check is in flight and clear once it is answered; kept by the constructor, `Input*`, `CheckTos`, `Deliver*`, `SignUp` and `DeliverSignUpReply`; `Validate*` are called only from `Input*` |
| `Form.RaisedFlagBlocksForm` | angular-form-testing/Frontend/src/app/components/form/form.component.ts:19-21 | while any pending flag is raised the form is invalid |
| `Form.FormValid` | angular-form-testing/Frontend/src/app/components/form/form.component.ts:35 | `profileForm.valid`, as intended; stated by `Form.FormValidIffAllChecksPassed` |
| `Form.ControlValid` | angular-form-testing/Frontend/src/app/components/form/form.component.ts:26-28 | a control's VALID status, as intended: no sync error, no check in flight, and an empty async result; `Form.FormValidIffAllChecksPassed` states it for the three controls |
| `Form.ValueOf` | angular-form-testing/Frontend/src/app/components/form/form.component.ts:39 | `profileForm.value`; stated by `Form.SentValueIsChecked` |
| `Form.FormValidIffAllChecksPassed` | angular-form-testing/Frontend/src/app/components/form/form.component.ts:25-35 | the form is valid iff the username is non-empty, the address non-empty and e-mail-shaped, the password at least 3 long, `tos` true, and the three checks passed for the current values |
| `Form.SentValueIsChecked` | angular-form-testing/Frontend/src/app/components/form/form.component.ts:35-39 | a valid form's value is complete and is exactly the values its three checks passed for |
| `Form.AsWrittenFormNeverValid` | angular-form-testing/Frontend/src/app/components/form/form.component.ts:64-96 | given the code as written (`{}` is an error), no reachable state of the form is valid |
| `Form.ControlValidAsWritten` | angular-form-testing/Frontend/src/app/components/form/form.component.ts:64-67 | a control's VALID status given the code as written: no sync error and no check at all, pending or answered; `Form.AsWrittenFormNeverValid` states it |
| `Form.FormValidAsWritten` | angular-form-testing/Frontend/src/app/components/form/form.component.ts:35 | `profileForm.valid` given the code as written; never true in a reachable state (`Form.AsWrittenFormNeverValid`) |
| `Form.AsyncErrorOrPendingBlocksForm` | angular-form-testing/Frontend/src/app/components/form/form.component.ts:35 | any async error or check in flight makes the form invalid |
| `Form.FormComponent.constructor` | angular-form-testing/Frontend/src/app/components/form/form.component.ts:19-30 | all flags false, every control `null` with a `required` error and no check, nothing sent; the form is invalid |
| `Form.FormComponent.ValidateUsername` | angular-form-testing/Frontend/src/app/components/form/form.component.ts:59-62 | raises the username flag and starts a check for the given value, nothing else |
| `Form.FormComponent.ValidateEmail` | angular-form-testing/Frontend/src/app/components/form/form.component.ts:71-74 | raises the e-mail flag and starts a check for the given value, nothing else |
| `Form.FormComponent.ValidatePasswordStrength` | angular-form-testing/Frontend/src/app/components/form/form.component.ts:83-86 | raises the password flag and starts a check for the given value, nothing else |
| `Form.FormComponent.InputUsername` | angular-form-testing/Frontend/src/app/components/form/form.component.ts:26 | a new value re-runs `required`; the async check starts iff it passes, and otherwise any check in flight is dropped |
| `Form.FormComponent.InputEmail` | angular-form-testing/Frontend/src/app/components/form/form.component.ts:27 | as for the username, with `required` and `email` |
| `Form.FormComponent.InputPassword` | angular-form-testing/Frontend/src/app/components/form/form.component.ts:28 | as for the username, with `required` and `minLength(3)` |
| `Form.FormComponent.CheckTos` | angular-form-testing/Frontend/src/app/components/form/form.component.ts:29 | only the `tos` value changes |
| `Form.FormComponent.DeliverUsername` | angular-form-testing/Frontend/src/app/components/form/form.component.ts:62-67 | the answer for the check in flight lowers the flag and sets the mapped errors for the value it was issued for; with no check in flight nothing changes |
| `Form.FormComponent.DeliverEmail` | angular-form-testing/Frontend/src/app/components/form/form.component.ts:74-79 | the same for the e-mail check |
| `Form.FormComponent.DeliverPassword` | angular-form-testing/Frontend/src/app/components/form/form.component.ts:86-97 | the same for the password check |
| `Form.FormComponent.SignUp` | angular-form-testing/Frontend/src/app/components/form/form.component.ts:34-57 | an invalid form changes nothing; a valid one sets `isFormsubmitted` and sends the form value exactly once |
| `Form.FormComponent.DeliverSignUpReply` | angular-form-testing/Frontend/src/app/components/form/form.component.ts:39-54 | a reply to an outstanding request adds one notification for it |
| `Form.Notify` | angular-form-testing/Frontend/src/app/components/form/form.component.ts:39-54 | success carries the server's message, a failure the error's message |
| `Form.SignupDataPassesSyncRules` | angular-form-testing/Frontend/src/app/components/form/form.component.spec.ts:10-15 | the tests' values pass every sync rule, given an e-mail pattern that accepts their address |
| `Form.FillForm` | angular-form-testing/Frontend/src/app/components/form/form.component.spec.ts:62-67 | after typing three values that pass the sync rules and ticking the box, each check is in flight for its value and nothing has been sent |
| `Form.FilledFormSubmitsIffChecksPass` | angular-form-testing/Frontend/src/app/components/form/form.component.spec.ts:74-160 | for any values passing the sync rules, the filled form is invalid until the answers arrive; it is sent exactly once with those values iff neither name nor e-mail is taken and the score is at least 3, and never otherwise |
| `Form.FilledFormValidOnlyAsIntended` | angular-form-testing/Frontend/src/app/components/form/form.component.spec.ts:74-96 | with favourable answers the filled form is valid as intended but not as written |
| `Form.SubmitsTheFormSuccessfully` | angular-form-testing/Frontend/src/app/components/form/form.component.spec.ts:74-96 | for any values passing the sync rules, with negative answers and a strong password the payload is sent once and a success notification shows the server's message |
| `Form.DoesNotSubmitAnInvalidForm` | angular-form-testing/Frontend/src/app/components/form/form.component.spec.ts:98-109 | submitting the untouched form sends nothing, does not mark it submitted and starts no check |
| `Form.LastEditWins` | angular-form-testing/Frontend/src/app/components/form/form.component.ts:59-69 | after two edits, the answer that arrives is applied to the newer value |
| `Form.ClearedFieldKeepsFlag` | angular-form-testing/Frontend/src/app/components/form/form.component.ts:60-67 | clearing the field while its check is in flight drops the check but leaves the flag raised |
| `Signup.SignUpBody` | angular-form-testing/Frontend/src/app/services/user.service.ts:33-36 | the posted body has one key per control, carrying the entered username and e-mail as strings |
| `Signup.UsernameVerdictMatchesStore` | angular-form-testing/Backend/src/controllers/UserController.js:11-14 | the form shows "username taken" iff a stored record has that username |
| `Signup.EmailVerdictMatchesStore` | angular-form-testing/Backend/src/controllers/UserController.js:16-19 | the form shows "e-mail taken" iff a stored record has that address |
| `Signup.SubmittedValuesBecomeTaken` | angular-form-testing/Backend/src/controllers/UserController.js:7 | once a submitted form is stored, its username and e-mail are reported taken to the next form |
| `Signup.CheckedPasswordIsNeverMissing` | angular-form-testing/Backend/src/controllers/UserController.js:24 | a password that passed the form's sync rules is never answered "Missing password" |
| `Signup.PasswordVerdictMatchesScorer` | angular-form-testing/Backend/src/controllers/UserController.js:26-31 | the form reports a password weak iff the scorer gives it less than 3 |

## Left out

- HTTP transport: the express server, its JSON-body and CORS middleware, the `console.log` calls, the 404 catch-all, the route table and the `HttpClient` calls of the user service. Each handler takes the parsed request body and returns the response body with its status. Express's default status 200 is written out.
- The zxcvbn scorer is a foreign library. It is a parameter of `Backend.PasswordStrength` of type `string -> ZxcvbnResult`. That it throws for a truthy non-string password, so that Express answers 500, rests on zxcvbn's own code, which is not part of this model.
- Angular's e-mail pattern (`Validators.email`) is not visible here. It is the `isEmail` parameter of the form component.
- rxjs scheduling: the 1000 ms `timer`, `switchMap` and the framework's unsubscription from superseded checks. A check is started by `Validate*` and answered by `Deliver*`. A superseded check simply never gets an answer.
- UIkit notifications are recorded as a message and a success/danger kind. The markup, position and timeout are left out.
- JavaScript numbers: floats, overflow and `NaN` are left out, except the `NaN` guard, which is the `None` case of an `Option<int>`.
- Nested objects and arrays as field values of a request body are not modelled. Neither are objects by reference under `===`.
- `Object.values(passwordStrength)` reads the answer by position. The model reads it by field name. That is only correct because the backend sends `score`, `warning`, `suggestions` in this order (angular-form-testing/Frontend/src/app/services/user.service.ts:6-10 declares the same order).
- The unused `const { signUpData } = req.body` in `store_user`, and `isRegisterSuccessful`, which nothing changes (it is kept as a field that stays false).
- Concurrency on the server: interleaved requests to the shared store. Handlers run one at a time here.
- Module wiring (`app.module.ts`) and the test harnesses themselves. The tests' assertions are restated as scenario methods.
- Services.CounterService.GetCount: returns the subject itself, not the read-only view `asObservable` gives. The model does not capture that holders of the stream cannot push into it; a holder that called `Next` could break `CounterService.Valid()`. Nothing in the model does so.
- ServiceCounter.ServiceCounterComponent.constructor: states which stream the component observes, not that `getCount` was called exactly once; the model keeps no call counts.
- ServiceCounter.ServiceCounterComponent.Increment: the "service called exactly once" of the spy tests is stated by its effect (one push, count +1), not by counting calls; the same holds for `Decrement` and `ResetCount`.

## Findings

| source | as written | input that shows it | evidently intended | confidence | as-written member | corrected member |
|---|---|---|---|---|---|---|
| angular-form-testing/Frontend/src/app/components/form/form.component.ts:59-98 | each async validator returns `{}` (lines 66, 78 and 96) for "no error". Each control has one bare async validator function, which Angular does not merge, so `{}` becomes the control's errors object, and any errors object marks the control invalid | the tests' filled form with "not taken", "not taken" and score 4 | return `null` (or treat `{}` as no error), so that a form whose checks passed is valid and can be submitted | medium: rests on Angular's `AbstractControl`, which is not part of this model; not executed | `Form.ControlValidAsWritten`, `Form.FormValidAsWritten`, `Form.AsWrittenFormNeverValid`, `Form.FilledFormValidOnlyAsIntended` | `Form.FormValid` with `Form.FormValidIffAllChecksPassed`, `Form.FilledFormSubmitsIffChecksPass` |
