/** The signup form component: four controls with Angular's synchronous
    validators, three of them with an asynchronous validator that asks the
    user service, the component's own "async pending" flags, and `signUp`. */
module Form {
  import opened Wrappers
  import Text

  /** The keys of Angular's `ValidationErrors` objects this form can hold. */
  datatype ValidationError =
    | Required                                          // `{required: true}`
    | EmailFormat                                       // `{email: true}`
    | MinLength(requiredLength: nat, actualLength: nat) // `{minlength: {...}}`
    | UsernameTaken                                     // `{usernameTaken: true}`
    | EmailTaken                                        // `{emailTaken: true}`
    | PasswordStrength(score: int, suggestions: string) // `{passwordStrength: {...}}`

  /** A `ValidationErrors` object; `{}` is the empty set. */
  type Errors = set<ValidationError>

  const MinPasswordLength: nat := 3
  /** Scores below this are weak. */
  const StrongScore: int := 3

  /** What `passwordValidation` answers, by field name. */
  datatype PasswordAnswer = PasswordAnswer(score: int, warning: string, suggestions: seq<string>)

  /** Angular's `isEmptyInputValue` for a text control: `null` or `""`. */
  predicate IsEmptyInput(v: Option<string>)
  {
    v.None? || v.value == ""
  }

  /** `Validators.required`. */
  function UsernameSyncErrors(v: Option<string>): (errors: Errors)
    ensures errors == {} <==> !IsEmptyInput(v)
    ensures errors != {} ==> errors == {Required}
  {
    if IsEmptyInput(v) then {Required} else {}
  }

  /** `[Validators.required, Validators.email]`; `isEmail` is Angular's e-mail
      pattern, which the email validator applies only to a non-empty value. */
  function EmailSyncErrors(v: Option<string>, isEmail: string -> bool): (errors: Errors)
    ensures errors == {} <==> !IsEmptyInput(v) && isEmail(v.value)
    ensures IsEmptyInput(v) ==> errors == {Required}
    ensures !IsEmptyInput(v) && !isEmail(v.value) ==> errors == {EmailFormat}
  {
    if IsEmptyInput(v) then {Required}
    else if !isEmail(v.value) then {EmailFormat}
    else {}
  }

  /** `[Validators.required, Validators.minLength(3)]`; the length is
      JavaScript's, in UTF-16 code units. */
  function PasswordSyncErrors(v: Option<string>): (errors: Errors)
    ensures errors == {} <==> v.Some? && Text.Utf16Length(v.value) >= MinPasswordLength
    ensures IsEmptyInput(v) ==> errors == {Required}
    ensures !IsEmptyInput(v) && Text.Utf16Length(v.value) < MinPasswordLength
            ==> errors == {MinLength(MinPasswordLength, Text.Utf16Length(v.value))}
  {
    if IsEmptyInput(v) then {Required}
    else if Text.Utf16Length(v.value) < MinPasswordLength then {MinLength(MinPasswordLength, Text.Utf16Length(v.value))}
    else {}
  }

  /** `Validators.requiredTrue`: only the value `true` passes. */
  function TosErrors(v: Option<bool>): (errors: Errors)
    ensures errors == {} <==> v == Some(true)
    ensures errors != {} ==> errors == {Required}
  {
    if v == Some(true) then {} else {Required}
  }

  /** The `map` step of `validateUsername`. */
  function UsernameResult(usernameTaken: bool): (errors: Errors)
    ensures errors == {} <==> !usernameTaken
    ensures errors != {} ==> errors == {UsernameTaken}
  {
    if usernameTaken then {UsernameTaken} else {}
  }

  /** The `map` step of `validateEmail`. */
  function EmailResult(emailTaken: bool): (errors: Errors)
    ensures errors == {} <==> !emailTaken
    ensures errors != {} ==> errors == {EmailTaken}
  {
    if emailTaken then {EmailTaken} else {}
  }

  /** The `map` step of `validatePasswordStrength`: a weak score becomes an
      error carrying the score and the suggestions joined by spaces. */
  function PasswordResult(answer: PasswordAnswer): (errors: Errors)
    ensures errors == {} <==> answer.score >= StrongScore
    ensures errors != {} ==> errors == {PasswordStrength(answer.score, Text.Join(answer.suggestions, ' '))}
  {
    if answer.score < StrongScore
    then {PasswordStrength(answer.score, Text.Join(answer.suggestions, ' '))}
    else {}
  }

  /** A weak-password error keeps the score and the space-joined suggestion
      string, not the list: splitting the string at spaces gives the list back
      exactly when there is at least one suggestion and none holds a space. */
  lemma WeakPasswordKeepsSuggestions(answer: PasswordAnswer)
    requires answer.score < StrongScore
    ensures exists e :: PasswordResult(answer) == {e} && e.PasswordStrength? && e.score == answer.score
                        && e.suggestions == Text.Join(answer.suggestions, ' ')
                        && (Text.Split(e.suggestions, ' ') == answer.suggestions
                            <==> |answer.suggestions| >= 1
                                 && forall i :: 0 <= i < |answer.suggestions| ==> ' ' !in answer.suggestions[i])
  {
    var e := PasswordStrength(answer.score, Text.Join(answer.suggestions, ' '));
    Text.SplitJoinIff(answer.suggestions, ' ');
    assert PasswordResult(answer) == {e};
  }

  /** The weak answer of the component's tests: its one suggestion holds
      spaces, so the error's string no longer tells where it ends. */
  lemma TestWeakAnswerLosesBoundaries()
    ensures var answer := PasswordAnswer(2, "Password too weak", ["Add few more words."]);
            PasswordResult(answer) == {PasswordStrength(2, "Add few more words.")}
            && Text.Split("Add few more words.", ' ') != answer.suggestions
  {
    var answer := PasswordAnswer(2, "Password too weak", ["Add few more words."]);
    assert "Add few more words."[3] == ' ';
    Text.SplitJoinIff(answer.suggestions, ' ');
  }

  /** The asynchronous side of a control. A check is tagged with the value it
      was started for. */
  datatype AsyncCheck =
    | NoCheck                                  // not run: the sync validators failed
    | Pending(forValue: string)                // started, no answer yet
    | Resolved(forValue: string, errors: Errors)

  /** A text control of the `FormGroup`: its value, the errors of its sync
      validators, and its async check. */
  datatype TextControl = TextControl(value: Option<string>, syncErrors: Errors, check: AsyncCheck)

  function AsyncErrors(check: AsyncCheck): Errors
  {
    if check.Resolved? then check.errors else {}
  }

  /** A control is valid when it has no sync error, no async error and no
      check in flight. */
  predicate ControlValid(c: TextControl)
  {
    c.syncErrors == {} && !c.check.Pending? && AsyncErrors(c.check) == {}
  }

  /** How Angular keeps a control with an async validator: the sync errors are
      those of the current value, the async check runs exactly when they are
      empty, and it is always the check for the current value. */
  predicate Coherent(c: TextControl, rule: Errors)
  {
    && c.syncErrors == rule
    && (c.check.NoCheck? <==> rule != {})
    && (!c.check.NoCheck? ==> c.value == Some(c.check.forValue))
  }

  /** `profileForm.value`. */
  datatype FormValue = FormValue(username: Option<string>, email: Option<string>, password: Option<string>, tos: Option<bool>)

  /** What the framework shows after a signup reply; the markup is left out. */
  datatype Notification = SuccessNote(message: string) | DangerNote(message: string)

  /** The reply to a `signUp` request: the server's message, or the error's. */
  datatype SignUpReply = Replied(message: string) | Failed(message: string)

  /** Every field of the component, as one value. `signUpCalls` lists the
      payloads passed to the user service's `signUp`; `awaitingReplies`
      counts the requests whose reply has not arrived. */
  datatype FormState = FormState(
    usernameAsyncValidator: bool,
    passwordAsyncValidator: bool,
    emailAsyncValidator: bool,
    isFormsubmitted: bool,
    isRegisterSuccessful: bool,
    username: TextControl,
    email: TextControl,
    password: TextControl,
    tos: Option<bool>,
    signUpCalls: seq<FormValue>,
    awaitingReplies: nat,
    notifications: seq<Notification>)

  /** `profileForm.valid`: every control valid, none pending. */
  predicate FormValid(s: FormState)
  {
    ControlValid(s.username) && ControlValid(s.email) && ControlValid(s.password) && TosErrors(s.tos) == {}
  }

  /** `profileForm.value`. */
  function ValueOf(s: FormState): FormValue
  {
    FormValue(s.username.value, s.email.value, s.password.value, s.tos)
  }

  /** A control as Angular judges it given the code as written: the async
      validator's result is never `null`, and any errors object, `{}`
      included, makes the control invalid. */
  predicate ControlValidAsWritten(c: TextControl)
  {
    c.syncErrors == {} && !c.check.Pending? && !c.check.Resolved?
  }

  /** `profileForm.valid` given the code as written. */
  predicate FormValidAsWritten(s: FormState)
  {
    ControlValidAsWritten(s.username) && ControlValidAsWritten(s.email)
    && ControlValidAsWritten(s.password) && TosErrors(s.tos) == {}
  }

  /** The invariant the component keeps: each control coherent with its
      rules, a flag set whenever its check is in flight, and a flag clear
      once its check has been answered. */
  predicate StateValid(s: FormState, isEmail: string -> bool)
  {
    && Coherent(s.username, UsernameSyncErrors(s.username.value))
    && Coherent(s.email, EmailSyncErrors(s.email.value, isEmail))
    && Coherent(s.password, PasswordSyncErrors(s.password.value))
    && (s.username.check.Pending? ==> s.usernameAsyncValidator)
    && (s.email.check.Pending? ==> s.emailAsyncValidator)
    && (s.password.check.Pending? ==> s.passwordAsyncValidator)
    && (s.username.check.Resolved? ==> !s.usernameAsyncValidator)
    && (s.email.check.Resolved? ==> !s.emailAsyncValidator)
    && (s.password.check.Resolved? ==> !s.passwordAsyncValidator)
  }

  /** While any of the component's pending flags is raised, the form is
      invalid: the raised flag's control is either checking, or failed a
      sync rule after its check was dropped. */
  lemma RaisedFlagBlocksForm(s: FormState, isEmail: string -> bool)
    requires StateValid(s, isEmail)
    requires s.usernameAsyncValidator || s.emailAsyncValidator || s.passwordAsyncValidator
    ensures !FormValid(s)
  {
  }

  /** The form is valid exactly when every sync rule passes and every async
      check has passed, for the values it holds now. */
  lemma FormValidIffAllChecksPassed(s: FormState, isEmail: string -> bool)
    requires StateValid(s, isEmail)
    ensures FormValid(s) <==>
      && s.username.value.Some? && s.username.value.value != ""
      && s.email.value.Some? && s.email.value.value != "" && isEmail(s.email.value.value)
      && s.password.value.Some? && Text.Utf16Length(s.password.value.value) >= MinPasswordLength
      && s.tos == Some(true)
      && s.username.check == Resolved(s.username.value.value, {})
      && s.email.check == Resolved(s.email.value.value, {})
      && s.password.check == Resolved(s.password.value.value, {})
  {
  }

  /** What a valid form sends is complete, and it is exactly the values its
      three checks passed for. */
  lemma SentValueIsChecked(s: FormState, isEmail: string -> bool)
    requires StateValid(s, isEmail) && FormValid(s)
    ensures ValueOf(s) == FormValue(Some(s.username.check.forValue), Some(s.email.check.forValue),
                                    Some(s.password.check.forValue), Some(true))
  {
  }

  /** Given the code as written, no reachable state of the form is valid:
      each async control either fails a sync rule, awaits its check, or holds
      the check's errors object, which is never `null`. */
  lemma AsWrittenFormNeverValid(s: FormState, isEmail: string -> bool)
    requires StateValid(s, isEmail)
    ensures !FormValidAsWritten(s)
  {
  }

  /** Any async error, and any check in flight, makes the form invalid. */
  lemma AsyncErrorOrPendingBlocksForm(s: FormState)
    requires || AsyncErrors(s.username.check) != {} || AsyncErrors(s.email.check) != {}
             || AsyncErrors(s.password.check) != {}
             || s.username.check.Pending? || s.email.check.Pending? || s.password.check.Pending?
    ensures !FormValid(s)
  {
  }

  class FormComponent {
    var usernameAsyncValidator: bool
    var passwordAsyncValidator: bool
    var emailAsyncValidator: bool
    var isFormsubmitted: bool
    var isRegisterSuccessful: bool
    var username: TextControl
    var email: TextControl
    var password: TextControl
    var tos: Option<bool>
    var signUpCalls: seq<FormValue>
    var awaitingReplies: nat
    var notifications: seq<Notification>
    /** Angular's e-mail pattern. */
    const isEmail: string -> bool

    function State(): FormState
      reads this
    {
      FormState(usernameAsyncValidator, passwordAsyncValidator, emailAsyncValidator,
                isFormsubmitted, isRegisterSuccessful, username, email, password, tos,
                signUpCalls, awaitingReplies, notifications)
    }

    ghost predicate Valid()
      reads this
    {
      StateValid(State(), isEmail)
    }

    /** Every control starts `null`, so every sync rule fails and no check runs. */
    constructor (isEmail: string -> bool)
      ensures Valid() && this.isEmail == isEmail
      ensures State() == FormState(false, false, false, false, false,
                                   TextControl(None, {Required}, NoCheck),
                                   TextControl(None, {Required}, NoCheck),
                                   TextControl(None, {Required}, NoCheck),
                                   None, [], 0, [])
      ensures !FormValid(State())
    {
      usernameAsyncValidator, passwordAsyncValidator, emailAsyncValidator := false, false, false;
      isFormsubmitted, isRegisterSuccessful := false, false;
      username := TextControl(None, {Required}, NoCheck);
      email := TextControl(None, {Required}, NoCheck);
      password := TextControl(None, {Required}, NoCheck);
      tos := None;
      signUpCalls, awaitingReplies, notifications := [], 0, [];
      this.isEmail := isEmail;
    }

    /** `validateUsername`: raises the flag and starts a check for `value`. */
    method ValidateUsername(value: string)
      modifies this
      ensures State() == old(State()).(usernameAsyncValidator := true,
                                        username := old(username).(check := Pending(value)))
    {
      usernameAsyncValidator := true;
      username := username.(check := Pending(value));
    }

    /** `validateEmail`. */
    method ValidateEmail(value: string)
      modifies this
      ensures State() == old(State()).(emailAsyncValidator := true,
                                        email := old(email).(check := Pending(value)))
    {
      emailAsyncValidator := true;
      email := email.(check := Pending(value));
    }

    /** `validatePasswordStrength`. */
    method ValidatePasswordStrength(value: string)
      modifies this
      ensures State() == old(State()).(passwordAsyncValidator := true,
                                        password := old(password).(check := Pending(value)))
    {
      passwordAsyncValidator := true;
      password := password.(check := Pending(value));
    }

    /** The user types `value`. The sync rules are re-run and any check in
        flight is dropped; the async validator starts only when they pass. */
    method InputUsername(value: string)
      requires Valid()
      modifies this
      ensures Valid()
      ensures var errors := UsernameSyncErrors(Some(value));
        State() == old(State()).(
          usernameAsyncValidator := if errors == {} then true else old(usernameAsyncValidator),
          username := TextControl(Some(value), errors, if errors == {} then Pending(value) else NoCheck))
    {
      var errors := UsernameSyncErrors(Some(value));
      username := TextControl(Some(value), errors, NoCheck);
      if errors == {} {
        ValidateUsername(value);
      }
    }

    method InputEmail(value: string)
      requires Valid()
      modifies this
      ensures Valid()
      ensures var errors := EmailSyncErrors(Some(value), isEmail);
        State() == old(State()).(
          emailAsyncValidator := if errors == {} then true else old(emailAsyncValidator),
          email := TextControl(Some(value), errors, if errors == {} then Pending(value) else NoCheck))
    {
      var errors := EmailSyncErrors(Some(value), isEmail);
      email := TextControl(Some(value), errors, NoCheck);
      if errors == {} {
        ValidateEmail(value);
      }
    }

    method InputPassword(value: string)
      requires Valid()
      modifies this
      ensures Valid()
      ensures var errors := PasswordSyncErrors(Some(value));
        State() == old(State()).(
          passwordAsyncValidator := if errors == {} then true else old(passwordAsyncValidator),
          password := TextControl(Some(value), errors, if errors == {} then Pending(value) else NoCheck))
    {
      var errors := PasswordSyncErrors(Some(value));
      password := TextControl(Some(value), errors, NoCheck);
      if errors == {} {
        ValidatePasswordStrength(value);
      }
    }

    /** The user ticks or clears the terms-of-service box. */
    method CheckTos(checked: bool)
      requires Valid()
      modifies this
      ensures Valid()
      ensures State() == old(State()).(tos := Some(checked))
    {
      tos := Some(checked);
    }

    /** The answer of `isUsernameTaken` for the check in flight arrives and is
        mapped. The answer of a superseded check never arrives, since the
        framework unsubscribed from it; with no check in flight nothing happens. */
    method DeliverUsername(usernameTaken: bool)
      requires Valid()
      modifies this
      ensures Valid()
      ensures old(username.check).Pending? ==>
        State() == old(State()).(usernameAsyncValidator := false,
                                  username := old(username).(check := Resolved(old(username.check.forValue), UsernameResult(usernameTaken))))
      ensures !old(username.check).Pending? ==> State() == old(State())
    {
      if username.check.Pending? {
        usernameAsyncValidator := false;
        username := username.(check := Resolved(username.check.forValue, UsernameResult(usernameTaken)));
      }
    }

    method DeliverEmail(emailTaken: bool)
      requires Valid()
      modifies this
      ensures Valid()
      ensures old(email.check).Pending? ==>
        State() == old(State()).(emailAsyncValidator := false,
                                  email := old(email).(check := Resolved(old(email.check.forValue), EmailResult(emailTaken))))
      ensures !old(email.check).Pending? ==> State() == old(State())
    {
      if email.check.Pending? {
        emailAsyncValidator := false;
        email := email.(check := Resolved(email.check.forValue, EmailResult(emailTaken)));
      }
    }

    method DeliverPassword(answer: PasswordAnswer)
      requires Valid()
      modifies this
      ensures Valid()
      ensures old(password.check).Pending? ==>
        State() == old(State()).(passwordAsyncValidator := false,
                                  password := old(password).(check := Resolved(old(password.check.forValue), PasswordResult(answer))))
      ensures !old(password.check).Pending? ==> State() == old(State())
    {
      if password.check.Pending? {
        passwordAsyncValidator := false;
        password := password.(check := Resolved(password.check.forValue, PasswordResult(answer)));
      }
    }

    /** `signUp`: on an invalid form nothing happens; otherwise the form is
        marked submitted and its value is sent once. */
    method SignUp()
      requires Valid()
      modifies this
      ensures Valid()
      ensures !old(FormValid(State())) ==> State() == old(State())
      ensures old(FormValid(State())) ==>
        State() == old(State()).(isFormsubmitted := true,
                                  signUpCalls := old(signUpCalls) + [old(ValueOf(State()))],
                                  awaitingReplies := old(awaitingReplies) + 1)
    {
      if !FormValid(State()) {
        return;
      }
      isFormsubmitted := true;
      signUpCalls := signUpCalls + [ValueOf(State())];
      awaitingReplies := awaitingReplies + 1;
    }

    /** The reply to an earlier `signUp` request arrives and is shown. */
    method DeliverSignUpReply(reply: SignUpReply)
      requires Valid()
      modifies this
      ensures Valid()
      ensures old(awaitingReplies) == 0 ==> State() == old(State())
      ensures old(awaitingReplies) > 0 ==>
        State() == old(State()).(awaitingReplies := old(awaitingReplies) - 1,
                                  notifications := old(notifications) + [Notify(reply)])
    {
      if awaitingReplies > 0 {
        awaitingReplies := awaitingReplies - 1;
        notifications := notifications + [Notify(reply)];
      }
    }
  }

  /** The notification for a signup reply: success with the server's
      message, danger with the error's. */
  function Notify(reply: SignUpReply): (note: Notification)
    ensures note.message == reply.message
    ensures note.SuccessNote? <==> reply.Replied?
  {
    match reply
    case Replied(m) => SuccessNote(m)
    case Failed(m) => DangerNote(m)
  }

  /** The values the component's tests enter. */
  const SignupData: FormValue := FormValue(Some("Fake Name"), Some("fake@email.com"), Some("fAke_pAssword@123"), Some(true))

  /** The tests' values pass every sync rule (given an e-mail pattern that
      accepts their address). */
  lemma SignupDataPassesSyncRules(isEmail: string -> bool)
    requires isEmail("fake@email.com")
    ensures UsernameSyncErrors(SignupData.username) == {}
    ensures EmailSyncErrors(SignupData.email, isEmail) == {}
    ensures PasswordSyncErrors(SignupData.password) == {}
    ensures TosErrors(SignupData.tos) == {}
  {
  }

  /** The tests' `fillForm`: type the three values and tick the box. Each
      check is then in flight for its value; nothing has been sent. */
  method FillForm(f: FormComponent, name: string, address: string, pass: string)
    requires f.Valid()
    requires UsernameSyncErrors(Some(name)) == {} && EmailSyncErrors(Some(address), f.isEmail) == {}
    requires PasswordSyncErrors(Some(pass)) == {}
    modifies f
    ensures f.Valid()
    ensures f.username == TextControl(Some(name), {}, Pending(name))
    ensures f.email == TextControl(Some(address), {}, Pending(address))
    ensures f.password == TextControl(Some(pass), {}, Pending(pass))
    ensures f.tos == Some(true)
    ensures f.usernameAsyncValidator && f.emailAsyncValidator && f.passwordAsyncValidator
    ensures f.isFormsubmitted == old(f.isFormsubmitted) && f.signUpCalls == old(f.signUpCalls)
    ensures f.awaitingReplies == old(f.awaitingReplies) && f.notifications == old(f.notifications)
  {
    f.InputUsername(name);
    f.InputEmail(address);
    f.InputPassword(pass);
    f.CheckTos(true);
  }

  /** Fill the form with values that pass the sync rules, let the three
      checks answer, submit. The button is disabled until the answers arrive;
      the form is then sent once, with exactly the entered values, iff no
      answer objects. */
  method FilledFormSubmitsIffChecksPass(isEmail: string -> bool, name: string, address: string, pass: string,
                                        usernameTaken: bool, emailTaken: bool, strength: PasswordAnswer)
    returns (validBeforeAnswers: bool, calls: seq<FormValue>, submitted: bool)
    requires UsernameSyncErrors(Some(name)) == {} && EmailSyncErrors(Some(address), isEmail) == {}
    requires PasswordSyncErrors(Some(pass)) == {}
    ensures !validBeforeAnswers
    ensures submitted <==> !usernameTaken && !emailTaken && strength.score >= StrongScore
    ensures calls == if submitted then [FormValue(Some(name), Some(address), Some(pass), Some(true))] else []
  {
    var f := new FormComponent(isEmail);
    FillForm(f, name, address, pass);
    validBeforeAnswers := FormValid(f.State());
    f.DeliverUsername(usernameTaken);
    f.DeliverEmail(emailTaken);
    f.DeliverPassword(strength);
    f.SignUp();
    calls, submitted := f.signUpCalls, f.isFormsubmitted;
  }

  /** The same filled form with three favourable answers is valid as
      intended, but not as the code is written. */
  method FilledFormValidOnlyAsIntended(isEmail: string -> bool, name: string, address: string, pass: string)
    returns (validAsWritten: bool, validAsIntended: bool)
    requires UsernameSyncErrors(Some(name)) == {} && EmailSyncErrors(Some(address), isEmail) == {}
    requires PasswordSyncErrors(Some(pass)) == {}
    ensures !validAsWritten && validAsIntended
  {
    var f := new FormComponent(isEmail);
    FillForm(f, name, address, pass);
    f.DeliverUsername(false);
    f.DeliverEmail(false);
    f.DeliverPassword(PasswordAnswer(4, "", []));
    validAsWritten, validAsIntended := FormValidAsWritten(f.State()), FormValid(f.State());
  }

  /** The successful submission sends the entered values once and shows the
      server's message. */
  method SubmitsTheFormSuccessfully(isEmail: string -> bool, name: string, address: string, pass: string, message: string)
    returns (calls: seq<FormValue>, notes: seq<Notification>)
    requires UsernameSyncErrors(Some(name)) == {} && EmailSyncErrors(Some(address), isEmail) == {}
    requires PasswordSyncErrors(Some(pass)) == {}
    ensures calls == [FormValue(Some(name), Some(address), Some(pass), Some(true))]
    ensures notes == [SuccessNote(message)]
  {
    var f := new FormComponent(isEmail);
    FillForm(f, name, address, pass);
    f.DeliverUsername(false);
    f.DeliverEmail(false);
    f.DeliverPassword(PasswordAnswer(4, "", []));
    f.SignUp();
    f.DeliverSignUpReply(Replied(message));
    calls, notes := f.signUpCalls, f.notifications;
  }

  /** Submitting the untouched form starts no check and sends nothing. */
  method DoesNotSubmitAnInvalidForm(isEmail: string -> bool) returns (calls: seq<FormValue>, submitted: bool, anyCheck: bool)
    ensures calls == [] && !submitted && !anyCheck
  {
    var f := new FormComponent(isEmail);
    f.SignUp();
    calls, submitted := f.signUpCalls, f.isFormsubmitted;
    anyCheck := !f.username.check.NoCheck? || !f.email.check.NoCheck? || !f.password.check.NoCheck?;
  }

  /** Editing the username while its check is in flight: the answer that
      arrives is applied to the newer value, never to the older one. */
  method LastEditWins(isEmail: string -> bool, older: string, newer: string, taken: bool) returns (check: AsyncCheck)
    requires older != "" && newer != ""
    ensures check == Resolved(newer, UsernameResult(taken))
  {
    var f := new FormComponent(isEmail);
    f.InputUsername(older);
    f.InputUsername(newer);
    f.DeliverUsername(taken);
    check := f.username.check;
  }

  /** Clearing the username while its check is in flight drops the check,
      but nothing lowers the component's pending flag. */
  method ClearedFieldKeepsFlag(isEmail: string -> bool) returns (flag: bool, check: AsyncCheck)
    ensures flag && check == NoCheck
  {
    var f := new FormComponent(isEmail);
    f.InputUsername("Fake Name");
    f.InputUsername("");
    f.DeliverUsername(false);
    flag, check := f.usernameAsyncValidator, f.username.check;
  }
}
