/** How the form's asynchronous checks and its submission meet the backend:
    the request bodies the user service sends, and what the form concludes
    from the backend's answers. */
module Signup {
  import opened Wrappers
  import Backend
  import Form

  /** A form field as the JSON it is sent as: `null` when untouched. */
  function Json<T>(v: Option<T>, wrap: T -> Backend.JsValue): Backend.JsValue
  {
    if v.Some? then wrap(v.value) else Backend.JNull
  }

  /** The body `signUp` posts: the form value, one key per control. */
  function SignUpBody(v: Form.FormValue): (body: Backend.Record)
    ensures body.Keys == {"username", "email", "password", "tos"}
    ensures v.username.Some? ==> Backend.Field(body, "username") == Some(Backend.JStr(v.username.value))
    ensures v.email.Some? ==> Backend.Field(body, "email") == Some(Backend.JStr(v.email.value))
  {
    map["username" := Json(v.username, s => Backend.JStr(s)),
        "email" := Json(v.email, s => Backend.JStr(s)),
        "password" := Json(v.password, s => Backend.JStr(s)),
        "tos" := Json(v.tos, b => Backend.JBool(b))]
  }

  /** The form shows "username taken" for `name` exactly when a stored record
      has that username: the backend's lookup composed with the form's map. */
  lemma UsernameVerdictMatchesStore(users: seq<Backend.Record>, name: string)
    ensures Form.UsernameResult(Backend.IsParameterTaken(users, "username", Some(Backend.JStr(name)))) != {}
        <==> exists i :: 0 <= i < |users| && Backend.Field(users[i], "username") == Some(Backend.JStr(name))
  {
  }

  /** Likewise for the e-mail. */
  lemma EmailVerdictMatchesStore(users: seq<Backend.Record>, address: string)
    ensures Form.EmailResult(Backend.IsParameterTaken(users, "email", Some(Backend.JStr(address)))) != {}
        <==> exists i :: 0 <= i < |users| && Backend.Field(users[i], "email") == Some(Backend.JStr(address))
  {
  }

  /** Once a submitted form is stored, the same username and e-mail are
      reported taken to the next form that asks. */
  lemma {:induction false} SubmittedValuesBecomeTaken(users: seq<Backend.Record>, v: Form.FormValue)
    requires v.username.Some? && v.email.Some?
    ensures Form.UsernameResult(Backend.IsParameterTaken(users + [SignUpBody(v)], "username", Some(Backend.JStr(v.username.value))))
            == {Form.UsernameTaken}
    ensures Form.EmailResult(Backend.IsParameterTaken(users + [SignUpBody(v)], "email", Some(Backend.JStr(v.email.value))))
            == {Form.EmailTaken}
  {
    Backend.AppendedIsTaken(users, SignUpBody(v), "username");
    Backend.AppendedIsTaken(users, SignUpBody(v), "email");
  }

  /** The password check only runs for a password that passed the sync
      rules, and such a password is never answered "Missing password". */
  lemma CheckedPasswordIsNeverMissing(password: string, zxcvbn: string -> Backend.ZxcvbnResult)
    requires Form.PasswordSyncErrors(Some(password)) == {}
    ensures Backend.PasswordStrength(map["password" := Backend.JStr(password)], zxcvbn).Strength?
  {
  }

  /** The strength answer the form maps is the scorer's own: the password is
      reported weak iff the scorer gives it less than 3. */
  lemma PasswordVerdictMatchesScorer(password: string, zxcvbn: string -> Backend.ZxcvbnResult)
    requires password != ""
    ensures var resp := Backend.PasswordStrength(map["password" := Backend.JStr(password)], zxcvbn);
            resp.Strength?
            && (Form.PasswordResult(Form.PasswordAnswer(resp.score, resp.warning, resp.suggestions)) != {}
                <==> zxcvbn(password).score < Form.StrongScore)
  {
  }
}
