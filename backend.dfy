/** The mock backend's user controller: an in-memory list of user records,
    two "is this value taken" lookups over it, an unconditional signup that
    appends to it, and a password-strength handler that delegates to the
    zxcvbn scorer. */
module Backend {
  import opened Wrappers

  /** The JSON values a request body can carry (objects and arrays nested in
      a field are not modelled). Strict equality `===` on these is equality. */
  datatype JsValue = JStr(s: string) | JNum(n: int) | JBool(b: bool) | JNull

  /** A parsed JSON request body, or a stored user record. */
  type Record = map<string, JsValue>

  /** `record[key]`: `None` is `undefined`, for a key the record lacks. */
  function Field(record: Record, key: string): Option<JsValue>
  {
    if key in record then Some(record[key]) else None
  }

  /** JavaScript truthiness of a field: `undefined`, `null`, `""`, `0` and
      `false` are falsy. */
  predicate Truthy(v: Option<JsValue>)
  {
    match v
    case None => false
    case Some(JNull) => false
    case Some(JStr(s)) => s != ""
    case Some(JNum(n)) => n != 0
    case Some(JBool(b)) => b
  }

  /** `isParameterTaken`: some record's field `parameter` is strictly equal to
      `value`. An absent field equals an absent value (`undefined === undefined`). */
  function IsParameterTaken(users: seq<Record>, parameter: string, value: Option<JsValue>): (taken: bool)
    ensures taken <==> exists i :: 0 <= i < |users| && Field(users[i], parameter) == value
  {
    if users == [] then false
    else Field(users[0], parameter) == value || IsParameterTaken(users[1..], parameter, value)
  }

  /** The store the server starts with. */
  const InitialUsers: seq<Record> := [map["username" := JStr("Omar Yehia"), "email" := JStr("a@b")]]

  const SignupMessage: string := "User added successfully!"
  const MissingPasswordMessage: string := "Missing password"

  datatype SignupResponse = SignupResponse(status: int, success: bool, message: string, users: seq<Record>)
  datatype UsernameTakenResponse = UsernameTakenResponse(status: int, usernameTaken: bool)
  datatype EmailTakenResponse = EmailTakenResponse(status: int, emailTaken: bool)

  /** What zxcvbn returns, the fields the handler reads. */
  datatype Feedback = Feedback(warning: string, suggestions: seq<string>)
  datatype ZxcvbnResult = ZxcvbnResult(score: int, feedback: Feedback)

  datatype StrengthResponse =
    | MissingPassword(status: int, success: bool, message: string)
    | ScorerThrew(status: int)
    | Strength(status: int, score: int, warning: string, suggestions: seq<string>)

  /** The status Express answers with when a handler throws. */
  const InternalServerError: int := 500

  /** `password_strength`. A falsy or absent password is answered 400 without
      scoring. `zxcvbn` is the scoring library, which takes a string: a
      truthy password of another type makes it throw, and Express answers
      500. Otherwise the scorer's score, warning and suggestions are returned
      as they are. */
  function PasswordStrength(body: Record, zxcvbn: string -> ZxcvbnResult): (resp: StrengthResponse)
    ensures resp.MissingPassword? <==> !Truthy(Field(body, "password"))
    ensures resp.MissingPassword? ==> resp == MissingPassword(400, false, MissingPasswordMessage)
    ensures resp.ScorerThrew? <==> Truthy(Field(body, "password")) && !body["password"].JStr?
    ensures resp.ScorerThrew? ==> resp == ScorerThrew(InternalServerError)
    ensures resp.Strength? ==>
      && body["password"].JStr?
      && var result := zxcvbn(body["password"].s);
         resp == Strength(200, result.score, result.feedback.warning, result.feedback.suggestions)
  {
    var password := Field(body, "password");
    if !Truthy(password) then MissingPassword(400, false, MissingPasswordMessage)
    else if !password.value.JStr? then ScorerThrew(InternalServerError)
    else
      var result := zxcvbn(password.value.s);
      Strength(200, result.score, result.feedback.warning, result.feedback.suggestions)
  }

  /** A missing password never reaches the scorer: the answer is the same
      whatever scorer is plugged in. */
  lemma MissingPasswordIgnoresScorer(body: Record, z1: string -> ZxcvbnResult, z2: string -> ZxcvbnResult)
    requires !Truthy(Field(body, "password"))
    ensures PasswordStrength(body, z1) == PasswordStrength(body, z2) == MissingPassword(400, false, MissingPasswordMessage)
  {
  }

  /** A truthy password that is not a string, such as `5` or `true`, passes
      the guard and makes the scorer throw. */
  lemma NonStringPasswordFails(z: string -> ZxcvbnResult)
    ensures PasswordStrength(map["password" := JNum(5)], z) == ScorerThrew(500)
    ensures PasswordStrength(map["password" := JBool(true)], z) == ScorerThrew(500)
    ensures PasswordStrength(map["password" := JNum(0)], z) == MissingPassword(400, false, MissingPasswordMessage)
  {
  }

  /** A scorer that keeps to zxcvbn's range 0..4 gives a response in that range. */
  lemma StrengthScoreInRange(body: Record, zxcvbn: string -> ZxcvbnResult)
    requires forall v :: 0 <= zxcvbn(v).score <= 4
    requires Truthy(Field(body, "password")) && body["password"].JStr?
    ensures PasswordStrength(body, zxcvbn).Strength?
    ensures 0 <= PasswordStrength(body, zxcvbn).score <= 4
  {
  }

  /** A record is found by the field value it was appended with. */
  lemma {:induction false} AppendedIsTaken(users: seq<Record>, body: Record, parameter: string)
    ensures IsParameterTaken(users + [body], parameter, Field(body, parameter))
  {
    var all := users + [body];
    assert Field(all[|users|], parameter) == Field(body, parameter);
  }

  /** Appending never makes a taken value free again, and a value is taken
      after an append iff it was taken before or the new record has it. */
  lemma {:induction false} AppendKeepsTaken(users: seq<Record>, body: Record, parameter: string, value: Option<JsValue>)
    ensures IsParameterTaken(users + [body], parameter, value)
        <==> IsParameterTaken(users, parameter, value) || Field(body, parameter) == value
  {
    var all := users + [body];
    assert all[|users|] == body;
    if IsParameterTaken(users, parameter, value) {
      var i :| 0 <= i < |users| && Field(users[i], parameter) == value;
      assert all[i] == users[i];
    }
    if IsParameterTaken(all, parameter, value) {
      var i :| 0 <= i < |all| && Field(all[i], parameter) == value;
      if i < |users| {
        assert all[i] == users[i];
      }
    }
  }

  /** Over the initial store, the seeded username and e-mail are taken, and
      the lookup is case-sensitive. */
  lemma InitialStoreLookups()
    ensures IsParameterTaken(InitialUsers, "username", Some(JStr("Omar Yehia")))
    ensures IsParameterTaken(InitialUsers, "email", Some(JStr("a@b")))
    ensures !IsParameterTaken(InitialUsers, "username", Some(JStr("omar yehia")))
    ensures !IsParameterTaken([], "username", Some(JStr("Omar Yehia")))
  {
  }

  /** The module-level `mockUsers` array and the handlers that read or
      extend it. Each handler takes the parsed request body. */
  class UserController {
    var mockUsers: seq<Record>

    constructor ()
      ensures mockUsers == InitialUsers
    {
      mockUsers := InitialUsers;
    }

    /** `store_user`: appends the body as it is (no uniqueness or content
        check) and answers with the whole updated store. */
    method StoreUser(body: Record) returns (resp: SignupResponse)
      modifies this
      ensures mockUsers == old(mockUsers) + [body]
      ensures resp == SignupResponse(200, true, SignupMessage, mockUsers)
    {
      mockUsers := mockUsers + [body];
      resp := SignupResponse(200, true, SignupMessage, mockUsers);
    }

    /** `username_taken`: reads the store and changes nothing. */
    method UsernameTaken(body: Record) returns (resp: UsernameTakenResponse)
      ensures resp.status == 200
      ensures resp.usernameTaken <==>
        exists i :: 0 <= i < |mockUsers| && Field(mockUsers[i], "username") == Field(body, "username")
    {
      resp := UsernameTakenResponse(200, IsParameterTaken(mockUsers, "username", Field(body, "username")));
    }

    /** `email_taken`: reads the store and changes nothing. */
    method EmailTaken(body: Record) returns (resp: EmailTakenResponse)
      ensures resp.status == 200
      ensures resp.emailTaken <==>
        exists i :: 0 <= i < |mockUsers| && Field(mockUsers[i], "email") == Field(body, "email")
    {
      resp := EmailTakenResponse(200, IsParameterTaken(mockUsers, "email", Field(body, "email")));
    }
  }

  /** After a signup, asking for the same username answers "taken". */
  method SignupThenUsernameTaken(c: UserController, body: Record) returns (resp: UsernameTakenResponse)
    modifies c
    ensures c.mockUsers == old(c.mockUsers) + [body]
    ensures resp.usernameTaken
  {
    var _ := c.StoreUser(body);
    AppendedIsTaken(old(c.mockUsers), body, "username");
    resp := c.UsernameTaken(body);
  }

  /** Two signups with one username both succeed and both records are kept:
      the store does not enforce uniqueness. */
  method DuplicateSignupsAccepted() returns (first: SignupResponse, second: SignupResponse)
    ensures first.success && second.success
    ensures |second.users| == 3
    ensures Field(second.users[1], "username") == Field(second.users[2], "username") == Some(JStr("Fake Name"))
  {
    var c := new UserController();
    var body := map["username" := JStr("Fake Name"), "email" := JStr("fake@email.com")];
    first := c.StoreUser(body);
    second := c.StoreUser(body);
  }

  /** A body without `email` makes a later e-mail check of a body without
      `email` answer "taken": both sides are `undefined`. */
  method MissingFieldsMatch() returns (resp: EmailTakenResponse)
    ensures resp.emailTaken
  {
    var c := new UserController();
    var _ := c.StoreUser(map["username" := JStr("Fake Name")]);
    AppendedIsTaken(InitialUsers, map["username" := JStr("Fake Name")], "email");
    resp := c.EmailTaken(map[]);
  }
}
