/**
 * Account registration, login and logout (server/src/controllers/authController.js).
 * Password hashing, password comparison and token signing are parameters.
 */
module Auth {
  import opened Wrappers
  import opened ObjectIds
  import UM = UserModel
  import Seqs
  import JsText

  datatype AuthError =
    | FieldsRequired       // 400 "All fields are required"
    | EmailExists          // 409 "Email already exists"
    | DetailsMissing       // 400 "Sign In failed:Missing Details"
    | UnknownEmail         // 401 "Invalid credentials..."
    | WrongPassword        // 401 "Invalid Credintials..."
    | AccountNotVerified   // 400 "Sign In failed:Account not verified"
    | CreateRejected       // 500 "Registeration failed": the schema refuses the new account
  {
    function Status(): int {
      match this
      case FieldsRequired => 400
      case EmailExists => 409
      case DetailsMissing => 400
      case UnknownEmail => 401
      case WrongPassword => 401
      case AccountNotVerified => 400
      case CreateRejected => 500
    }
  }

  /** What the handler does with the `access_token` cookie. */
  datatype Cookie = NoCookie | SetAccessToken(token: string) | ClearAccessToken

  /** The user as the answer shows it. */
  datatype UserView = UserView(id: ObjectId, name: Option<string>, email: string, role: UM.Role)

  /** An answer: the outcome and the cookie action that goes with it. */
  datatype AuthAnswer = AuthAnswer(result: Result<UserView, AuthError>, cookie: Cookie)

  /** The body of `POST /api/auth/register`. */
  datatype RegisterInput = RegisterInput(
    firstName: Option<string>,
    lastName: Option<string>,
    email: Option<string>,
    password: Option<string>,
    role: Option<string>)

  function View(u: UM.User): UserView {
    UserView(u.id, u.name, u.email, u.role)
  }

  predicate AllGiven(input: RegisterInput) {
    && JsText.Truthy(input.firstName) && JsText.Truthy(input.lastName)
    && JsText.Truthy(input.email) && JsText.Truthy(input.password) && JsText.Truthy(input.role)
  }

  /**
   * The account `registerUser` hands to `User.create`, as written: it passes
   * `firstName` and `lastName`, which the strict schema drops, and no `name`.
   */
  function DocumentAsWritten(input: RegisterInput, hash: string -> string, freshId: ObjectId): UM.User
    requires AllGiven(input)
  {
    UM.User(freshId, None, JsText.Lower(input.email.value), hash(input.password.value), input.role.value, false)
  }

  /** `User.create(doc)`: the schema's validators decide, and a refusal is the `catch`'s 500. */
  function Create(doc: UM.User): (r: Result<UM.User, AuthError>)
    ensures r.Success? <==> UM.SchemaAccepts(doc)
    ensures r.Success? ==> r.value == doc
    ensures r.Failure? ==> r.error == CreateRejected
  {
    if UM.SchemaAccepts(doc) then Success(doc) else Failure(CreateRejected)
  }

  /** As written, the schema refuses every account that passes the handler's own checks. */
  lemma AsWrittenAlwaysRejected(input: RegisterInput, hash: string -> string, freshId: ObjectId)
    requires AllGiven(input)
    ensures !UM.SchemaAccepts(DocumentAsWritten(input, hash, freshId))
  {
  }

  /**
   * `registerUser` as written: missing fields get 400, a taken e-mail 409,
   * and every other request ends in the 500 of the `catch`, so no account
   * is ever created and no cookie is ever set.
   */
  function RegisterOutcomeAsWritten(users: UM.UserCollection, input: RegisterInput,
                                    hash: string -> string, freshId: ObjectId): (r: Result<UM.User, AuthError>)
    reads users
    ensures r.Failure?
    ensures r == Failure(FieldsRequired) <==> !AllGiven(input)
    ensures r == Failure(EmailExists) <==> AllGiven(input) && users.IndexOfEmail(input.email.value).Some?
    ensures r == Failure(CreateRejected) <==> AllGiven(input) && users.IndexOfEmail(input.email.value).None?
  {
    if !AllGiven(input) then Failure(FieldsRequired)
    else if users.IndexOfEmail(input.email.value).Some? then Failure(EmailExists)
    else
      AsWrittenAlwaysRejected(input, hash, freshId);
      Create(DocumentAsWritten(input, hash, freshId))
  }

  /**
   * The account the handler evidently means to create: its `name` is the
   * first and last name joined by a space, so the schema refuses it only for
   * a role outside the enum.
   */
  function IntendedDocument(input: RegisterInput, hash: string -> string, freshId: ObjectId): (r: UM.User)
    requires AllGiven(input)
    ensures r.name == Some(input.firstName.value + " " + input.lastName.value)
    ensures r.email == JsText.Lower(input.email.value) && r.passwordHash == hash(input.password.value)
    ensures r.id == freshId && r.role == input.role.value && !r.isAccountVerified
    ensures UM.SchemaAccepts(r) <==> input.role.value in UM.Roles
  {
    UM.User(freshId, Some(input.firstName.value + " " + input.lastName.value),
            JsText.Lower(input.email.value), hash(input.password.value), input.role.value, false)
  }

  /**
   * `registerUser` with the intended account: a missing field is refused
   * before the store is read, a taken e-mail gets 409, a role outside the
   * enum gets the schema's 500, and otherwise exactly one unverified user is
   * added, holding the hash of the password, which a lookup of the e-mail then
   * finds, and a token cookie is set for it.
   */
  method RegisterUser(users: UM.UserCollection, input: RegisterInput, hash: string -> string,
                      sign: UM.User -> string, freshId: ObjectId)
    returns (r: AuthAnswer)
    requires users.Valid()
    requires forall i :: 0 <= i < |users.rows| ==> users.rows[i].id != freshId
    modifies users
    ensures users.Valid()
    ensures r.result.Failure? ==> users.rows == old(users.rows) && r.cookie == NoCookie
    ensures r.result == Failure(FieldsRequired) <==> !AllGiven(input)
    ensures r.result == Failure(EmailExists) <==>
      AllGiven(input) && old(users.IndexOfEmail(input.email.value)).Some?
    ensures r.result == Failure(CreateRejected) <==>
      AllGiven(input) && old(users.IndexOfEmail(input.email.value)).None? && input.role.value !in UM.Roles
    ensures r.result.Success? <==>
      AllGiven(input) && old(users.IndexOfEmail(input.email.value)).None? && input.role.value in UM.Roles
    ensures r.result.Success? ==>
      var u := IntendedDocument(input, hash, freshId);
      && users.rows == old(users.rows) + [u]
      && users.IndexOfEmail(input.email.value) == Some(|old(users.rows)|)
      && r.result.value == View(u)
      && r.cookie == SetAccessToken(sign(u))
  {
    if !AllGiven(input) {
      return AuthAnswer(Failure(FieldsRequired), NoCookie);
    }
    var existing := users.IndexOfEmail(input.email.value);
    if existing.Some? {
      return AuthAnswer(Failure(EmailExists), NoCookie);
    }
    var user := IntendedDocument(input, hash, freshId);
    if Create(user).Failure? {
      return AuthAnswer(Failure(CreateRejected), NoCookie);
    }
    JsText.LowerIdempotent(input.email.value);
    users.rows := users.rows + [user];
    assert users.rows[|old(users.rows)|] == user;
    r := AuthAnswer(Success(View(user)), SetAccessToken(sign(user)));
  }

  /**
   * `loginUser`: missing details (400), then an unknown e-mail (401), then a
   * wrong password (401), and only then an unverified account (400); a cookie
   * is set exactly when every check passes.
   */
  function LoginUser(users: UM.UserCollection, email: Option<string>, password: Option<string>,
                     compare: (string, string) -> bool, sign: UM.User -> string): (r: AuthAnswer)
    reads users
    ensures r.result == Failure(DetailsMissing) <==> !JsText.Truthy(email) || !JsText.Truthy(password)
    ensures r.result == Failure(UnknownEmail) <==>
      JsText.Truthy(email) && JsText.Truthy(password) && users.IndexOfEmail(email.value).None?
    ensures r.result == Failure(WrongPassword) <==>
      JsText.Truthy(email) && JsText.Truthy(password) && users.IndexOfEmail(email.value).Some?
      && !compare(password.value, users.rows[users.IndexOfEmail(email.value).value].passwordHash)
    ensures r.result == Failure(AccountNotVerified) <==>
      JsText.Truthy(email) && JsText.Truthy(password) && users.IndexOfEmail(email.value).Some?
      && compare(password.value, users.rows[users.IndexOfEmail(email.value).value].passwordHash)
      && !users.rows[users.IndexOfEmail(email.value).value].isAccountVerified
    ensures r.result.Success? ==>
      var u := users.rows[users.IndexOfEmail(email.value).value];
      && u.isAccountVerified && compare(password.value, u.passwordHash)
      && r.result.value == View(u) && r.cookie == SetAccessToken(sign(u))
    ensures r.result.Success? <==>
      JsText.Truthy(email) && JsText.Truthy(password) && users.IndexOfEmail(email.value).Some?
      && compare(password.value, users.rows[users.IndexOfEmail(email.value).value].passwordHash)
      && users.rows[users.IndexOfEmail(email.value).value].isAccountVerified
    ensures r.result.Failure? ==> r.cookie == NoCookie
  {
    if !JsText.Truthy(email) || !JsText.Truthy(password) then AuthAnswer(Failure(DetailsMissing), NoCookie)
    else match users.IndexOfEmail(email.value)
      case None => AuthAnswer(Failure(UnknownEmail), NoCookie)
      case Some(k) =>
        var user := users.rows[k];
        if !compare(password.value, user.passwordHash) then AuthAnswer(Failure(WrongPassword), NoCookie)
        else if !user.isAccountVerified then AuthAnswer(Failure(AccountNotVerified), NoCookie)
        else AuthAnswer(Success(View(user)), SetAccessToken(sign(user)))
  }

  /** `logoutUser`: always 200, always clearing the token cookie. */
  function LogoutUser(): (r: (int, Cookie))
    ensures r.0 == 200 && r.1 == ClearAccessToken
  {
    (200, ClearAccessToken)
  }
}
