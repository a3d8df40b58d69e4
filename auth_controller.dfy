/** The handlers of src/backend/controllers/auth.controller.js. Password hashing and
    comparison (bcrypt) and token signing (`generateToken`, over jwt.sign) are parameters:
    `hash` gives the hash of a password or none when bcrypt throws, `compare` tells
    whether a password matches a stored hash or none when it throws, and `sign` gives the
    token of a user id. `clock` is CURRENT_TIMESTAMP. */
module AuthController {

  import opened Wrappers
  import opened JsValues
  import opened JsStrings
  import opened Schema
  import opened Http
  import opened AuthMiddleware

  /** The fields of `req.body` that `register` reads; the confirmation is only checked by
      the validation middleware. */
  datatype RegisterBody = RegisterBody(firstName: Val, lastName: Val, email: Val, phone: Val,
                                       password: Val, address: Val, city: Val, department: Val)

  /** The `user` object of a reply. */
  datatype SessionUser = SessionUser(id: nat, firstName: Val, lastName: Val, email: Val)

  /** The successful replies. */
  datatype AuthReply =
    | Registered(message: string, userId: nat, token: string, user: SessionUser)
    | LoggedIn(message: string, token: string, user: SessionUser)
    | Verified(user: SessionUser)
    | Notice(message: string)

  /** A handler's reply together with the users table it leaves. */
  datatype Outcome = Outcome(reply: Response<AuthReply>, users: seq<UserRow>)

  const EmailTaken: string := "Este correo electrónico ya está registrado"
  const RegisterOk: string := "Usuario registrado exitosamente"
  const RegisterFailed: string := "Error al registrar el usuario"
  const BadCredentials: string := "Correo o contraseña incorrectos"
  const AccountDisabled: string := "Tu cuenta está desactivada. Contacta al soporte."
  const LoginOk: string := "Login exitoso"
  const LoginFailed: string := "Error al iniciar sesión"
  const TokenMissing: string := "Token no proporcionado"
  const TokenRejected: string := "Token inválido o expirado"
  const LoggedOut: string := "Sesión cerrada exitosamente"
  const ResetNotice: string := "Si el email existe, recibirás instrucciones para resetear tu contraseña"
  const ResetFailed: string := "Error procesando la solicitud"
  const PasswordReset: string := "Contraseña actualizada exitosamente"

  /** `email.toLowerCase()`: only a string has the method; on anything else the call
      throws and the handler answers 500. */
  function LowerEmail(email: Val): (r: Option<string>)
    ensures r.Some? <==> email.Str?
    ensures r.Some? ==> r.value == ToLowerCase(email.s)
  {
    if email.Str? then Some(ToLowerCase(email.s)) else None
  }

  /** `SELECT ... FROM users WHERE email = ?`: SQLite compares TEXT exactly. */
  function EmailRow(users: seq<UserRow>, email: string): (r: Option<nat>)
    ensures r.Some? ==> r.value < |users| && users[r.value].email == Str(email)
    ensures r.None? <==> forall k :: 0 <= k < |users| ==> users[k].email != Str(email)
  {
    FirstIndex(users, (u: UserRow) => u.email == Str(email))
  }

  // ---------------------------------------------------------------- register

  /** The row the INSERT of `register` writes: the lower-cased e-mail, the hash, the phone
      also as WhatsApp number, the country Bolivia and an active account; role and
      email_verified take their defaults. */
  function NewUserRow(id: nat, email: string, hashed: string, body: RegisterBody, now: nat)
    : UserRow
  {
    UserRow(id, Str(email), Str(hashed), TextColumn(body.firstName), TextColumn(body.lastName),
            TextColumn(body.phone), TextColumn(body.phone), TextColumn(body.address),
            TextColumn(body.city), TextColumn(body.department), Str("Bolivia"), Str("user"),
            false, true, None, now, now)
  }

  function RegisterOutcome(users: seq<UserRow>, next: nat, body: RegisterBody,
                           hash: Val -> Option<string>, sign: nat -> string, clock: nat): Outcome {
    match LowerEmail(body.email)
    case None => Outcome(Fail(500, RegisterFailed), users)
    case Some(email) =>
      if EmailRow(users, email).Some? then Outcome(Fail(400, EmailTaken), users)
      else
        match hash(body.password)
        case None => Outcome(Fail(500, RegisterFailed), users)
        case Some(hashed) => InsertOutcome(users, NewUserRow(next, email, hashed, body, clock), body, sign, clock)
  }

  /** The INSERT of the new account and what follows it. */
  function InsertOutcome(users: seq<UserRow>, row: UserRow, body: RegisterBody,
                         sign: nat -> string, clock: nat): Outcome {
    if UserViolation(users, row).Some? then Outcome(Fail(500, RegisterFailed), users)
    else
      Outcome(Ok(201, Registered(RegisterOk, row.id, sign(row.id),
                                 SessionUser(row.id, body.firstName, body.lastName, row.email))),
              users + [row.(lastLogin := Some(clock))])
  }

  predicate Given(v: Val) {
    !v.Null? && !v.Undefined?
  }

  /** The stored account: the e-mail in lower case, never the password itself but its
      hash, the phone twice, Bolivia, role `user`, active and not verified. */
  lemma NewUserColumns(id: nat, email: string, hashed: string, body: RegisterBody, now: nat)
    ensures var row := NewUserRow(id, email, hashed, body, now);
            row.email == Str(email) && row.password == Str(hashed)
            && row.whatsapp == row.phone && row.country == Str("Bolivia")
            && row.role == Str("user") && InCheck(row.role, Roles)
            && row.isActive && !row.emailVerified && row.lastLogin.None?
            && (row.city.Null? <==> !Given(body.city))
            && (body.phone.Str? ==> row.phone == body.phone)
  {
  }

  /** `register` creates an account exactly when the e-mail is a string no account has in
      lower case, bcrypt hashes the password, and first name, last name and phone are
      given (a missing one breaks NOT NULL and ends in the generic 500). */
  lemma RegisterSucceedsExactly(users: seq<UserRow>, next: nat, body: RegisterBody,
                                hash: Val -> Option<string>, sign: nat -> string, clock: nat)
    ensures RegisterOutcome(users, next, body, hash, sign, clock).reply.Ok? <==>
              body.email.Str? && EmailRow(users, ToLowerCase(body.email.s)).None?
              && hash(body.password).Some?
              && Given(body.firstName) && Given(body.lastName) && Given(body.phone)
  {
    if body.email.Str? && EmailRow(users, ToLowerCase(body.email.s)).None? && hash(body.password).Some? {
      var email := ToLowerCase(body.email.s);
      var row := NewUserRow(next, email, hash(body.password).value, body, clock);
      assert row.role == Str("user") && InCheck(row.role, Roles) by {
        assert Roles[0] == "user";
      }
      assert (exists k :: 0 <= k < |users| && users[k].email == row.email) <==>
             EmailRow(users, email).Some?;
    }
  }

  /** A refused registration changes no table; an accepted one appends exactly the new
      account, stamped as just logged in, and answers 201 with its id and token. */
  lemma RegisterEffect(users: seq<UserRow>, next: nat, body: RegisterBody,
                       hash: Val -> Option<string>, sign: nat -> string, clock: nat)
    ensures var o := RegisterOutcome(users, next, body, hash, sign, clock);
            (o.reply.Fail? ==> o.users == users && o.reply.status in {400, 500})
            && (o.reply.Ok? ==>
                  body.email.Str? && hash(body.password).Some?
                  && o.users == users + [NewUserRow(next, ToLowerCase(body.email.s),
                                                    hash(body.password).value, body, clock)
                                           .(lastLogin := Some(clock))]
                  && o.reply == Ok(201, Registered(RegisterOk, next, sign(next),
                                     SessionUser(next, body.firstName, body.lastName,
                                                 Str(ToLowerCase(body.email.s))))))
  {
  }

  /** Once an e-mail is registered, registering it again in any mix of upper and lower
      case is refused with 400. */
  lemma RegisteredEmailBlocksVariants(users: seq<UserRow>, next: nat, body: RegisterBody,
                                      other: RegisterBody, hash: Val -> Option<string>,
                                      sign: nat -> string, clock: nat, clock2: nat)
    requires RegisterOutcome(users, next, body, hash, sign, clock).reply.Ok?
    requires body.email.Str? && other.email.Str?
    requires ToLowerCase(other.email.s) == ToLowerCase(body.email.s)
    ensures var after := RegisterOutcome(users, next, body, hash, sign, clock).users;
            RegisterOutcome(after, next + 1, other, hash, sign, clock2)
              == Outcome(Fail(400, EmailTaken), after)
  {
    var after := RegisterOutcome(users, next, body, hash, sign, clock).users;
    assert after[|users|].email == Str(ToLowerCase(body.email.s));
  }

  /** `register`. */
  method Register(db: Database, body: RegisterBody, hash: Val -> Option<string>,
                  sign: nat -> string, clock: nat) returns (res: Response<AuthReply>)
    requires db.Valid()
    modifies db`users, db`nextUserId
    ensures db.Valid()
    ensures var o := RegisterOutcome(old(db.users), old(db.nextUserId), body, hash, sign, clock);
            res == o.reply && db.users == o.users
            && db.nextUserId == old(db.nextUserId) + (if res.Ok? then 1 else 0)
  {
    var email := LowerEmail(body.email);
    if email.None? {
      return Fail(500, RegisterFailed);
    }
    if EmailRow(db.users, email.value).Some? {
      return Fail(400, EmailTaken);
    }
    var hashed := hash(body.password);
    if hashed.None? {
      return Fail(500, RegisterFailed);
    }
    var id := db.nextUserId;
    var row := NewUserRow(id, email.value, hashed.value, body, clock);
    if UserViolation(db.users, row).Some? {
      return Fail(500, RegisterFailed);
    }
    var token := sign(id);
    RegisterAccepted(db.users, id, body, hash, sign, clock);
    // The INSERT and the UPDATE of last_login that follows it, as one write.
    var stamped := row.(lastLogin := Some(clock));
    assert UserViolation(db.users, stamped) == UserViolation(db.users, row);
    db.users := db.users + [stamped];
    db.nextUserId := id + 1;
    UserAppendKeepsValid(db);
    res := Ok(201, Registered(RegisterOk, id, token,
                              SessionUser(id, body.firstName, body.lastName, Str(email.value))));
  }

  /** The outcome of an accepted registration. */
  lemma RegisterAccepted(users: seq<UserRow>, next: nat, body: RegisterBody,
                         hash: Val -> Option<string>, sign: nat -> string, clock: nat)
    requires body.email.Str? && EmailRow(users, ToLowerCase(body.email.s)).None?
    requires hash(body.password).Some?
    requires UserViolation(users, NewUserRow(next, ToLowerCase(body.email.s),
                                             hash(body.password).value, body, clock)).None?
    ensures var email := ToLowerCase(body.email.s);
            RegisterOutcome(users, next, body, hash, sign, clock)
            == Outcome(Ok(201, Registered(RegisterOk, next, sign(next),
                                          SessionUser(next, body.firstName, body.lastName, Str(email)))),
                       users + [NewUserRow(next, email, hash(body.password).value, body, clock)
                                  .(lastLogin := Some(clock))])
  {
  }

  // ---------------------------------------------------------------- login

  function LoginOutcome(users: seq<UserRow>, email: Val, password: Val,
                        compare: (Val, Val) -> Option<bool>, sign: nat -> string,
                        clock: nat): Outcome {
    match LowerEmail(email)
    case None => Outcome(Fail(500, LoginFailed), users)
    case Some(e) =>
      match EmailRow(users, e)
      case None => Outcome(Fail(401, BadCredentials), users)
      case Some(k) =>
        var u := users[k];
        if !u.isActive then Outcome(Fail(403, AccountDisabled), users)
        else
          match compare(password, u.password)
          case None => Outcome(Fail(500, LoginFailed), users)
          case Some(matches) =>
            if !matches then Outcome(Fail(401, BadCredentials), users)
            else
              Outcome(Ok(200, LoggedIn(LoginOk, sign(u.id),
                                       SessionUser(u.id, u.firstName, u.lastName, u.email))),
                      users[k := u.(lastLogin := Some(clock))])
  }

  /** An unknown e-mail and a wrong password get the same 401 reply, so a caller cannot
      tell which accounts exist; neither changes a table. */
  lemma LoginFailuresLookAlike(users: seq<UserRow>, email: string, password: Val,
                               compare: (Val, Val) -> Option<bool>, sign: nat -> string,
                               clock: nat)
    ensures EmailRow(users, ToLowerCase(email)).None? ==>
              LoginOutcome(users, Str(email), password, compare, sign, clock)
                == Outcome(Fail(401, BadCredentials), users)
    ensures EmailRow(users, ToLowerCase(email)).Some? ==>
              var u := users[EmailRow(users, ToLowerCase(email)).value];
              u.isActive && compare(password, u.password) == Some(false) ==>
                LoginOutcome(users, Str(email), password, compare, sign, clock)
                  == Outcome(Fail(401, BadCredentials), users)
  {
  }

  /** A deactivated account is refused with 403 before the password is looked at: the
      reply is the same whatever bcrypt would say. */
  lemma InactiveRefusedBeforePassword(users: seq<UserRow>, email: string, password: Val,
                                      compare: (Val, Val) -> Option<bool>,
                                      other: (Val, Val) -> Option<bool>,
                                      sign: nat -> string, clock: nat)
    requires EmailRow(users, ToLowerCase(email)).Some?
    requires !users[EmailRow(users, ToLowerCase(email)).value].isActive
    ensures LoginOutcome(users, Str(email), password, compare, sign, clock)
            == LoginOutcome(users, Str(email), password, other, sign, clock)
            == Outcome(Fail(403, AccountDisabled), users)
  {
  }

  /** The e-mail's case does not matter to `login`. */
  lemma LoginIgnoresEmailCase(users: seq<UserRow>, a: string, b: string, password: Val,
                              compare: (Val, Val) -> Option<bool>, sign: nat -> string,
                              clock: nat)
    requires ToLowerCase(a) == ToLowerCase(b)
    ensures LoginOutcome(users, Str(a), password, compare, sign, clock)
            == LoginOutcome(users, Str(b), password, compare, sign, clock)
  {
  }

  /** A successful login stamps last_login on the one account it matched and changes
      nothing else; it answers the stored names and e-mail and the account's token. */
  lemma LoginEffect(users: seq<UserRow>, email: Val, password: Val,
                    compare: (Val, Val) -> Option<bool>, sign: nat -> string, clock: nat)
    ensures var o := LoginOutcome(users, email, password, compare, sign, clock);
            (o.reply.Fail? ==> o.users == users && o.reply.status in {401, 403, 500})
            && (o.reply.Ok? ==>
                  email.Str? && EmailRow(users, ToLowerCase(email.s)).Some?
                  && var k := EmailRow(users, ToLowerCase(email.s)).value;
                     users[k].isActive && compare(password, users[k].password) == Some(true)
                     && |o.users| == |users|
                     && o.users[k] == users[k].(lastLogin := Some(clock))
                     && (forall i :: 0 <= i < |users| && i != k ==> o.users[i] == users[i])
                     && o.reply == Ok(200, LoggedIn(LoginOk, sign(users[k].id),
                                        SessionUser(users[k].id, users[k].firstName,
                                                    users[k].lastName, users[k].email))))
  {
  }

  /** Registering and then logging in with the same password, and the e-mail in any case,
      succeeds for the new account whenever bcrypt accepts the password against the hash
      it produced. */
  lemma RegisterThenLogin(users: seq<UserRow>, next: nat, body: RegisterBody,
                          hash: Val -> Option<string>, compare: (Val, Val) -> Option<bool>,
                          sign: nat -> string, clock: nat, clock2: nat, email: string)
    requires RegisterOutcome(users, next, body, hash, sign, clock).reply.Ok?
    requires body.email.Str? && ToLowerCase(email) == ToLowerCase(body.email.s)
    requires hash(body.password).Some?
    requires compare(body.password, Str(hash(body.password).value)) == Some(true)
    ensures var after := RegisterOutcome(users, next, body, hash, sign, clock).users;
            LoginOutcome(after, Str(email), body.password, compare, sign, clock2).reply
              == Ok(200, LoggedIn(LoginOk, sign(next),
                                  SessionUser(next, after[|users|].firstName,
                                              after[|users|].lastName,
                                              Str(ToLowerCase(body.email.s)))))
  {
    var after := RegisterOutcome(users, next, body, hash, sign, clock).users;
    var e := ToLowerCase(body.email.s);
    assert after[|users|].email == Str(e);
    assert forall k :: 0 <= k < |users| ==> after[k] == users[k];
    assert EmailRow(users, e).None?;
    assert EmailRow(after, e) == Some(|users|);
  }

  /** `login`. */
  method Login(db: Database, email: Val, password: Val, compare: (Val, Val) -> Option<bool>,
               sign: nat -> string, clock: nat) returns (res: Response<AuthReply>)
    requires db.Valid()
    modifies db`users
    ensures db.Valid()
    ensures var o := LoginOutcome(old(db.users), email, password, compare, sign, clock);
            res == o.reply && db.users == o.users
  {
    var e := LowerEmail(email);
    if e.None? {
      return Fail(500, LoginFailed);
    }
    var found := EmailRow(db.users, e.value);
    if found.None? {
      return Fail(401, BadCredentials);
    }
    var k := found.value;
    var user := db.users[k];
    if !user.isActive {
      return Fail(403, AccountDisabled);
    }
    var valid := compare(password, user.password);
    if valid.None? {
      return Fail(500, LoginFailed);
    }
    if !valid.value {
      return Fail(401, BadCredentials);
    }
    var token := sign(user.id);
    var stamped := user.(lastLogin := Some(clock));
    db.users := db.users[k := stamped];
    UserStampKeepsValid(db);
    res := Ok(200, LoggedIn(LoginOk, token,
                            SessionUser(user.id, user.firstName, user.lastName, user.email)));
  }

  // ---------------------------------------------------------------- verifyToken

  /** `verifyToken`: any error of `jwt.verify` is a 401 here. */
  function VerifyToken(users: seq<UserRow>, header: Option<string>,
                       verify: string -> JwtOutcome): Response<AuthReply> {
    match HeaderToken(header)
    case None => Fail(401, TokenMissing)
    case Some(t) =>
      match verify(t)
      case JwtError(_) => Fail(401, TokenRejected)
      case Decoded(id) =>
        match UserOfToken(users, id)
        case None => Fail(404, UserNotFound)
        case Some(u) => Ok(200, Verified(SessionUser(u.id, u.firstName, u.lastName, u.email)))
  }

  /** `verifyToken` accepts every token `authenticate` accepts, and also the token of a
      deactivated account, which `authenticate` refuses with 403; on acceptance both
      name the same account. */
  lemma VerifyTokenSkipsActiveCheck(users: seq<UserRow>, header: Option<string>,
                                    verify: string -> JwtOutcome)
    ensures VerifyToken(users, header, verify).Ok? <==>
              Authentication(users, header, verify).Admitted?
              || Authentication(users, header, verify) == Refused(403, Deactivated)
    ensures Authentication(users, header, verify).Admitted? ==>
              VerifyToken(users, header, verify).payload.user.id
                == Authentication(users, header, verify).user.id
  {
    AuthenticationRefusals(users, header, verify);
    if HeaderToken(header).Some? && verify(HeaderToken(header).value).Decoded?
       && UserOfToken(users, verify(HeaderToken(header).value).id).Some? {
      AuthenticateSeesActive(UserOfToken(users, verify(HeaderToken(header).value).id).value);
    }
  }

  /** A missing token and every token `jwt.verify` rejects get 401, whatever the error. */
  lemma VerifyTokenRejections(users: seq<UserRow>, header: Option<string>,
                              verify: string -> JwtOutcome)
    ensures HeaderToken(header).None? ==> VerifyToken(users, header, verify) == Fail(401, TokenMissing)
    ensures HeaderToken(header).Some? && verify(HeaderToken(header).value).JwtError? ==>
              VerifyToken(users, header, verify) == Fail(401, TokenRejected)
  {
  }

  // ---------------------------------------------------------------- the rest

  /** `logout`: the token is dropped by the client, so the server only confirms. */
  function Logout(): Response<AuthReply> {
    Ok(200, Notice(LoggedOut))
  }

  /** `forgotPassword`: the same reply whether or not an account has the e-mail; no mail
      is sent. */
  function ForgotPassword(users: seq<UserRow>, email: Val): Response<AuthReply> {
    match LowerEmail(email)
    case None => Fail(500, ResetFailed)
    case Some(e) =>
      if EmailRow(users, e).None? then Ok(200, Notice(ResetNotice))
      else Ok(200, Notice(ResetNotice))
  }

  /** `forgotPassword` does not reveal which e-mails are registered: two user tables give
      the same reply. */
  lemma ForgotPasswordRevealsNothing(users: seq<UserRow>, others: seq<UserRow>, email: Val)
    ensures ForgotPassword(users, email) == ForgotPassword(others, email)
    ensures ForgotPassword(users, email).Ok? <==> email.Str?
  {
  }

  /** `resetPassword`: a placeholder that confirms without checking or changing anything. */
  function ResetPassword(): Response<AuthReply> {
    Ok(200, Notice(PasswordReset))
  }

  lemma PlaceholdersConfirm()
    ensures Logout() == Ok(200, Notice(LoggedOut))
    ensures ResetPassword() == Ok(200, Notice(PasswordReset))
  {
  }
}
