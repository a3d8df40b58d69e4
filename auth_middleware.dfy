/** The middlewares of src/backend/middlewares/auth.middleware.js. `jwt.verify` is a
    parameter: for each token it either yields the decoded `id` (as a user id, or none
    when the payload has no usable id) or throws an error with a name. The secret and the
    expiry policy live inside it. */
module AuthMiddleware {

  import opened Wrappers
  import opened JsValues
  import opened JsStrings
  import opened Schema
  import opened PetController
  import Radix

  datatype JwtOutcome = Decoded(id: Option<nat>) | JwtError(name: string)

  /** `req.user` as `authenticate` sets it. */
  datatype AuthUser = AuthUser(id: nat, email: Val, firstName: Val, lastName: Val, role: Val)

  /** What a middleware does with the request: call `next()`, or answer with an error. */
  datatype Gate = Proceed | Refuse(status: nat, error: string)

  /** The request object, whose `user` field the middlewares may set. */
  class Request {
    var user: Option<AuthUser>

    constructor ()
      ensures user == None
    {
      user := None;
    }
  }

  const NoToken: string := "Token de autenticación no proporcionado"
  const UserNotFound: string := "Usuario no encontrado"
  const Deactivated: string := "Cuenta desactivada"
  const InvalidToken: string := "Token inválido"
  const ExpiredToken: string := "Token expirado"
  const AuthError: string := "Error en autenticación"
  const AdminOnly: string := "Acceso denegado. Se requieren permisos de administrador."
  const VetOnly: string := "Acceso denegado. Se requieren permisos de veterinario."

  // ---------------------------------------------------------------- the token

  /** `req.headers.authorization?.split(' ')[1]`, when it is a non-empty string. */
  function HeaderToken(header: Option<string>): (t: Option<string>)
    ensures t.Some? ==> t.value != "" && header.Some? && ' ' !in t.value
  {
    if header.None? then None
    else
      var parts := Split(header.value, ' ');
      if |parts| >= 2 && parts[1] != "" then Some(parts[1]) else None
  }

  /** Whatever word stands before the space, `Bearer` or not, the token is the word after
      it: the scheme is never checked. */
  lemma AnySchemeGivesToken(scheme: string, token: string)
    requires ' ' !in scheme && ' ' !in token && token != ""
    ensures HeaderToken(Some(scheme + " " + token)) == Some(token)
  {
    assert scheme + " " + token == scheme + [' '] + token;
    SplitAtFirst(scheme, token, ' ');
    SplitWithout(token, ' ');
  }

  /** A header that is a bare token, with no space, yields no token. */
  lemma BareTokenIsMissing(header: string)
    requires ' ' !in header
    ensures HeaderToken(Some(header)) == None
  {
    SplitWithout(header, ' ');
  }

  // ---------------------------------------------------------------- the selected row

  /** A column of a users row as the driver returns it; the flags come back as 1 or 0. */
  function Column(u: UserRow, name: string): Val {
    if name == "id" then Num(Radix.ToRadix(u.id, 10))
    else if name == "email" then u.email
    else if name == "first_name" then u.firstName
    else if name == "last_name" then u.lastName
    else if name == "role" then u.role
    else if name == "is_active" then Num(if u.isActive then "1" else "0")
    else Undefined
  }

  /** A property of the row `getOne` returns for a SELECT of `columns`: a column that was
      not selected reads as undefined. */
  function Selected(u: UserRow, columns: seq<string>, name: string): (v: Val)
    ensures name !in columns ==> v.Undefined?
  {
    if name in columns then Column(u, name) else Undefined
  }

  const AuthenticateColumns: seq<string> :=
    ["id", "email", "first_name", "last_name", "role", "is_active"]
  const OptionalAuthColumns: seq<string> := ["id", "email", "first_name", "last_name", "role"]

  /** `user.is_active` on the row `authenticate` selects is the stored flag. */
  lemma AuthenticateSeesActive(u: UserRow)
    ensures Truthy(Selected(u, AuthenticateColumns, "is_active")) <==> u.isActive
  {
    assert AuthenticateColumns[5] == "is_active";
  }

  function AuthUserOf(u: UserRow): AuthUser {
    AuthUser(u.id, u.email, u.firstName, u.lastName, u.role)
  }

  /** `SELECT ... FROM users WHERE id = ?` with the decoded id. */
  function UserOfToken(users: seq<UserRow>, id: Option<nat>): (r: Option<UserRow>)
    ensures r.Some? ==> id.Some? && r.value in users && r.value.id == id.value
    ensures r.None? <==> id.None? || forall k :: 0 <= k < |users| ==> users[k].id != id.value
  {
    if id.None? then None
    else match UserById(users, id.value)
      case None => None
      case Some(k) => Some(users[k])
  }

  // ---------------------------------------------------------------- authenticate

  /** The decision `authenticate` reaches: the user it attaches, or its error reply. */
  datatype Authn = Admitted(user: AuthUser) | Refused(status: nat, error: string)

  function Authentication(users: seq<UserRow>, header: Option<string>,
                          verify: string -> JwtOutcome): Authn {
    match HeaderToken(header)
    case None => Refused(401, NoToken)
    case Some(t) =>
      match verify(t)
      case JwtError(name) =>
        if name == "JsonWebTokenError" then Refused(401, InvalidToken)
        else if name == "TokenExpiredError" then Refused(401, ExpiredToken)
        else Refused(500, AuthError)
      case Decoded(id) =>
        match UserOfToken(users, id)
        case None => Refused(404, UserNotFound)
        case Some(u) =>
          if !Truthy(Selected(u, AuthenticateColumns, "is_active")) then Refused(403, Deactivated)
          else Admitted(AuthUserOf(u))
  }

  /** `authenticate` lets a request through exactly when the header carries a token that
      verifies to the id of an active user, and then attaches that user. */
  lemma AuthenticationAdmits(users: seq<UserRow>, header: Option<string>,
                             verify: string -> JwtOutcome, user: AuthUser)
    ensures Authentication(users, header, verify) == Admitted(user) <==>
              HeaderToken(header).Some? && verify(HeaderToken(header).value).Decoded?
              && exists u :: u in users && u.isActive && Some(u.id) == verify(HeaderToken(header).value).id
                             && u == UserOfToken(users, Some(u.id)).value && user == AuthUserOf(u)
  {
    if HeaderToken(header).Some? && verify(HeaderToken(header).value).Decoded? {
      var id := verify(HeaderToken(header).value).id;
      var found := UserOfToken(users, id);
      if found.Some? {
        AuthenticateSeesActive(found.value);
      }
    }
  }

  /** How the failures map to replies: no token 401, an unknown user 404, an inactive one
      403, a malformed or badly signed token 401, an expired one 401, and any other error
      of `jwt.verify` (such as NotBeforeError) 500. */
  lemma AuthenticationRefusals(users: seq<UserRow>, header: Option<string>,
                               verify: string -> JwtOutcome)
    ensures HeaderToken(header).None? ==> Authentication(users, header, verify) == Refused(401, NoToken)
    ensures HeaderToken(header).Some? ==>
              var t := HeaderToken(header).value;
              (verify(t) == JwtError("JsonWebTokenError") ==>
                 Authentication(users, header, verify) == Refused(401, InvalidToken))
              && (verify(t) == JwtError("TokenExpiredError") ==>
                    Authentication(users, header, verify) == Refused(401, ExpiredToken))
              && (verify(t) == JwtError("NotBeforeError") ==>
                    Authentication(users, header, verify) == Refused(500, AuthError))
              && (verify(t).Decoded? && UserOfToken(users, verify(t).id).None? ==>
                    Authentication(users, header, verify) == Refused(404, UserNotFound))
              && (verify(t).Decoded? && UserOfToken(users, verify(t).id).Some?
                  && !UserOfToken(users, verify(t).id).value.isActive ==>
                    Authentication(users, header, verify) == Refused(403, Deactivated))
  {
    if HeaderToken(header).Some? {
      var t := HeaderToken(header).value;
      if verify(t).Decoded? && UserOfToken(users, verify(t).id).Some? {
        AuthenticateSeesActive(UserOfToken(users, verify(t).id).value);
      }
    }
  }

  /** `authenticate`: sets `req.user` and calls `next()`, or answers the refusal and
      leaves the request alone. */
  method Authenticate(users: seq<UserRow>, req: Request, header: Option<string>,
                      verify: string -> JwtOutcome) returns (g: Gate)
    modifies req`user
    ensures match Authentication(users, header, verify)
            case Admitted(u) => g == Proceed && req.user == Some(u)
            case Refused(s, e) => g == Refuse(s, e) && req.user == old(req.user)
  {
    var token := HeaderToken(header);
    if token.None? {
      return Refuse(401, NoToken);
    }
    var decoded := verify(token.value);
    if decoded.JwtError? {
      if decoded.name == "JsonWebTokenError" {
        return Refuse(401, InvalidToken);
      }
      if decoded.name == "TokenExpiredError" {
        return Refuse(401, ExpiredToken);
      }
      return Refuse(500, AuthError);
    }
    var user := UserOfToken(users, decoded.id);
    if user.None? {
      return Refuse(404, UserNotFound);
    }
    if !Truthy(Selected(user.value, AuthenticateColumns, "is_active")) {
      return Refuse(403, Deactivated);
    }
    req.user := Some(AuthUserOf(user.value));
    g := Proceed;
  }

  // ---------------------------------------------------------------- roles

  predicate HasRole(user: Option<AuthUser>, role: string) {
    user.Some? && StrictEquals(user.value.role, Str(role))
  }

  /** `isAdmin`. */
  function IsAdmin(user: Option<AuthUser>): (g: Gate)
    ensures g.Proceed? <==> HasRole(user, "admin")
    ensures g.Refuse? ==> g == Refuse(403, AdminOnly)
  {
    if HasRole(user, "admin") then Proceed else Refuse(403, AdminOnly)
  }

  /** `isVet`: veterinarians and administrators. */
  function IsVet(user: Option<AuthUser>): (g: Gate)
    ensures g.Proceed? <==> HasRole(user, "vet") || HasRole(user, "admin")
    ensures g.Refuse? ==> g == Refuse(403, VetOnly)
  {
    if HasRole(user, "vet") || HasRole(user, "admin") then Proceed else Refuse(403, VetOnly)
  }

  /** Every request `isAdmin` lets through, `isVet` lets through too; a veterinarian passes
      `isVet` but not `isAdmin`, and an ordinary user or a request without a user passes
      neither. */
  lemma RolesNest(user: Option<AuthUser>)
    ensures IsAdmin(user).Proceed? ==> IsVet(user).Proceed?
    ensures HasRole(user, "vet") ==> IsVet(user).Proceed? && IsAdmin(user).Refuse?
    ensures user.None? || HasRole(user, "user") ==> IsVet(user).Refuse? && IsAdmin(user).Refuse?
  {
  }

  // ---------------------------------------------------------------- optionalAuth

  /** The user `optionalAuth` would attach when its SELECT returns `columns`: any failure,
      thrown or not, leaves the request without a user. */
  function OptionalUser(users: seq<UserRow>, header: Option<string>,
                        verify: string -> JwtOutcome, columns: seq<string>): Option<AuthUser> {
    match HeaderToken(header)
    case None => None
    case Some(t) =>
      match verify(t)
      case JwtError(_) => None
      case Decoded(id) =>
        match UserOfToken(users, id)
        case None => None
        case Some(u) =>
          if Truthy(Selected(u, columns, "is_active")) then Some(AuthUserOf(u)) else None
  }

  /** As written, the SELECT of `optionalAuth` leaves out `is_active`, so the check on it
      always fails and no user is ever attached, even for a valid token of an active
      user. */
  lemma OptionalAuthNeverSetsUser(users: seq<UserRow>, header: Option<string>,
                                  verify: string -> JwtOutcome)
    ensures OptionalUser(users, header, verify, OptionalAuthColumns) == None
  {
    assert "is_active" !in OptionalAuthColumns by {
      assert "is_active"[1] == 's' && "is_active"[2] == '_';
    }
  }

  /** With `is_active` selected, as the check evidently intends, `optionalAuth` attaches
      exactly the user `authenticate` would admit. */
  lemma OptionalAuthIntended(users: seq<UserRow>, header: Option<string>,
                             verify: string -> JwtOutcome, user: AuthUser)
    ensures OptionalUser(users, header, verify, AuthenticateColumns) == Some(user)
            <==> Authentication(users, header, verify) == Admitted(user)
  {
  }

  /** `optionalAuth` as written: always calls `next()`, and never sets `req.user`. */
  method OptionalAuth(users: seq<UserRow>, req: Request, header: Option<string>,
                      verify: string -> JwtOutcome) returns (g: Gate)
    modifies req`user
    ensures g == Proceed
    ensures req.user == old(req.user)
  {
    var token := HeaderToken(header);
    if token.Some? {
      var decoded := verify(token.value);
      if decoded.Decoded? {
        var user := UserOfToken(users, decoded.id);
        if user.Some? && Truthy(Selected(user.value, OptionalAuthColumns, "is_active")) {
          req.user := Some(AuthUserOf(user.value));
        }
      }
    }
    OptionalAuthNeverSetsUser(users, header, verify);
    g := Proceed;
  }
}
