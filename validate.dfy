/** src/backend/middlewares/validate.middleware.js: the e-mail pattern and the three
    request-body validators. A validator either passes the request on (`next()`), answers
    400 with its errors joined by ". ", or throws a TypeError (a truthy non-string field
    that it trims), which the application's error handler (src/backend/app.js:103-109)
    answers with status 500 and the error's message. */
module Validate {

  import opened Wrappers
  import opened JsValues
  import opened JsStrings

  // ---------------------------------------------------------------- e-mail pattern

  /** A run of the class `[^\s@]+`. */
  ghost predicate Segment(x: string) {
    |x| >= 1 && forall i :: 0 <= i < |x| ==> !IsSpace(x[i]) && x[i] != '@'
  }

  /** The strings the regular expression `^[^\s@]+@[^\s@]+\.[^\s@]+$` matches. */
  ghost predicate MatchesEmailPattern(s: string) {
    exists a, b, c :: s == a + "@" + b + "." + c && Segment(a) && Segment(b) && Segment(c)
  }

  /** `isValidEmail`: no white space, exactly one '@' with something before it, and after
      it a '.' that is neither the first nor the last character. */
  predicate IsValidEmail(s: string) {
    (forall i :: 0 <= i < |s| ==> !IsSpace(s[i]))
    && exists at :: 0 < at < |s| && s[at] == '@'
                    && (forall i :: 0 <= i < |s| && i != at ==> s[i] != '@')
                    && exists dot :: at + 1 < dot < |s| - 1 && s[dot] == '.'
  }

  /** A match of the pattern satisfies the characterisation. */
  lemma PatternIsValidEmail(a: string, b: string, c: string)
    requires Segment(a) && Segment(b) && Segment(c)
    ensures IsValidEmail(a + "@" + b + "." + c)
  {
    var s := a + "@" + b + "." + c;
    var at := |a|;
    var dot := |a| + 1 + |b|;
    assert s[at] == '@' && s[dot] == '.';
    forall i | 0 <= i < |s| ensures !IsSpace(s[i]) && (i != at ==> s[i] != '@') {
      if i < at { assert s[i] == a[i]; }
      else if at < i < dot { assert s[i] == b[i - at - 1]; }
      else if dot < i { assert s[i] == c[i - dot - 1]; }
    }
  }

  /** A string satisfying the characterisation splits into a match of the pattern. */
  lemma ValidEmailIsPattern(s: string, at: nat, dot: nat)
    requires forall i :: 0 <= i < |s| ==> !IsSpace(s[i])
    requires 0 < at < |s| && s[at] == '@'
    requires forall i :: 0 <= i < |s| && i != at ==> s[i] != '@'
    requires at + 1 < dot < |s| - 1 && s[dot] == '.'
    ensures MatchesEmailPattern(s)
  {
    var a, b, c := s[..at], s[at + 1..dot], s[dot + 1..];
    assert s == a + "@" + b + "." + c;
    assert Segment(a) && Segment(b) && Segment(c);
  }

  /** The characterisation agrees with the regular expression, in both directions. */
  lemma IsValidEmailMatchesPattern(s: string)
    ensures IsValidEmail(s) <==> MatchesEmailPattern(s)
  {
    if MatchesEmailPattern(s) {
      var a, b, c :| s == a + "@" + b + "." + c && Segment(a) && Segment(b) && Segment(c);
      PatternIsValidEmail(a, b, c);
    }
    if IsValidEmail(s) {
      var at :| 0 < at < |s| && s[at] == '@'
                && (forall i :: 0 <= i < |s| && i != at ==> s[i] != '@')
                && exists dot :: at + 1 < dot < |s| - 1 && s[dot] == '.';
      var dot :| at + 1 < dot < |s| - 1 && s[dot] == '.';
      ValidEmailIsPattern(s, at, dot);
    }
  }

  /** `re.test(email)` converts a non-string to its string form first. */
  predicate EmailFails(v: Val) {
    !Truthy(v) || !IsValidEmail(ToJsString(v))
  }

  // ---------------------------------------------------------------- field checks

  /** `!v || v.trim().length < min`, for the values on which `trim` does not throw. */
  predicate ShortTrimmed(v: Val, min: nat) {
    !Truthy(v) || (v.Str? && JsLength(Trim(v.s)) < min)
  }

  const NotAFunction: string := ".trim is not a function"

  /** `v.trim()` on a truthy value that is not a string throws a TypeError. */
  function TrimCrash(v: Val, name: string): (r: Option<string>)
    ensures r.Some? <==> Truthy(v) && !v.Str?
  {
    if Truthy(v) && !v.Str? then Some(name + NotAFunction) else None
  }

  /** `!v || v.length < min`, with no trimming. On a truthy non-string, `.length` is
      undefined and the comparison is false. */
  predicate ShortUntrimmed(v: Val, min: nat) {
    !Truthy(v) || (v.Str? && JsLength(v.s) < min)
  }

  /** The messages the validators push. */
  datatype ValidationError =
    | FirstNameShort | LastNameShort | InvalidEmail | InvalidPhone | PasswordShort
    | PasswordMismatch | AddressShort | NoCity | NoDepartment | PasswordRequired
    | PetNameShort | NoSpecies | NoColor

  function ErrorText(e: ValidationError): string {
    match e
    case FirstNameShort => "El nombre debe tener al menos 2 caracteres"
    case LastNameShort => "El apellido debe tener al menos 2 caracteres"
    case InvalidEmail => "Email inválido"
    case InvalidPhone => "Número de teléfono inválido"
    case PasswordShort => "La contraseña debe tener al menos 8 caracteres"
    case PasswordMismatch => "Las contraseñas no coinciden"
    case AddressShort => "La dirección es muy corta"
    case NoCity => "Debes seleccionar una ciudad"
    case NoDepartment => "Debes seleccionar un departamento"
    case PasswordRequired => "La contraseña es requerida"
    case PetNameShort => "El nombre de la mascota debe tener al menos 2 caracteres"
    case NoSpecies => "Debes seleccionar la especie"
    case NoColor => "El color es requerido"
  }

  function Texts(es: seq<ValidationError>): (ts: seq<string>)
    ensures |ts| == |es|
    ensures forall i :: 0 <= i < |es| ==> ts[i] == ErrorText(es[i])
  {
    seq(|es|, i requires 0 <= i < |es| => ErrorText(es[i]))
  }

  /** The message of one check when the check fails. */
  function Push(fails: bool, e: ValidationError): seq<ValidationError> {
    if fails then [e] else []
  }

  /** One `if (fails) errors.push(message)`. */
  method PushWhen(errors: seq<ValidationError>, fails: bool, e: ValidationError)
    returns (r: seq<ValidationError>)
    ensures r == errors + Push(fails, e)
  {
    r := errors;
    if fails {
      r := r + [e];
    }
  }

  /** A message is collected by a further check when it was collected before or is that
      check's message and the check fails. */
  lemma PushMembers(es: seq<ValidationError>, fails: bool, e: ValidationError, x: ValidationError)
    ensures x in es + Push(fails, e) <==> x in es || (fails && x == e)
  {
  }

  /** The position of each message in the declaration above, which is the order in which
      the validators run their checks. */
  function Rank(e: ValidationError): nat {
    match e
    case FirstNameShort => 0 case LastNameShort => 1 case InvalidEmail => 2
    case InvalidPhone => 3 case PasswordShort => 4 case PasswordMismatch => 5
    case AddressShort => 6 case NoCity => 7 case NoDepartment => 8
    case PasswordRequired => 9 case PetNameShort => 10 case NoSpecies => 11 case NoColor => 12
  }

  /** The messages appear in check order, each at most once. */
  predicate InCheckOrder(es: seq<ValidationError>) {
    forall i, j :: 0 <= i < j < |es| ==> Rank(es[i]) < Rank(es[j])
  }

  /** Every message comes from a check that runs before the one of rank `n`. */
  predicate RanksBelow(es: seq<ValidationError>, n: nat) {
    forall k :: 0 <= k < |es| ==> Rank(es[k]) < n
  }

  /** A check run after every check whose message is already collected keeps the order. */
  lemma PushKeepsOrder(es: seq<ValidationError>, fails: bool, e: ValidationError)
    requires InCheckOrder(es) && RanksBelow(es, Rank(e))
    ensures InCheckOrder(es + Push(fails, e)) && RanksBelow(es + Push(fails, e), Rank(e) + 1)
  {
    var r := es + Push(fails, e);
    assert forall k :: 0 <= k < |es| ==> r[k] == es[k];
  }

  /** The middleware's decision. */
  datatype Verdict = Next | Halt(status: nat, error: string)

  /** A TypeError wins; otherwise the collected errors, if any, are joined into a 400. */
  function Decide(crash: Option<string>, errors: seq<ValidationError>): (v: Verdict)
    ensures crash.Some? ==> v == Halt(500, crash.value)
    ensures crash.None? && errors != [] ==> v == Halt(400, Join(Texts(errors), ". "))
    ensures v.Next? <==> crash.None? && errors == []
  {
    if crash.Some? then Halt(500, crash.value)
    else if |errors| > 0 then Halt(400, Join(Texts(errors), ". "))
    else Next
  }

  // ---------------------------------------------------------------- validateRegister

  datatype RegisterForm = RegisterForm(firstName: Val, lastName: Val, email: Val, phone: Val,
                                       password: Val, confirmPassword: Val, address: Val,
                                       city: Val, department: Val)

  /** The messages of the nine checks of `validateRegister`, run in order, for the given
      outcomes of the checks. */
  function RegisterList(b1: bool, b2: bool, b3: bool, b4: bool, b5: bool, b6: bool,
                        b7: bool, b8: bool, b9: bool): seq<ValidationError> {
    Push(b1, FirstNameShort) + Push(b2, LastNameShort) + Push(b3, InvalidEmail)
    + Push(b4, InvalidPhone) + Push(b5, PasswordShort) + Push(b6, PasswordMismatch)
    + Push(b7, AddressShort) + Push(b8, NoCity) + Push(b9, NoDepartment)
  }

  /** The collected messages come in check order, each at most once. */
  lemma RegisterListInOrder(b1: bool, b2: bool, b3: bool, b4: bool, b5: bool, b6: bool,
                            b7: bool, b8: bool, b9: bool)
    ensures InCheckOrder(RegisterList(b1, b2, b3, b4, b5, b6, b7, b8, b9))
  {
    var e1 := Push(b1, FirstNameShort);
    assert InCheckOrder(e1) && RanksBelow(e1, 1);
    var e2 := e1 + Push(b2, LastNameShort);
    assert InCheckOrder(e2) && RanksBelow(e2, 2) by { PushKeepsOrder(e1, b2, LastNameShort); }
    var e3 := e2 + Push(b3, InvalidEmail);
    assert InCheckOrder(e3) && RanksBelow(e3, 3) by { PushKeepsOrder(e2, b3, InvalidEmail); }
    var e4 := e3 + Push(b4, InvalidPhone);
    assert InCheckOrder(e4) && RanksBelow(e4, 4) by { PushKeepsOrder(e3, b4, InvalidPhone); }
    var e5 := e4 + Push(b5, PasswordShort);
    assert InCheckOrder(e5) && RanksBelow(e5, 5) by { PushKeepsOrder(e4, b5, PasswordShort); }
    var e6 := e5 + Push(b6, PasswordMismatch);
    assert InCheckOrder(e6) && RanksBelow(e6, 6) by { PushKeepsOrder(e5, b6, PasswordMismatch); }
    var e7 := e6 + Push(b7, AddressShort);
    assert InCheckOrder(e7) && RanksBelow(e7, 7) by { PushKeepsOrder(e6, b7, AddressShort); }
    var e8 := e7 + Push(b8, NoCity);
    assert InCheckOrder(e8) && RanksBelow(e8, 8) by { PushKeepsOrder(e7, b8, NoCity); }
    PushKeepsOrder(e8, b9, NoDepartment);
  }

  /** The collected messages are exactly those of the failing checks. */
  lemma RegisterListMembers(b1: bool, b2: bool, b3: bool, b4: bool, b5: bool, b6: bool,
                            b7: bool, b8: bool, b9: bool, x: ValidationError)
    ensures x in RegisterList(b1, b2, b3, b4, b5, b6, b7, b8, b9) <==>
              (x == FirstNameShort && b1) || (x == LastNameShort && b2)
              || (x == InvalidEmail && b3) || (x == InvalidPhone && b4)
              || (x == PasswordShort && b5) || (x == PasswordMismatch && b6)
              || (x == AddressShort && b7) || (x == NoCity && b8) || (x == NoDepartment && b9)
  {
    var e1 := Push(b1, FirstNameShort);
    var e2 := e1 + Push(b2, LastNameShort);
    var e3 := e2 + Push(b3, InvalidEmail);
    var e4 := e3 + Push(b4, InvalidPhone);
    var e5 := e4 + Push(b5, PasswordShort);
    var e6 := e5 + Push(b6, PasswordMismatch);
    var e7 := e6 + Push(b7, AddressShort);
    var e8 := e7 + Push(b8, NoCity);
    PushMembers([], b1, FirstNameShort, x);
    assert [] + e1 == e1;
    PushMembers(e1, b2, LastNameShort, x);
    PushMembers(e2, b3, InvalidEmail, x);
    PushMembers(e3, b4, InvalidPhone, x);
    PushMembers(e4, b5, PasswordShort, x);
    PushMembers(e5, b6, PasswordMismatch, x);
    PushMembers(e6, b7, AddressShort, x);
    PushMembers(e7, b8, NoCity, x);
    PushMembers(e8, b9, NoDepartment, x);
  }

  /** The `errors` array of `validateRegister` once its nine checks have run. */
  function RegisterErrors(f: RegisterForm): seq<ValidationError> {
    RegisterList(ShortTrimmed(f.firstName, 2), ShortTrimmed(f.lastName, 2),
                 EmailFails(f.email), ShortUntrimmed(f.phone, 8), ShortUntrimmed(f.password, 8),
                 !StrictEquals(f.password, f.confirmPassword), ShortTrimmed(f.address, 5),
                 !Truthy(f.city), !Truthy(f.department))
  }

  /** The TypeError the first trimmed field that is truthy but not a string throws, in the
      order the checks run. */
  function RegisterCrash(f: RegisterForm): (r: Option<string>)
    ensures r.None? <==> TrimCrash(f.firstName, "firstName").None?
                         && TrimCrash(f.lastName, "lastName").None?
                         && TrimCrash(f.address, "address").None?
  {
    if TrimCrash(f.firstName, "firstName").Some? then TrimCrash(f.firstName, "firstName")
    else if TrimCrash(f.lastName, "lastName").Some? then TrimCrash(f.lastName, "lastName")
    else TrimCrash(f.address, "address")
  }

  /** `validateRegister`. */
  method ValidateRegister(f: RegisterForm) returns (v: Verdict)
    ensures v == Decide(RegisterCrash(f), RegisterErrors(f))
  {
    var errors: seq<ValidationError> := [];
    if TrimCrash(f.firstName, "firstName").Some? {
      return Halt(500, TrimCrash(f.firstName, "firstName").value);
    }
    errors := PushWhen(errors, ShortTrimmed(f.firstName, 2), FirstNameShort);
    assert errors == Push(ShortTrimmed(f.firstName, 2), FirstNameShort);
    if TrimCrash(f.lastName, "lastName").Some? {
      return Halt(500, TrimCrash(f.lastName, "lastName").value);
    }
    errors := PushWhen(errors, ShortTrimmed(f.lastName, 2), LastNameShort);
    errors := PushWhen(errors, EmailFails(f.email), InvalidEmail);
    errors := PushWhen(errors, ShortUntrimmed(f.phone, 8), InvalidPhone);
    errors := PushWhen(errors, ShortUntrimmed(f.password, 8), PasswordShort);
    errors := PushWhen(errors, !StrictEquals(f.password, f.confirmPassword), PasswordMismatch);
    if TrimCrash(f.address, "address").Some? {
      return Halt(500, TrimCrash(f.address, "address").value);
    }
    errors := PushWhen(errors, ShortTrimmed(f.address, 5), AddressShort);
    errors := PushWhen(errors, !Truthy(f.city), NoCity);
    errors := PushWhen(errors, !Truthy(f.department), NoDepartment);
    if |errors| > 0 {
      return Halt(400, Join(Texts(errors), ". "));
    }
    v := Next;
  }

  /** The register errors are exactly the messages of the failing checks ... */
  lemma RegisterErrorsExactly(f: RegisterForm, x: ValidationError)
    ensures x in RegisterErrors(f) <==>
              (x == FirstNameShort && ShortTrimmed(f.firstName, 2))
              || (x == LastNameShort && ShortTrimmed(f.lastName, 2))
              || (x == InvalidEmail && EmailFails(f.email))
              || (x == InvalidPhone && ShortUntrimmed(f.phone, 8))
              || (x == PasswordShort && ShortUntrimmed(f.password, 8))
              || (x == PasswordMismatch && !StrictEquals(f.password, f.confirmPassword))
              || (x == AddressShort && ShortTrimmed(f.address, 5))
              || (x == NoCity && !Truthy(f.city)) || (x == NoDepartment && !Truthy(f.department))
  {
    RegisterListMembers(ShortTrimmed(f.firstName, 2), ShortTrimmed(f.lastName, 2),
                        EmailFails(f.email), ShortUntrimmed(f.phone, 8),
                        ShortUntrimmed(f.password, 8), !StrictEquals(f.password, f.confirmPassword),
                        ShortTrimmed(f.address, 5), !Truthy(f.city), !Truthy(f.department), x);
  }

  /** ... and they come in check order, each at most once. */
  lemma RegisterErrorsInOrder(f: RegisterForm)
    ensures InCheckOrder(RegisterErrors(f))
  {
    RegisterListInOrder(ShortTrimmed(f.firstName, 2), ShortTrimmed(f.lastName, 2),
                        EmailFails(f.email), ShortUntrimmed(f.phone, 8),
                        ShortUntrimmed(f.password, 8), !StrictEquals(f.password, f.confirmPassword),
                        ShortTrimmed(f.address, 5), !Truthy(f.city), !Truthy(f.department));
  }

  /** `validateRegister` passes a request on exactly when no field throws and: both names
      have at least 2 characters after trimming, the e-mail is valid, the phone and the
      password have at least 8 characters without trimming, the confirmation is strictly
      equal to the password, the address has at least 5 characters after trimming, and a
      city and a department are given. */
  lemma RegisterPasses(f: RegisterForm)
    ensures Decide(RegisterCrash(f), RegisterErrors(f)).Next? <==>
              RegisterCrash(f).None?
              && !ShortTrimmed(f.firstName, 2) && !ShortTrimmed(f.lastName, 2)
              && Truthy(f.email) && IsValidEmail(ToJsString(f.email))
              && !ShortUntrimmed(f.phone, 8) && !ShortUntrimmed(f.password, 8)
              && StrictEquals(f.password, f.confirmPassword)
              && !ShortTrimmed(f.address, 5) && Truthy(f.city) && Truthy(f.department)
  {
    RegisterErrorsExactly(f, FirstNameShort);
    RegisterErrorsExactly(f, LastNameShort);
    RegisterErrorsExactly(f, InvalidEmail);
    RegisterErrorsExactly(f, InvalidPhone);
    RegisterErrorsExactly(f, PasswordShort);
    RegisterErrorsExactly(f, PasswordMismatch);
    RegisterErrorsExactly(f, AddressShort);
    RegisterErrorsExactly(f, NoCity);
    RegisterErrorsExactly(f, NoDepartment);
  }

  /** A password and a confirmation that are both absent do not count as a mismatch. */
  lemma AbsentPasswordsMatch(f: RegisterForm)
    requires f.password.Undefined? && f.confirmPassword.Undefined?
    ensures PasswordMismatch !in RegisterErrors(f)
    ensures PasswordShort in RegisterErrors(f)
  {
    RegisterErrorsExactly(f, PasswordMismatch);
    RegisterErrorsExactly(f, PasswordShort);
  }

  /** Names are trimmed and the phone is not: eight spaces are a phone, while a name of
      one letter padded with spaces is too short. */
  lemma PhoneIsNotTrimmed()
    ensures !ShortUntrimmed(Str("        "), 8)
    ensures ShortTrimmed(Str("  a  "), 2)
  {
    assert "  a  "[1..] == " a  " && " a  "[1..] == "a  ";
    assert TrimStart("  a  ") == "a  ";
    assert "a  "[..2] == "a " && "a "[..1] == "a";
    assert TrimEnd("a  ") == "a";
    assert JsLength("        ") == 8;
  }

  /** A truthy name that is not a string makes the middleware throw before it answers. */
  lemma NumericNameThrows(f: RegisterForm)
    requires f.firstName == Num("42")
    ensures Decide(RegisterCrash(f), RegisterErrors(f)) == Halt(500, "firstName" + NotAFunction)
  {
  }

  // ---------------------------------------------------------------- validateLogin

  /** The `errors` array of `validateLogin` once its two checks have run. */
  function LoginErrors(email: Val, password: Val): seq<ValidationError> {
    Push(EmailFails(email), InvalidEmail) + Push(!Truthy(password), PasswordRequired)
  }

  /** `validateLogin`. */
  method ValidateLogin(email: Val, password: Val) returns (v: Verdict)
    ensures v == Decide(None, LoginErrors(email, password))
  {
    var errors: seq<ValidationError> := [];
    errors := PushWhen(errors, EmailFails(email), InvalidEmail);
    assert errors == Push(EmailFails(email), InvalidEmail);
    errors := PushWhen(errors, !Truthy(password), PasswordRequired);
    if |errors| > 0 {
      return Halt(400, Join(Texts(errors), ". "));
    }
    v := Next;
  }

  /** The login errors are exactly the messages of the failing checks, in check order. */
  lemma LoginErrorsExactly(email: Val, password: Val, x: ValidationError)
    ensures x in LoginErrors(email, password) <==>
              (x == InvalidEmail && EmailFails(email)) || (x == PasswordRequired && !Truthy(password))
    ensures InCheckOrder(LoginErrors(email, password))
  {
  }

  /** `validateLogin` rejects exactly when the e-mail is invalid or the password absent,
      and never throws. */
  lemma LoginRejects(email: Val, password: Val)
    ensures Decide(None, LoginErrors(email, password)).Next? <==>
              Truthy(email) && IsValidEmail(ToJsString(email)) && Truthy(password)
    ensures Decide(None, LoginErrors(email, password)).Halt? ==>
              Decide(None, LoginErrors(email, password)).status == 400
  {
  }

  // ---------------------------------------------------------------- validatePet

  /** The `errors` array of `validatePet` once its three checks have run. */
  function PetErrors(name: Val, species: Val, color: Val): seq<ValidationError> {
    Push(ShortTrimmed(name, 2), PetNameShort) + Push(!Truthy(species), NoSpecies)
    + Push(ShortTrimmed(color, 2), NoColor)
  }

  function PetCrash(name: Val, color: Val): (r: Option<string>)
    ensures r.None? <==> TrimCrash(name, "name").None? && TrimCrash(color, "color").None?
  {
    if TrimCrash(name, "name").Some? then TrimCrash(name, "name") else TrimCrash(color, "color")
  }

  /** `validatePet`. */
  method ValidatePet(name: Val, species: Val, color: Val) returns (v: Verdict)
    ensures v == Decide(PetCrash(name, color), PetErrors(name, species, color))
  {
    var errors: seq<ValidationError> := [];
    if TrimCrash(name, "name").Some? {
      return Halt(500, TrimCrash(name, "name").value);
    }
    errors := PushWhen(errors, ShortTrimmed(name, 2), PetNameShort);
    assert errors == Push(ShortTrimmed(name, 2), PetNameShort);
    errors := PushWhen(errors, !Truthy(species), NoSpecies);
    if TrimCrash(color, "color").Some? {
      return Halt(500, TrimCrash(color, "color").value);
    }
    errors := PushWhen(errors, ShortTrimmed(color, 2), NoColor);
    if |errors| > 0 {
      return Halt(400, Join(Texts(errors), ". "));
    }
    v := Next;
  }

  /** The pet errors are exactly the messages of the failing checks, in check order. */
  lemma PetErrorsExactly(name: Val, species: Val, color: Val, x: ValidationError)
    ensures x in PetErrors(name, species, color) <==>
              (x == PetNameShort && ShortTrimmed(name, 2)) || (x == NoSpecies && !Truthy(species))
              || (x == NoColor && ShortTrimmed(color, 2))
    ensures InCheckOrder(PetErrors(name, species, color))
  {
  }

  /** `validatePet` passes a request on exactly when the name and the colour are strings
      of at least 2 characters after trimming and a species is given. */
  lemma PetPasses(name: Val, species: Val, color: Val)
    ensures Decide(PetCrash(name, color), PetErrors(name, species, color)).Next? <==>
              name.Str? && JsLength(Trim(name.s)) >= 2 && Truthy(species)
              && color.Str? && JsLength(Trim(color.s)) >= 2
  {
  }
}
