/** The SQLite database of src/backend/config/database.js: one row type per table, the
    NOT NULL, CHECK, UNIQUE and FOREIGN KEY constraints as predicates over the tables, the
    order in which SQLite tests them on a write, and the database itself as an object whose
    tables the handlers update. Foreign keys are enforced (`PRAGMA foreign_keys = ON`). */
module Schema {

  import opened Wrappers
  import opened JsValues
  import Radix
  import opened PetIdentity

  // ---------------------------------------------------------------- stored values

  /** The values a column can hold: NULL, a number or a text. */
  predicate IsSqlValue(v: Val) {
    v.Null? || v.Num? || v.Str?
  }

  /** How node-sqlite3 binds a statement parameter: undefined binds NULL and a boolean
      binds 1 or 0; NULL, numbers and strings bind as themselves. */
  function Bind(v: Val): (r: Val)
    ensures IsSqlValue(r)
    ensures IsSqlValue(v) ==> r == v
    ensures v.Undefined? ==> r.Null?
    ensures Truthy(r) <==> Truthy(v)
  {
    match v
    case Undefined => Null
    case Bool(b) => Num(if b then "1" else "0")
    case _ => v
  }

  /** A parameter written to a TEXT column. Under TEXT affinity a number is stored as its
      text; a string or NULL is stored as it is. */
  function TextColumn(v: Val): (r: Val)
    ensures r.Null? || r.Str?
    ensures v.Str? || v.Null? ==> r == v
    ensures r.Null? <==> (v.Null? || v.Undefined?)
  {
    match Bind(v)
    case Num(t) => Str(t)
    case b => b
  }

  /** The largest integer a JavaScript Number holds exactly, 2^53 - 1. */
  const MaxSafeInteger: int := 0x1F_FFFF_FFFF_FFFF

  /** The integer a text denotes when it is a decimal integer literal: an optional sign,
      then decimal digits, at most `MaxSafeInteger` in magnitude. */
  function IntegerLiteral(s: string): Option<int> {
    var signed := |s| > 0 && (s[0] == '-' || s[0] == '+');
    var digits := if signed then s[1..] else s;
    match Radix.ParseRadix(digits, 10)
    case None => None
    case Some(n) =>
      if n > MaxSafeInteger then None else Some(if signed && s[0] == '-' then -(n as int) else n as int)
  }

  /** How a Number holding an integer prints: a minus sign when it is negative, then
      the decimal digits without leading zeros. */
  function IntegerText(i: int): string {
    if i < 0 then "-" + Radix.ToRadix(-i, 10) else Radix.ToRadix(i, 10)
  }

  /** Reading back the printed integer gives the integer again. */
  lemma IntegerTextRoundTrip(i: int)
    requires -MaxSafeInteger <= i <= MaxSafeInteger
    ensures IntegerLiteral(IntegerText(i)) == Some(i)
  {
    var n := if i < 0 then -i else i;
    Radix.ParseToRadix(n, 10);
    var t := IntegerText(i);
    if i < 0 {
      assert t[1..] == Radix.ToRadix(n, 10);
    } else {
      assert Radix.IsBase36Char(t[0]);
    }
  }

  /** A parameter written to an INTEGER, REAL or NUMERIC (DATE) column. Under numeric
      affinity a text that is a decimal integer literal is stored as that number, which
      node-sqlite3 reads back as a Number; any other value is stored as it binds. */
  function NumericColumn(v: Val): (r: Val)
    ensures IsSqlValue(r)
    ensures r.Null? <==> (v.Null? || v.Undefined?)
    ensures !v.Str? ==> r == Bind(v)
    ensures v.Str? && IntegerLiteral(v.s).None? ==> r == v
    ensures v.Str? && IntegerLiteral(v.s).Some? ==>
              r.Num? && IntegerLiteral(r.text) == IntegerLiteral(v.s)
  {
    match v
    case Str(t) =>
      (match IntegerLiteral(t)
       case Some(i) => IntegerTextRoundTrip(i); Num(IntegerText(i))
       case None => v)
    case _ => Bind(v)
  }

  /** The integer a value denotes when compared with an INTEGER key: a number or a text
      holding the canonical decimal rendering of a non-negative integer. */
  function IntegerValue(v: Val): (r: Option<nat>)
    ensures r.Some? ==> v.Num? || v.Str?
  {
    match v
    case Num(t) => Radix.DecimalId(t)
    case Str(t) => Radix.DecimalId(t)
    case _ => None
  }

  /** A CHECK(column IN (...)) constraint. A NULL satisfies it, as in SQL a CHECK whose
      expression is NULL does not fail. */
  predicate InCheck(v: Val, allowed: seq<string>) {
    v.Null? || (v.Str? && v.s in allowed)
  }

  const Roles: seq<string> := ["user", "admin", "vet"]
  const SpeciesNames: seq<string> := ["Perro", "Gato", "Conejo", "Ave", "Otro"]
  const Sexes: seq<string> := ["Macho", "Hembra"]
  const LocationStatuses: seq<string> := ["reported", "verified", "reunited"]

  // ---------------------------------------------------------------- rows

  /** A `users` row. The timestamps are CURRENT_TIMESTAMP readings in seconds. */
  datatype UserRow = UserRow(
    id: nat, email: Val, password: Val, firstName: Val, lastName: Val, phone: Val,
    whatsapp: Val, address: Val, city: Val, department: Val, country: Val, role: Val,
    emailVerified: bool, isActive: bool, lastLogin: Option<nat>, createdAt: nat, updatedAt: nat)

  /** A `pets` row. The columns no handler writes (birth_date, sterilization_code and
      sterilization_date) are always NULL and are not represented. */
  datatype PetRow = PetRow(
    id: nat, userId: nat, petCode: string, name: Val, species: Val, breed: Val, sex: Val,
    color: Val, ageYears: Val, ageMonths: Val, weight: Val, microchipCode: Val,
    healthCardNumber: Val, sterilized: bool, bloodType: Val, allergies: Val,
    medicalConditions: Val, medications: Val, specialCare: Val, veterinarianName: Val,
    veterinarianPhone: Val, emergencyContact: Val, emergencyPhone: Val, photoUrl: Val,
    qrCode: QrCode, isLost: bool, isActive: bool, createdAt: nat, updatedAt: nat)

  datatype ScanRow = ScanRow(
    id: nat, petId: nat, ipAddress: Val, userAgent: Val, latitude: Val, longitude: Val,
    scannedAt: nat)

  /** A `pet_locations` row. Its address, city, department and found_by_email columns are
      never written and are not represented. */
  datatype LocationRow = LocationRow(
    id: nat, petId: nat, latitude: Val, longitude: Val, accuracy: Val, foundByName: Val,
    foundByPhone: Val, message: Val, status: Val, createdAt: nat)

  /** A `vaccines` row (name_commercial is never written). */
  datatype VaccineRow = VaccineRow(
    id: nat, name: string, species: string, required: nat, frequencyMonths: nat,
    description: string, isActive: bool)

  /** A `vaccination_records` row. Columns no handler writes are not represented. */
  datatype VaccinationRow = VaccinationRow(
    id: nat, petId: nat, vaccineId: Val, vaccinationDate: Val, nextDoseDate: Val,
    doseNumber: Val, batchNumber: Val, veterinarianName: Val, clinicName: Val, notes: Val,
    createdAt: nat)

  function UserIds(users: seq<UserRow>): set<nat> {
    set u | u in users :: u.id
  }

  function PetIds(pets: seq<PetRow>): set<nat> {
    set p | p in pets :: p.id
  }

  function VaccineIds(vaccines: seq<VaccineRow>): set<nat> {
    set v | v in vaccines :: v.id
  }

  /** The row `getOne` returns: the first row, in table order, that the WHERE clause
      selects. */
  function FirstIndex<T>(rows: seq<T>, p: T -> bool): (r: Option<nat>)
    ensures r.Some? ==> r.value < |rows| && p(rows[r.value])
    ensures r.Some? ==> forall k :: 0 <= k < r.value ==> !p(rows[k])
    ensures r.None? <==> forall k :: 0 <= k < |rows| ==> !p(rows[k])
    decreases |rows|
  {
    if rows == [] then None
    else if p(rows[0]) then Some(0)
    else match FirstIndex(rows[1..], p)
      case None => None
      case Some(k) => Some(k + 1)
  }

  /** Tables that agree row by row on the WHERE clause give the same first match. */
  lemma {:induction false} FirstIndexAgrees<T>(a: seq<T>, b: seq<T>, p: T -> bool)
    requires |a| == |b|
    requires forall k :: 0 <= k < |a| ==> p(a[k]) == p(b[k])
    ensures FirstIndex(a, p) == FirstIndex(b, p)
    decreases |a|
  {
    if a != [] && !p(a[0]) {
      FirstIndexAgrees(a[1..], b[1..], p);
    }
  }

  // ---------------------------------------------------------------- constraints

  predicate UserRowValid(u: UserRow) {
    !u.email.Null? && !u.password.Null? && !u.firstName.Null? && !u.lastName.Null?
    && !u.phone.Null? && InCheck(u.role, Roles)
  }

  /** AUTOINCREMENT ids ascending below the next id, every row valid, e-mail unique. */
  predicate UsersValid(users: seq<UserRow>, next: nat) {
    (forall i, j :: 0 <= i < j < |users| ==> users[i].id < users[j].id)
    && (forall i :: 0 <= i < |users| ==> users[i].id < next && UserRowValid(users[i]))
    && (forall i, j :: 0 <= i < j < |users| ==> users[i].email != users[j].email)
  }

  predicate PetRowValid(p: PetRow, userIds: set<nat>) {
    !p.name.Null? && !p.species.Null? && InCheck(p.species, SpeciesNames)
    && InCheck(p.sex, Sexes) && p.userId in userIds
  }

  /** pet_code is unique; microchip_code is unique among the rows where it is not NULL. */
  predicate PetsValid(pets: seq<PetRow>, next: nat, userIds: set<nat>) {
    (forall i, j :: 0 <= i < j < |pets| ==> pets[i].id < pets[j].id)
    && (forall i :: 0 <= i < |pets| ==> pets[i].id < next && PetRowValid(pets[i], userIds))
    && (forall i, j :: 0 <= i < j < |pets| ==> pets[i].petCode != pets[j].petCode)
    && (forall i, j :: 0 <= i < j < |pets| && !pets[i].microchipCode.Null? ==>
          pets[i].microchipCode != pets[j].microchipCode)
  }

  predicate ScansValid(scans: seq<ScanRow>, next: nat, petIds: set<nat>) {
    (forall i, j :: 0 <= i < j < |scans| ==> scans[i].id < scans[j].id)
    && (forall i :: 0 <= i < |scans| ==> scans[i].id < next && scans[i].petId in petIds)
  }

  predicate LocationRowValid(l: LocationRow, petIds: set<nat>) {
    !l.latitude.Null? && !l.longitude.Null? && !l.foundByPhone.Null?
    && InCheck(l.status, LocationStatuses) && l.petId in petIds
  }

  predicate LocationsValid(locations: seq<LocationRow>, next: nat, petIds: set<nat>) {
    (forall i, j :: 0 <= i < j < |locations| ==> locations[i].id < locations[j].id)
    && (forall i :: 0 <= i < |locations| ==>
          locations[i].id < next && LocationRowValid(locations[i], petIds))
  }

  /** UNIQUE(name, species). */
  predicate VaccinesValid(vaccines: seq<VaccineRow>, next: nat) {
    (forall i, j :: 0 <= i < j < |vaccines| ==> vaccines[i].id < vaccines[j].id)
    && (forall i :: 0 <= i < |vaccines| ==> vaccines[i].id < next)
    && (forall i, j :: 0 <= i < j < |vaccines| ==>
          (vaccines[i].name, vaccines[i].species) != (vaccines[j].name, vaccines[j].species))
  }

  predicate RecordRowValid(r: VaccinationRow, petIds: set<nat>, vaccineIds: set<nat>) {
    !r.vaccineId.Null? && !r.vaccinationDate.Null? && !r.veterinarianName.Null?
    && r.petId in petIds && IntegerValue(r.vaccineId).Some?
    && IntegerValue(r.vaccineId).value in vaccineIds
  }

  predicate RecordsValid(records: seq<VaccinationRow>, next: nat, petIds: set<nat>,
                         vaccineIds: set<nat>) {
    (forall i, j :: 0 <= i < j < |records| ==> records[i].id < records[j].id)
    && (forall i :: 0 <= i < |records| ==>
          records[i].id < next && RecordRowValid(records[i], petIds, vaccineIds))
  }

  // ---------------------------------------------------------------- writes

  /** A constraint a write breaks, as the driver reports it. */
  datatype Violation = NotNullFailed(column: string) | CheckFailed(expression: string)
                     | UniqueFailed(columns: string) | ForeignKeyFailed

  /** `error.message` of the rejected statement. */
  function DriverMessage(v: Violation): string {
    "SQLITE_CONSTRAINT: " +
    match v
    case NotNullFailed(c) => "NOT NULL constraint failed: " + c
    case CheckFailed(e) => "CHECK constraint failed: " + e
    case UniqueFailed(c) => "UNIQUE constraint failed: " + c
    case ForeignKeyFailed => "FOREIGN KEY constraint failed"
  }

  const SpeciesCheck: string := "species IN ('Perro', 'Gato', 'Conejo', 'Ave', 'Otro')"
  const SexCheck: string := "sex IN ('Macho', 'Hembra')"
  const RoleCheck: string := "role IN ('user', 'admin', 'vet')"
  const StatusCheck: string := "status IN ('reported', 'verified', 'reunited')"

  /** The first constraint that writing `row` into `users` breaks: NOT NULL in column
      order, then CHECK, then UNIQUE. */
  function UserViolation(users: seq<UserRow>, row: UserRow): Option<Violation> {
    if row.email.Null? then Some(NotNullFailed("users.email"))
    else if row.password.Null? then Some(NotNullFailed("users.password"))
    else if row.firstName.Null? then Some(NotNullFailed("users.first_name"))
    else if row.lastName.Null? then Some(NotNullFailed("users.last_name"))
    else if row.phone.Null? then Some(NotNullFailed("users.phone"))
    else if !InCheck(row.role, Roles) then Some(CheckFailed(RoleCheck))
    else if exists k :: 0 <= k < |users| && users[k].email == row.email then
      Some(UniqueFailed("users.email"))
    else None
  }

  /** The first constraint that writing `row` into `pets` breaks, where `self` is the
      index of the row an UPDATE replaces and -1 for an INSERT: NOT NULL, CHECK, UNIQUE,
      then the foreign key to users. */
  function PetViolation(pets: seq<PetRow>, userIds: set<nat>, row: PetRow, self: int)
    : Option<Violation>
  {
    if row.name.Null? then Some(NotNullFailed("pets.name"))
    else if row.species.Null? then Some(NotNullFailed("pets.species"))
    else if !InCheck(row.species, SpeciesNames) then Some(CheckFailed(SpeciesCheck))
    else if !InCheck(row.sex, Sexes) then Some(CheckFailed(SexCheck))
    else if exists k :: 0 <= k < |pets| && k != self && pets[k].petCode == row.petCode then
      Some(UniqueFailed("pets.pet_code"))
    else if !row.microchipCode.Null?
         && exists k :: 0 <= k < |pets| && k != self && pets[k].microchipCode == row.microchipCode
    then
      Some(UniqueFailed("pets.microchip_code"))
    else if row.userId !in userIds then Some(ForeignKeyFailed)
    else None
  }

  function LocationViolation(petIds: set<nat>, row: LocationRow): Option<Violation> {
    if row.latitude.Null? then Some(NotNullFailed("pet_locations.latitude"))
    else if row.longitude.Null? then Some(NotNullFailed("pet_locations.longitude"))
    else if row.foundByPhone.Null? then Some(NotNullFailed("pet_locations.found_by_phone"))
    else if !InCheck(row.status, LocationStatuses) then Some(CheckFailed(StatusCheck))
    else if row.petId !in petIds then Some(ForeignKeyFailed)
    else None
  }

  function RecordViolation(petIds: set<nat>, vaccineIds: set<nat>, row: VaccinationRow)
    : Option<Violation>
  {
    if row.vaccineId.Null? then Some(NotNullFailed("vaccination_records.vaccine_id"))
    else if row.vaccinationDate.Null? then
      Some(NotNullFailed("vaccination_records.vaccination_date"))
    else if row.veterinarianName.Null? then
      Some(NotNullFailed("vaccination_records.veterinarian_name"))
    else if row.petId !in petIds then Some(ForeignKeyFailed)
    else if IntegerValue(row.vaccineId).None? || IntegerValue(row.vaccineId).value !in vaccineIds
    then Some(ForeignKeyFailed)
    else None
  }

  function ScanViolation(petIds: set<nat>, row: ScanRow): Option<Violation> {
    if row.petId in petIds then None else Some(ForeignKeyFailed)
  }

  /** SQLite accepts an INSERT into users exactly when the table stays valid. */
  lemma UserInsertChecked(users: seq<UserRow>, next: nat, row: UserRow)
    requires UsersValid(users, next) && row.id == next
    ensures UserViolation(users, row).None? <==> UsersValid(users + [row], next + 1)
  {
    var t := users + [row];
    assert forall k :: 0 <= k < |users| ==> t[k] == users[k];
    assert t[|users|] == row;
    if UserViolation(users, row).None? {
      assert UserRowValid(row);
      forall a, b | 0 <= a < b < |t| ensures t[a].email != t[b].email {
        if b == |users| { assert t[a] == users[a]; }
      }
    }
    if UsersValid(t, next + 1) {
      assert UserRowValid(t[|users|]);
      forall k | 0 <= k < |users| ensures users[k].email != row.email {
        assert t[k].email != t[|users|].email;
      }
    }
  }

  /** An UPDATE of users that keeps the e-mail, the id and the constrained columns
      keeps the table valid. */
  lemma UserUpdateKeepsValid(users: seq<UserRow>, next: nat, i: nat, row: UserRow)
    requires UsersValid(users, next) && i < |users|
    requires row == users[i].(lastLogin := row.lastLogin, updatedAt := row.updatedAt)
    ensures UsersValid(users[i := row], next)
    ensures UserIds(users[i := row]) == UserIds(users)
  {
    UserIdsUpdate(users, i, row);
  }

  /** SQLite accepts an INSERT into pets exactly when the table stays valid. */
  lemma PetInsertChecked(pets: seq<PetRow>, next: nat, userIds: set<nat>, row: PetRow)
    requires PetsValid(pets, next, userIds) && row.id == next
    ensures PetViolation(pets, userIds, row, -1).None? <==> PetsValid(pets + [row], next + 1, userIds)
  {
    var t := pets + [row];
    assert forall k :: 0 <= k < |pets| ==> t[k] == pets[k];
    assert t[|pets|] == row;
    if PetsValid(t, next + 1, userIds) {
      assert PetRowValid(t[|pets|], userIds);
      forall k | 0 <= k < |pets| ensures pets[k].petCode != row.petCode {
        assert t[k].petCode != t[|pets|].petCode;
      }
      forall k | 0 <= k < |pets| && !row.microchipCode.Null?
        ensures pets[k].microchipCode != row.microchipCode
      {
        if !pets[k].microchipCode.Null? {
          assert t[k].microchipCode != t[|pets|].microchipCode;
        }
      }
    }
  }

  /** SQLite accepts an UPDATE of one pets row, keeping its id, exactly when the table
      stays valid. */
  lemma PetUpdateChecked(pets: seq<PetRow>, next: nat, userIds: set<nat>, i: nat, row: PetRow)
    requires PetsValid(pets, next, userIds) && i < |pets| && row.id == pets[i].id
    ensures PetViolation(pets, userIds, row, i).None? <==> PetsValid(pets[i := row], next, userIds)
  {
    var t := pets[i := row];
    if PetViolation(pets, userIds, row, i).None? {
      forall a, b | 0 <= a < b < |t| ensures t[a].petCode != t[b].petCode {
        if a == i { assert t[b] == pets[b]; }
        else if b == i { assert t[a] == pets[a]; }
      }
      forall a, b | 0 <= a < b < |t| && !t[a].microchipCode.Null?
        ensures t[a].microchipCode != t[b].microchipCode
      {
        if a == i { assert t[b] == pets[b]; }
        else if b == i { assert t[a] == pets[a]; }
      }
    }
    if PetsValid(t, next, userIds) {
      assert PetRowValid(t[i], userIds);
      forall k | 0 <= k < |pets| && k != i ensures pets[k].petCode != row.petCode {
        assert t[k] == pets[k];
        if k < i { assert t[k].petCode != t[i].petCode; }
        else { assert t[i].petCode != t[k].petCode; }
      }
      forall k | 0 <= k < |pets| && k != i && !row.microchipCode.Null?
        ensures pets[k].microchipCode != row.microchipCode
      {
        assert t[k] == pets[k];
        if k < i {
          if !t[k].microchipCode.Null? { assert t[k].microchipCode != t[i].microchipCode; }
        } else {
          assert t[i].microchipCode != t[k].microchipCode;
        }
      }
    }
  }

  /** Flags and the QR column carry no constraint: changing them keeps pets valid. */
  lemma PetFlagsKeepValid(pets: seq<PetRow>, next: nat, userIds: set<nat>, i: nat, row: PetRow)
    requires PetsValid(pets, next, userIds) && i < |pets|
    requires row == pets[i].(isLost := row.isLost, isActive := row.isActive, qrCode := row.qrCode)
    ensures PetsValid(pets[i := row], next, userIds)
    ensures PetIds(pets[i := row]) == PetIds(pets)
  {
    PetUpdateChecked(pets, next, userIds, i, row);
    assert PetRowValid(pets[i], userIds);
    forall k | 0 <= k < |pets| && k != i ensures pets[k].petCode != row.petCode {
      if k < i { assert pets[k].petCode != pets[i].petCode; }
      else { assert pets[i].petCode != pets[k].petCode; }
    }
    forall k | 0 <= k < |pets| && k != i && !row.microchipCode.Null?
      ensures pets[k].microchipCode != row.microchipCode
    {
      if k < i {
        if !pets[k].microchipCode.Null? { assert pets[k].microchipCode != pets[i].microchipCode; }
      } else {
        assert pets[i].microchipCode != pets[k].microchipCode;
      }
    }
    assert PetViolation(pets, userIds, row, i).None?;
    PetIdsUpdate(pets, i, row);
  }

  lemma UserIdsAppend(users: seq<UserRow>, row: UserRow)
    ensures UserIds(users + [row]) == UserIds(users) + {row.id}
  {
    var t := users + [row];
    forall x | x in UserIds(t) ensures x in UserIds(users) + {row.id} {
      var u :| u in t && u.id == x;
      if u != row { assert u in users; }
    }
    forall x | x in UserIds(users) + {row.id} ensures x in UserIds(t) {
      if x == row.id { assert row in t; }
      else { var u :| u in users && u.id == x; assert u in t; }
    }
  }

  lemma UserIdsUpdate(users: seq<UserRow>, i: nat, row: UserRow)
    requires i < |users| && row.id == users[i].id
    ensures UserIds(users[i := row]) == UserIds(users)
  {
    var t := users[i := row];
    forall x | x in UserIds(t) ensures x in UserIds(users) {
      var u :| u in t && u.id == x;
      var k :| 0 <= k < |t| && t[k] == u;
      if k == i { assert users[i] in users; } else { assert users[k] in users; }
    }
    forall x | x in UserIds(users) ensures x in UserIds(t) {
      var u :| u in users && u.id == x;
      var k :| 0 <= k < |users| && users[k] == u;
      if k == i { assert t[i] in t; } else { assert t[k] in t; }
    }
  }

  lemma PetIdsAppend(pets: seq<PetRow>, row: PetRow)
    ensures PetIds(pets + [row]) == PetIds(pets) + {row.id}
  {
    var t := pets + [row];
    forall x | x in PetIds(t) ensures x in PetIds(pets) + {row.id} {
      var p :| p in t && p.id == x;
      if p != row { assert p in pets; }
    }
    forall x | x in PetIds(pets) + {row.id} ensures x in PetIds(t) {
      if x == row.id { assert row in t; }
      else { var p :| p in pets && p.id == x; assert p in t; }
    }
  }

  lemma PetIdsUpdate(pets: seq<PetRow>, i: nat, row: PetRow)
    requires i < |pets| && row.id == pets[i].id
    ensures PetIds(pets[i := row]) == PetIds(pets)
  {
    var t := pets[i := row];
    forall x | x in PetIds(t) ensures x in PetIds(pets) {
      var p :| p in t && p.id == x;
      var k :| 0 <= k < |t| && t[k] == p;
      if k == i { assert pets[i] in pets; } else { assert pets[k] in pets; }
    }
    forall x | x in PetIds(pets) ensures x in PetIds(t) {
      var p :| p in pets && p.id == x;
      var k :| 0 <= k < |pets| && pets[k] == p;
      if k == i { assert t[i] in t; } else { assert t[k] in t; }
    }
  }

  lemma PetsValidWiderParents(pets: seq<PetRow>, next: nat, a: set<nat>, b: set<nat>)
    requires PetsValid(pets, next, a) && a <= b
    ensures PetsValid(pets, next, b)
  {
    assert forall i :: 0 <= i < |pets| ==> PetRowValid(pets[i], a);
  }

  /** Rows that point at pets stay valid when the set of pet ids grows. */
  lemma ChildrenValidWiderParents(scans: seq<ScanRow>, nextScan: nat,
                                  locations: seq<LocationRow>, nextLocation: nat,
                                  records: seq<VaccinationRow>, nextRecord: nat,
                                  vaccineIds: set<nat>, a: set<nat>, b: set<nat>)
    requires ScansValid(scans, nextScan, a) && LocationsValid(locations, nextLocation, a)
    requires RecordsValid(records, nextRecord, a, vaccineIds) && a <= b
    ensures ScansValid(scans, nextScan, b) && LocationsValid(locations, nextLocation, b)
    ensures RecordsValid(records, nextRecord, b, vaccineIds)
  {
    assert forall i :: 0 <= i < |locations| ==> LocationRowValid(locations[i], a);
    assert forall i :: 0 <= i < |records| ==> RecordRowValid(records[i], a, vaccineIds);
  }

  lemma LocationInsertChecked(ls: seq<LocationRow>, next: nat, petIds: set<nat>, row: LocationRow)
    requires LocationsValid(ls, next, petIds) && row.id == next
    ensures LocationViolation(petIds, row).None? <==> LocationsValid(ls + [row], next + 1, petIds)
  {
    if LocationsValid(ls + [row], next + 1, petIds) {
      assert (ls + [row])[|ls|] == row;
    }
  }

  lemma RecordInsertChecked(rs: seq<VaccinationRow>, next: nat, petIds: set<nat>,
                            vaccineIds: set<nat>, row: VaccinationRow)
    requires RecordsValid(rs, next, petIds, vaccineIds) && row.id == next
    ensures RecordViolation(petIds, vaccineIds, row).None?
            <==> RecordsValid(rs + [row], next + 1, petIds, vaccineIds)
  {
    if RecordsValid(rs + [row], next + 1, petIds, vaccineIds) {
      assert (rs + [row])[|rs|] == row;
    }
  }

  lemma ScanInsertChecked(scans: seq<ScanRow>, next: nat, petIds: set<nat>, row: ScanRow)
    requires ScansValid(scans, next, petIds) && row.id == next
    ensures ScanViolation(petIds, row).None? <==> ScansValid(scans + [row], next + 1, petIds)
  {
    if ScansValid(scans + [row], next + 1, petIds) {
      assert (scans + [row])[|scans|] == row;
    }
  }

  // ---------------------------------------------------------------- the database

  class Database {
    var users: seq<UserRow>
    var pets: seq<PetRow>
    var scans: seq<ScanRow>
    var locations: seq<LocationRow>
    var vaccines: seq<VaccineRow>
    var records: seq<VaccinationRow>
    /** The AUTOINCREMENT counters: one more than the largest id ever handed out. */
    var nextUserId: nat
    var nextPetId: nat
    var nextScanId: nat
    var nextLocationId: nat
    var nextVaccineId: nat
    var nextRecordId: nat

    ghost predicate Valid()
      reads this
    {
      UsersValid(users, nextUserId)
      && PetsValid(pets, nextPetId, UserIds(users))
      && ScansValid(scans, nextScanId, PetIds(pets))
      && LocationsValid(locations, nextLocationId, PetIds(pets))
      && VaccinesValid(vaccines, nextVaccineId)
      && RecordsValid(records, nextRecordId, PetIds(pets), VaccineIds(vaccines))
    }

    /** The freshly created database file: every table empty. */
    constructor ()
      ensures Valid()
      ensures users == [] && pets == [] && scans == [] && locations == []
      ensures vaccines == [] && records == []
      ensures nextUserId == 1 && nextPetId == 1 && nextScanId == 1
      ensures nextLocationId == 1 && nextVaccineId == 1 && nextRecordId == 1
    {
      users := [];
      pets := [];
      scans := [];
      locations := [];
      vaccines := [];
      records := [];
      nextUserId := 1;
      nextPetId := 1;
      nextScanId := 1;
      nextLocationId := 1;
      nextVaccineId := 1;
      nextRecordId := 1;
      new;
      EmptyDatabaseValid(this);
    }
  }

  /** A database whose tables are all empty is valid, whatever its counters. */
  lemma EmptyDatabaseValid(db: Database)
    requires db.users == [] && db.pets == [] && db.scans == [] && db.locations == []
    requires db.vaccines == [] && db.records == []
    ensures db.Valid()
  {
  }

  // ---------------------------------------------------------------- one write at a time

  // Each lemma below relates the database after one statement to the database before it.
  // The written row is read back from the table rather than passed in.

  /** An INSERT into users that SQLite accepts keeps the database valid. */
  twostate lemma UserAppendKeepsValid(db: Database)
    requires old(db.Valid())
    requires |db.users| == |old(db.users)| + 1
    requires db.users == old(db.users) + [db.users[|old(db.users)|]]
    requires db.users[|old(db.users)|].id == old(db.nextUserId)
    requires UserViolation(old(db.users), db.users[|old(db.users)|]).None?
    requires db.nextUserId == old(db.nextUserId) + 1
    requires unchanged(db`pets, db`nextPetId, db`scans, db`nextScanId, db`locations,
                       db`nextLocationId, db`vaccines, db`nextVaccineId, db`records, db`nextRecordId)
    ensures db.Valid()
  {
    var row := db.users[|old(db.users)|];
    UserInsertChecked(old(db.users), old(db.nextUserId), row);
    UserIdsAppend(old(db.users), row);
    PetsValidWiderParents(db.pets, db.nextPetId, UserIds(old(db.users)), UserIds(db.users));
  }

  /** Stamping last_login or updated_at on one account keeps the database valid. */
  twostate lemma UserStampKeepsValid(db: Database)
    requires old(db.Valid())
    requires |db.users| == |old(db.users)|
    requires exists i :: 0 <= i < |old(db.users)| && db.users == old(db.users)[i := db.users[i]]
                         && db.users[i] == old(db.users)[i].(lastLogin := db.users[i].lastLogin,
                                                             updatedAt := db.users[i].updatedAt)
    requires unchanged(db`nextUserId, db`pets, db`nextPetId, db`scans, db`nextScanId, db`locations,
                       db`nextLocationId, db`vaccines, db`nextVaccineId, db`records, db`nextRecordId)
    ensures db.Valid()
  {
    var i :| 0 <= i < |old(db.users)| && db.users == old(db.users)[i := db.users[i]]
             && db.users[i] == old(db.users)[i].(lastLogin := db.users[i].lastLogin,
                                                 updatedAt := db.users[i].updatedAt);
    UserUpdateKeepsValid(old(db.users), db.nextUserId, i, db.users[i]);
  }

  /** An INSERT into pets that SQLite accepts keeps the database valid. */
  twostate lemma PetAppendKeepsValid(db: Database)
    requires old(db.Valid())
    requires |db.pets| == |old(db.pets)| + 1
    requires db.pets == old(db.pets) + [db.pets[|old(db.pets)|]]
    requires db.pets[|old(db.pets)|].id == old(db.nextPetId)
    requires PetViolation(old(db.pets), UserIds(db.users), db.pets[|old(db.pets)|], -1).None?
    requires db.nextPetId == old(db.nextPetId) + 1
    requires unchanged(db`users, db`nextUserId, db`scans, db`nextScanId, db`locations,
                       db`nextLocationId, db`vaccines, db`nextVaccineId, db`records, db`nextRecordId)
    ensures db.Valid()
  {
    var row := db.pets[|old(db.pets)|];
    PetInsertChecked(old(db.pets), old(db.nextPetId), UserIds(db.users), row);
    PetIdsAppend(old(db.pets), row);
    ChildrenValidWiderParents(db.scans, db.nextScanId, db.locations, db.nextLocationId,
                              db.records, db.nextRecordId, VaccineIds(db.vaccines),
                              PetIds(old(db.pets)), PetIds(db.pets));
  }

  /** An UPDATE of one pets row, keeping its id, that SQLite accepts keeps the database
      valid. */
  twostate lemma PetUpdateKeepsValid(db: Database)
    requires old(db.Valid())
    requires |db.pets| == |old(db.pets)|
    requires exists i :: 0 <= i < |old(db.pets)| && db.pets == old(db.pets)[i := db.pets[i]]
                         && db.pets[i].id == old(db.pets)[i].id
                         && PetViolation(old(db.pets), UserIds(db.users), db.pets[i], i).None?
    requires unchanged(db`users, db`nextUserId, db`nextPetId, db`scans, db`nextScanId, db`locations,
                       db`nextLocationId, db`vaccines, db`nextVaccineId, db`records, db`nextRecordId)
    ensures db.Valid()
  {
    var i :| 0 <= i < |old(db.pets)| && db.pets == old(db.pets)[i := db.pets[i]]
             && db.pets[i].id == old(db.pets)[i].id
             && PetViolation(old(db.pets), UserIds(db.users), db.pets[i], i).None?;
    PetUpdateChecked(old(db.pets), db.nextPetId, UserIds(db.users), i, db.pets[i]);
    PetIdsUpdate(old(db.pets), i, db.pets[i]);
    ChildrenValidWiderParents(db.scans, db.nextScanId, db.locations, db.nextLocationId,
                              db.records, db.nextRecordId, VaccineIds(db.vaccines),
                              PetIds(old(db.pets)), PetIds(db.pets));
  }

  /** Changing the flags or the QR image of one pet keeps the database valid. */
  twostate lemma PetFlagsKeepDbValid(db: Database)
    requires old(db.Valid())
    requires |db.pets| == |old(db.pets)|
    requires exists i :: 0 <= i < |old(db.pets)| && db.pets == old(db.pets)[i := db.pets[i]]
                         && db.pets[i] == old(db.pets)[i].(isLost := db.pets[i].isLost,
                                                          isActive := db.pets[i].isActive,
                                                          qrCode := db.pets[i].qrCode)
    requires unchanged(db`users, db`nextUserId, db`nextPetId, db`scans, db`nextScanId, db`locations,
                       db`nextLocationId, db`vaccines, db`nextVaccineId, db`records, db`nextRecordId)
    ensures db.Valid()
  {
    var i :| 0 <= i < |old(db.pets)| && db.pets == old(db.pets)[i := db.pets[i]]
             && db.pets[i] == old(db.pets)[i].(isLost := db.pets[i].isLost,
                                              isActive := db.pets[i].isActive,
                                              qrCode := db.pets[i].qrCode);
    PetFlagsKeepValid(old(db.pets), db.nextPetId, UserIds(db.users), i, db.pets[i]);
    ChildrenValidWiderParents(db.scans, db.nextScanId, db.locations, db.nextLocationId,
                              db.records, db.nextRecordId, VaccineIds(db.vaccines),
                              PetIds(old(db.pets)), PetIds(db.pets));
  }

  /** An INSERT into qr_scans for an existing pet keeps the database valid. */
  twostate lemma ScanAppendKeepsValid(db: Database)
    requires old(db.Valid())
    requires |db.scans| == |old(db.scans)| + 1
    requires db.scans == old(db.scans) + [db.scans[|old(db.scans)|]]
    requires db.scans[|old(db.scans)|].id == old(db.nextScanId)
    requires db.scans[|old(db.scans)|].petId in PetIds(db.pets)
    requires db.nextScanId == old(db.nextScanId) + 1
    requires unchanged(db`users, db`nextUserId, db`pets, db`nextPetId, db`locations,
                       db`nextLocationId, db`vaccines, db`nextVaccineId, db`records, db`nextRecordId)
    ensures db.Valid()
  {
    ScanInsertChecked(old(db.scans), old(db.nextScanId), PetIds(db.pets), db.scans[|old(db.scans)|]);
  }

  /** An INSERT into pet_locations that SQLite accepts keeps the database valid. */
  twostate lemma LocationAppendKeepsValid(db: Database)
    requires old(db.Valid())
    requires |db.locations| == |old(db.locations)| + 1
    requires db.locations == old(db.locations) + [db.locations[|old(db.locations)|]]
    requires db.locations[|old(db.locations)|].id == old(db.nextLocationId)
    requires LocationViolation(PetIds(db.pets), db.locations[|old(db.locations)|]).None?
    requires db.nextLocationId == old(db.nextLocationId) + 1
    requires unchanged(db`users, db`nextUserId, db`pets, db`nextPetId, db`scans, db`nextScanId,
                       db`vaccines, db`nextVaccineId, db`records, db`nextRecordId)
    ensures db.Valid()
  {
    LocationInsertChecked(old(db.locations), old(db.nextLocationId), PetIds(db.pets),
                          db.locations[|old(db.locations)|]);
  }

  /** An INSERT into vaccination_records that SQLite accepts keeps the database valid. */
  twostate lemma RecordAppendKeepsValid(db: Database)
    requires old(db.Valid())
    requires |db.records| == |old(db.records)| + 1
    requires db.records == old(db.records) + [db.records[|old(db.records)|]]
    requires db.records[|old(db.records)|].id == old(db.nextRecordId)
    requires RecordViolation(PetIds(db.pets), VaccineIds(db.vaccines),
                             db.records[|old(db.records)|]).None?
    requires db.nextRecordId == old(db.nextRecordId) + 1
    requires unchanged(db`users, db`nextUserId, db`pets, db`nextPetId, db`scans, db`nextScanId,
                       db`locations, db`nextLocationId, db`vaccines, db`nextVaccineId)
    ensures db.Valid()
  {
    RecordInsertChecked(old(db.records), old(db.nextRecordId), PetIds(db.pets),
                        VaccineIds(db.vaccines), db.records[|old(db.records)|]);
  }

  twostate lemma VaccinesGrowKeepsValid(db: Database)
    requires old(db.Valid())
    requires old(db.vaccines) <= db.vaccines
    requires VaccinesValid(db.vaccines, db.nextVaccineId)
    requires unchanged(db`users, db`nextUserId, db`pets, db`nextPetId, db`scans, db`nextScanId,
                       db`locations, db`nextLocationId, db`records, db`nextRecordId)
    ensures db.Valid()
  {
    VaccineIdsGrow(old(db.vaccines), db.vaccines);
    assert forall i :: 0 <= i < |db.records| ==>
      RecordRowValid(db.records[i], PetIds(db.pets), VaccineIds(old(db.vaccines)));
  }

  lemma VaccineIdsGrow(a: seq<VaccineRow>, b: seq<VaccineRow>)
    requires a <= b
    ensures VaccineIds(a) <= VaccineIds(b)
  {
    forall x | x in VaccineIds(a) ensures x in VaccineIds(b) {
      var v :| v in a && v.id == x;
      var k :| 0 <= k < |a| && a[k] == v;
      assert b[k] == v;
    }
  }
}
