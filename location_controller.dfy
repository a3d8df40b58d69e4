/** The location handlers of src/backend/controllers/location.controller.js. Every
    handler answers `{success, message}` or `{success: false, error}`, so a reply is a
    message or an error. */
module LocationController {

  import opened Wrappers
  import opened JsValues
  import opened Schema
  import opened Http
  import opened PetController

  /** `req.body.location`, when it is an object; a missing location, or one that is not an
      object, reads as undefined through `location?.field`. */
  datatype Coordinates = Coordinates(latitude: Val, longitude: Val, accuracy: Val)

  /** The fields of `req.body` that `reportFoundPet` reads. */
  datatype ReportForm = ReportForm(petCode: Val, finderName: Val, finderPhone: Val,
                                   message: Val, location: Option<Coordinates>)

  const ReportSent: string := "Reporte enviado exitosamente"
  const ReportFailed: string := "Error al enviar el reporte"
  const NotImplemented: string := "TODO: Implementar"

  /** `location?.field || null`, bound to a REAL column. */
  function Reading(v: Option<Val>): (r: Val)
    ensures r.Null? <==> v.None? || !Truthy(v.value)
    ensures v.Some? && Truthy(v.value) && !v.value.Str? ==> r == Bind(v.value)
    ensures v.Some? && Truthy(v.value) && v.value.Str? ==>
              if IntegerLiteral(v.value.s).Some? then r.Num? else r == v.value
  {
    if v.None? then Null else OptionalNumber(v.value)
  }

  function Latitude(loc: Option<Coordinates>): Option<Val> {
    if loc.Some? then Some(loc.value.latitude) else None
  }

  function Longitude(loc: Option<Coordinates>): Option<Val> {
    if loc.Some? then Some(loc.value.longitude) else None
  }

  function Accuracy(loc: Option<Coordinates>): Option<Val> {
    if loc.Some? then Some(loc.value.accuracy) else None
  }

  /** The code `WHERE p.pet_code = ?` compares against: the parameter as a TEXT value. A
      missing code binds NULL, which equals nothing. */
  function CodeParameter(v: Val): Option<string> {
    match TextColumn(v)
    case Str(s) => Some(s)
    case _ => None
  }

  /** The pet and owner the lookup of `reportFoundPet` finds: an active pet with the code,
      joined with its owner. */
  function ReportTarget(pets: seq<PetRow>, users: seq<UserRow>, code: Val)
    : (r: Option<(PetRow, UserRow)>)
    ensures r.Some? ==> CodeParameter(code).Some? && r.value.0 in pets
                        && r.value.0.petCode == CodeParameter(code).value && r.value.0.isActive
  {
    match CodeParameter(code)
    case None => None
    case Some(c) => ActivePetWithOwner(pets, users, c)
  }

  /** The row the INSERT of `reportFoundPet` writes. */
  function ReportRow(id: nat, petId: nat, body: ReportForm, now: nat): LocationRow {
    LocationRow(id, petId, Reading(Latitude(body.location)), Reading(Longitude(body.location)),
                Reading(Accuracy(body.location)), TextColumn(body.finderName),
                TextColumn(body.finderPhone), OptionalText(body.message), Str("reported"), now)
  }

  /** A report row is always `reported`, keeps the finder's details, and stores a falsy
      message or a missing or falsy coordinate as NULL. */
  lemma ReportRowColumns(id: nat, petId: nat, body: ReportForm, now: nat)
    ensures var row := ReportRow(id, petId, body, now);
            row.status == Str("reported") && InCheck(row.status, LocationStatuses)
            && (row.message.Null? <==> !Truthy(body.message))
            && (row.foundByPhone.Null? <==> body.finderPhone.Null? || body.finderPhone.Undefined?)
            && (body.finderName.Str? ==> row.foundByName == body.finderName)
            && (row.latitude.Null? <==> body.location.None? || !Truthy(body.location.value.latitude))
            && (row.longitude.Null? <==> body.location.None? || !Truthy(body.location.value.longitude))
            && (row.accuracy.Null? <==> body.location.None? || !Truthy(body.location.value.accuracy))
  {
  }

  /** For a pet that exists, the INSERT is refused exactly when a coordinate is missing or
      falsy, or no finder phone is given. */
  lemma ReportAcceptedExactly(id: nat, pet: PetRow, pets: seq<PetRow>, body: ReportForm, now: nat)
    requires pet in pets
    ensures LocationViolation(PetIds(pets), ReportRow(id, pet.id, body, now)).None? <==>
              body.location.Some? && Truthy(body.location.value.latitude)
              && Truthy(body.location.value.longitude)
              && !body.finderPhone.Null? && !body.finderPhone.Undefined?
  {
    assert pet.id in PetIds(pets);
  }

  /** A report without a location breaks NOT NULL on latitude first. */
  lemma MissingLocationBreaksLatitude(id: nat, petIds: set<nat>, petId: nat, body: ReportForm, now: nat)
    requires body.location.None?
    ensures LocationViolation(petIds, ReportRow(id, petId, body, now))
            == Some(NotNullFailed("pet_locations.latitude"))
  {
  }

  /** `reportFoundPet`: 404 and no row for a code no active pet has; otherwise one
      `reported` row in pet_locations, or the 500 reply when SQLite refuses it. No other
      table changes and no notification is sent. */
  method ReportFoundPet(db: Database, body: ReportForm, clock: nat) returns (res: Response<string>)
    requires db.Valid()
    modifies db`locations, db`nextLocationId
    ensures db.Valid()
    ensures match ReportTarget(db.pets, db.users, body.petCode)
            case None =>
              db.locations == old(db.locations) && db.nextLocationId == old(db.nextLocationId)
              && res == Fail(404, NotFound)
            case Some(found) =>
              var row := ReportRow(old(db.nextLocationId), found.0.id, body, clock);
              if LocationViolation(PetIds(db.pets), row).None? then
                db.locations == old(db.locations) + [row]
                && db.nextLocationId == old(db.nextLocationId) + 1
                && res == Ok(200, ReportSent)
              else
                db.locations == old(db.locations) && db.nextLocationId == old(db.nextLocationId)
                && res == Fail(500, ReportFailed)
  {
    var found := ReportTarget(db.pets, db.users, body.petCode);
    if found.None? {
      return Fail(404, NotFound);
    }
    var row := ReportRow(db.nextLocationId, found.value.0.id, body, clock);
    if LocationViolation(PetIds(db.pets), row).Some? {
      return Fail(500, ReportFailed);
    }
    db.locations := db.locations + [row];
    db.nextLocationId := db.nextLocationId + 1;
    LocationAppendKeepsValid(db);
    res := Ok(200, ReportSent);
  }

  /** The exports in force: the later definitions of `getPetLocations`, `verifyLocation`
      and `markReunited` replace the earlier ones, and all three answer the same
      placeholder. */
  function GetPetLocations(): Response<string> {
    Ok(200, NotImplemented)
  }

  function VerifyLocation(): Response<string> {
    Ok(200, NotImplemented)
  }

  function MarkReunited(): Response<string> {
    Ok(200, NotImplemented)
  }

  /** The three stubs report success with the placeholder message, whatever the request,
      and read or write no table (they take no database). */
  lemma LocationStubs()
    ensures GetPetLocations() == VerifyLocation() == MarkReunited()
    ensures GetPetLocations().Ok? && GetPetLocations().status == 200
    ensures GetPetLocations().payload == NotImplemented
  {
  }
}
