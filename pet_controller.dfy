/** The pet handlers of src/backend/controllers/pet.controller.js. `req.user.id` (set by
    `authenticate`) and the route's `:id` arrive as numbers; `Date.now()`,
    `Math.random().toString(36)`, `process.env.BASE_URL` and the CURRENT_TIMESTAMP clock
    are parameters. */
module PetController {

  import opened Wrappers
  import opened JsValues
  import opened PetIdentity
  import opened Schema
  import Radix
  import opened Ordering
  import opened Http

  /** The fields of `req.body` the pet handlers read. `registerPet` reads `sterilized`,
      `updatePet` reads `is_sterilized`. */
  datatype PetForm = PetForm(
    name: Val, species: Val, breed: Val, sex: Val, color: Val, ageYears: Val, ageMonths: Val,
    weight: Val, microchipCode: Val, healthCardNumber: Val, sterilized: Val, isSterilized: Val,
    bloodType: Val, allergies: Val, medicalConditions: Val, medications: Val, specialCare: Val,
    veterinarianName: Val, veterinarianPhone: Val, emergencyContact: Val, emergencyPhone: Val)

  datatype VaccinationForm = VaccinationForm(
    vaccineId: Val, vaccinationDate: Val, nextDoseDate: Val, doseNumber: Val,
    batchNumber: Val, veterinarianName: Val, clinicName: Val, notes: Val)

  /** The owner block of the public view: no address, e-mail, password or id. */
  datatype OwnerCard = OwnerCard(name: string, city: Val, department: Val, phone: Val,
                                 whatsapp: Val)

  /** What `getPublicPetInfo` shows to whoever scans the tag. */
  datatype PublicPet = PublicPet(
    name: Val, species: Val, breed: Val, sex: Val, color: Val, ageYears: Val,
    ageMonths: Val, photoUrl: Val, isLost: Val, allergies: Val, medicalConditions: Val,
    medications: Val, specialCare: Val, bloodType: Val, veterinarianName: Val,
    veterinarianPhone: Val, owner: OwnerCard)

  datatype ScanStats = ScanStats(totalScans: nat, uniqueDays: nat, lastScan: Option<nat>)

  datatype RecentScan = RecentScan(scannedAt: nat, ipAddress: Val, latitude: Val, longitude: Val)

  datatype PetPayload =
    | Registered(message: string, petId: nat, petCode: string, qrCode: QrCode, petUrl: string)
    | PublicInfo(pet: PublicPet)
    | Done(message: string)
    | QrRegenerated(qrCode: QrCode)
    | ScanReport(stats: ScanStats, recentScans: seq<RecentScan>)

  const NotFound: string := "Mascota no encontrada"

  // ---------------------------------------------------------------- column values

  /** `v || null` written to a TEXT column. */
  function OptionalText(v: Val): (r: Val)
    ensures r.Null? <==> !Truthy(v)
    ensures r.Null? || r.Str?
  {
    TextColumn(OrNull(v))
  }

  /** `v || null` written to an INTEGER or REAL column. */
  function OptionalNumber(v: Val): (r: Val)
    ensures r.Null? <==> !Truthy(v)
    ensures Truthy(v) && !v.Str? ==> r == Bind(v)
    ensures Truthy(v) && v.Str? && IntegerLiteral(v.s).None? ==> r == v
    ensures Truthy(v) && v.Str? && IntegerLiteral(v.s).Some? ==>
              r.Num? && IntegerLiteral(r.text) == IntegerLiteral(v.s)
  {
    NumericColumn(OrNull(v))
  }

  /** A multipart form sends `age_years` as text; the INTEGER column stores the number, so
      the pet's page answers a Number. */
  lemma FormAgeIsStoredAsNumber()
    ensures OptionalNumber(Str("3")) == Num("3")
  {
    assert Radix.ParseRadix("3", 10) == Some(3);
    assert Radix.ToRadix(3, 10) == "3";
  }

  /** Leading zeros are dropped on the way in: the stored number prints without them. */
  lemma PaddedAgeIsStoredAsNumber()
    ensures OptionalNumber(Str("07")) == Num("7")
  {
    assert "07"[..1] == "0";
    assert Radix.ParseRadix("07", 10) == Some(7);
    assert Radix.ToRadix(7, 10) == "7";
  }

  /** A text that is not a number stays text. */
  lemma WordAgeStaysText()
    ensures OptionalNumber(Str("tres")) == Str("tres")
  {
    assert Radix.ParseRadix("tres", 10) == None;
  }

  /** `req.file ? '/uploads/pet-photos/' + filename : null`. */
  function PhotoUrl(file: Option<string>): Val {
    if file.Some? then Str("/uploads/pet-photos/" + file.value) else Null
  }

  /** The `is_sterilized` normalisation of `updatePet`. */
  predicate NormalizeSterilized(v: Val) {
    StrictEquals(v, Bool(true)) || StrictEquals(v, Str("true"))
    || StrictEquals(v, Num("1")) || StrictEquals(v, Str("1"))
  }

  lemma NormalizeSterilizedExactly(v: Val)
    ensures NormalizeSterilized(v) <==> v in {Bool(true), Str("true"), Num("1"), Str("1")}
  {
  }

  /** The row `registerPet` inserts. */
  function NewPetRow(id: nat, userId: nat, code: string, photo: Option<string>, f: PetForm,
                     qr: QrCode, now: nat): (r: PetRow)
    ensures r.id == id && r.userId == userId && r.petCode == code && r.qrCode == qr
    ensures r.isActive && !r.isLost
    ensures r.createdAt == now && r.updatedAt == now
  {
    PetRow(id, userId, code, TextColumn(f.name), TextColumn(f.species), OptionalText(f.breed),
           TextColumn(f.sex), TextColumn(f.color), OptionalNumber(f.ageYears),
           OptionalNumber(f.ageMonths), OptionalNumber(f.weight), OptionalText(f.microchipCode),
           OptionalText(f.healthCardNumber), StrictEquals(f.sterilized, Str("true")),
           OptionalText(f.bloodType), OptionalText(f.allergies), OptionalText(f.medicalConditions),
           OptionalText(f.medications), OptionalText(f.specialCare),
           OptionalText(f.veterinarianName), OptionalText(f.veterinarianPhone),
           OptionalText(f.emergencyContact), OptionalText(f.emergencyPhone), PhotoUrl(photo),
           qr, false, true, now, now)
  }

  /** The columns `registerPet` writes with `|| null` are NULL exactly when the form value
      is falsy; `sterilized` is set exactly for the string 'true'; the columns bound
      directly keep the form's value, so an absent name or species is NULL. */
  lemma NewPetRowColumns(id: nat, userId: nat, code: string, photo: Option<string>, f: PetForm,
                         qr: QrCode, now: nat)
    ensures var r := NewPetRow(id, userId, code, photo, f, qr, now);
            (r.sterilized <==> f.sterilized == Str("true"))
            && (r.breed.Null? <==> !Truthy(f.breed))
            && (r.ageYears.Null? <==> !Truthy(f.ageYears))
            && (r.ageMonths.Null? <==> !Truthy(f.ageMonths))
            && (r.weight.Null? <==> !Truthy(f.weight))
            && (r.microchipCode.Null? <==> !Truthy(f.microchipCode))
            && (r.healthCardNumber.Null? <==> !Truthy(f.healthCardNumber))
            && (r.bloodType.Null? <==> !Truthy(f.bloodType))
            && (r.allergies.Null? <==> !Truthy(f.allergies))
            && (r.medicalConditions.Null? <==> !Truthy(f.medicalConditions))
            && (r.medications.Null? <==> !Truthy(f.medications))
            && (r.specialCare.Null? <==> !Truthy(f.specialCare))
            && (r.veterinarianName.Null? <==> !Truthy(f.veterinarianName))
            && (r.veterinarianPhone.Null? <==> !Truthy(f.veterinarianPhone))
            && (r.emergencyContact.Null? <==> !Truthy(f.emergencyContact))
            && (r.emergencyPhone.Null? <==> !Truthy(f.emergencyPhone))
            && (r.name.Null? <==> (f.name.Null? || f.name.Undefined?))
            && (r.species.Null? <==> (f.species.Null? || f.species.Undefined?))
            && (f.name.Str? ==> r.name == f.name) && (f.species.Str? ==> r.species == f.species)
            && (r.photoUrl.Null? <==> photo.None?)
  {
  }

  /** The row `updatePet` writes over `p`: the form's columns, the normalised sterilized
      flag and a new updated_at; nothing else. */
  function UpdatedPetRow(p: PetRow, f: PetForm, now: nat): (r: PetRow)
    ensures r.id == p.id && r.userId == p.userId && r.petCode == p.petCode
    ensures r.qrCode == p.qrCode && r.isLost == p.isLost && r.isActive == p.isActive
    ensures r.photoUrl == p.photoUrl && r.createdAt == p.createdAt
    ensures r.updatedAt == now
    ensures r.sterilized <==> NormalizeSterilized(f.isSterilized)
  {
    p.(name := TextColumn(f.name), species := TextColumn(f.species),
       breed := TextColumn(f.breed), sex := TextColumn(f.sex), color := TextColumn(f.color),
       ageYears := OptionalNumber(f.ageYears), ageMonths := OptionalNumber(f.ageMonths),
       weight := OptionalNumber(f.weight), microchipCode := OptionalText(f.microchipCode),
       healthCardNumber := OptionalText(f.healthCardNumber),
       sterilized := NormalizeSterilized(f.isSterilized),
       bloodType := OptionalText(f.bloodType), allergies := OptionalText(f.allergies),
       medicalConditions := OptionalText(f.medicalConditions),
       medications := OptionalText(f.medications), specialCare := OptionalText(f.specialCare),
       veterinarianName := OptionalText(f.veterinarianName),
       veterinarianPhone := OptionalText(f.veterinarianPhone),
       emergencyContact := OptionalText(f.emergencyContact),
       emergencyPhone := OptionalText(f.emergencyPhone), updatedAt := now)
  }

  /** Unlike `registerPet`, `updatePet` binds breed directly, so a falsy breed such as ""
      is kept rather than turned into NULL. */
  lemma UpdateKeepsEmptyBreed(p: PetRow, f: PetForm, now: nat)
    requires f.breed == Str("")
    ensures UpdatedPetRow(p, f, now).breed == Str("")
    ensures NewPetRow(p.id, p.userId, p.petCode, None, f, p.qrCode, now).breed == Null
  {
  }

  // ---------------------------------------------------------------- lookups

  /** `WHERE id = ? AND user_id = ?`. */
  function OwnedPet(pets: seq<PetRow>, id: nat, userId: nat): (r: Option<nat>)
    ensures r.Some? ==> r.value < |pets| && pets[r.value].id == id && pets[r.value].userId == userId
    ensures r.None? <==> forall k :: 0 <= k < |pets| ==> !(pets[k].id == id && pets[k].userId == userId)
  {
    FirstIndex(pets, (p: PetRow) => p.id == id && p.userId == userId)
  }

  /** `WHERE id = ?`. */
  function PetById(pets: seq<PetRow>, id: nat): (r: Option<nat>)
    ensures r.Some? ==> r.value < |pets| && pets[r.value].id == id
    ensures r.None? <==> forall k :: 0 <= k < |pets| ==> pets[k].id != id
  {
    FirstIndex(pets, (p: PetRow) => p.id == id)
  }

  /** Ids are unique, so the row the ownership check finds is the row `WHERE id = ?`
      finds. */
  lemma OwnedIsById(pets: seq<PetRow>, next: nat, userIds: set<nat>, id: nat, userId: nat)
    requires PetsValid(pets, next, userIds) && OwnedPet(pets, id, userId).Some?
    ensures PetById(pets, id) == OwnedPet(pets, id, userId)
  {
    var i := OwnedPet(pets, id, userId).value;
    assert pets[i].id == id;
  }

  function UserById(users: seq<UserRow>, id: nat): (r: Option<nat>)
    ensures r.Some? ==> r.value < |users| && users[r.value].id == id
    ensures r.None? <==> forall k :: 0 <= k < |users| ==> users[k].id != id
  {
    FirstIndex(users, (u: UserRow) => u.id == id)
  }

  /** `pets p JOIN users u ON p.user_id = u.id WHERE p.pet_code = ? AND p.is_active = 1`. */
  function ActivePetWithOwner(pets: seq<PetRow>, users: seq<UserRow>, code: string)
    : (r: Option<(PetRow, UserRow)>)
    ensures r.Some? ==> r.value.0 in pets && r.value.0.petCode == code && r.value.0.isActive
    ensures r.Some? ==> r.value.1 in users && r.value.1.id == r.value.0.userId
  {
    match FirstIndex(pets, (p: PetRow) => p.petCode == code && p.isActive)
    case None => None
    case Some(i) =>
      match UserById(users, pets[i].userId)
      case None => None
      case Some(j) => Some((pets[i], users[j]))
  }

  /** In a valid database every pet has its owner, so the join finds a row exactly when an
      active pet has the code. */
  lemma ActivePetWithOwnerFound(pets: seq<PetRow>, next: nat, users: seq<UserRow>, code: string)
    requires PetsValid(pets, next, UserIds(users))
    ensures ActivePetWithOwner(pets, users, code).Some?
            <==> exists k :: 0 <= k < |pets| && pets[k].petCode == code && pets[k].isActive
  {
    var f := FirstIndex(pets, (p: PetRow) => p.petCode == code && p.isActive);
    if f.Some? {
      var i := f.value;
      assert PetRowValid(pets[i], UserIds(users));
      var u :| u in users && u.id == pets[i].userId;
      var j :| 0 <= j < |users| && users[j] == u;
      assert UserById(users, pets[i].userId).Some?;
    } else {
      assert forall k :: 0 <= k < |pets| ==> !(pets[k].petCode == code && pets[k].isActive);
    }
  }

  /** `WHERE pet_code = ?`, as `registerScan` asks, with no is_active filter. */
  function PetByCode(pets: seq<PetRow>, code: string): (r: Option<nat>)
    ensures r.Some? ==> r.value < |pets| && pets[r.value].petCode == code
    ensures r.None? <==> forall k :: 0 <= k < |pets| ==> pets[k].petCode != code
  {
    FirstIndex(pets, (p: PetRow) => p.petCode == code)
  }

  /** Deactivating a pet does not stop `registerScan` from finding it. */
  lemma ScanLookupIgnoresActive(pets: seq<PetRow>, i: nat, code: string)
    requires i < |pets|
    ensures PetByCode(pets[i := pets[i].(isActive := false)], code) == PetByCode(pets, code)
  {
    FirstIndexAgrees(pets[i := pets[i].(isActive := false)], pets, (p: PetRow) => p.petCode == code);
  }

  // ---------------------------------------------------------------- views

  /** The owner's display name. */
  function OwnerName(u: UserRow): string {
    ToJsString(u.firstName) + " " + ToJsString(u.lastName)
  }

  function LostFlag(b: bool): Val {
    Num(if b then "1" else "0")
  }

  /** The object `getPublicPetInfo` returns for a pet and its owner. */
  function PublicViewOf(p: PetRow, u: UserRow): (v: PublicPet)
    ensures v.owner.name == OwnerName(u)
    ensures v.owner.phone == u.phone && v.owner.whatsapp == u.whatsapp
    ensures v.isLost == LostFlag(p.isLost)
  {
    PublicPet(p.name, p.species, p.breed, p.sex, p.color, p.ageYears, p.ageMonths, p.photoUrl,
              LostFlag(p.isLost), p.allergies, p.medicalConditions, p.medications,
              p.specialCare, p.bloodType, p.veterinarianName, p.veterinarianPhone,
              OwnerCard(OwnerName(u), u.city, u.department, u.phone, u.whatsapp))
  }

  /** Nothing the view shows depends on the owner's address, e-mail, password or id, nor
      on the pet's id, code, microchip, QR image or emergency contact. */
  lemma PublicViewRedacts(p: PetRow, u: UserRow, p2: PetRow, u2: UserRow)
    requires p2 == p.(id := p2.id, userId := p2.userId, petCode := p2.petCode,
                      microchipCode := p2.microchipCode, qrCode := p2.qrCode,
                      emergencyContact := p2.emergencyContact, emergencyPhone := p2.emergencyPhone,
                      healthCardNumber := p2.healthCardNumber)
    requires u2 == u.(id := u2.id, email := u2.email, password := u2.password,
                      address := u2.address)
    ensures PublicViewOf(p2, u2) == PublicViewOf(p, u)
  {
  }

  /** The view's owner name is the two names with one space between. */
  lemma OwnerNameShape(u: UserRow)
    requires u.firstName.Str? && u.lastName.Str?
    ensures OwnerName(u) == u.firstName.s + " " + u.lastName.s
    ensures OwnerName(u)[|u.firstName.s|] == ' '
  {
  }

  // ---------------------------------------------------------------- scans

  /** `SELECT ... FROM qr_scans WHERE pet_id = ?`, in table order. */
  function ScansOf(scans: seq<ScanRow>, petId: nat): (r: seq<ScanRow>)
    ensures forall s :: s in r <==> s in scans && s.petId == petId
    ensures |r| <= |scans|
    decreases |scans|
  {
    if scans == [] then []
    else (if scans[0].petId == petId then [scans[0]] else []) + ScansOf(scans[1..], petId)
  }

  /** `MAX(scanned_at)`: NULL over no rows. */
  function Latest(ss: seq<ScanRow>): (r: Option<nat>)
    ensures r.None? <==> ss == []
    ensures r.Some? ==> (exists k :: 0 <= k < |ss| && ss[k].scannedAt == r.value)
    ensures r.Some? ==> forall k :: 0 <= k < |ss| ==> ss[k].scannedAt <= r.value
    decreases |ss|
  {
    if ss == [] then None
    else
      match Latest(ss[1..])
      case None => Some(ss[0].scannedAt)
      case Some(m) =>
        assert forall k :: 1 <= k < |ss| ==> ss[k] == ss[1..][k - 1];
        Some(if ss[0].scannedAt >= m then ss[0].scannedAt else m)
  }

  /** `DATE(scanned_at)`, a day number. */
  function ScanDay(s: ScanRow): nat {
    s.scannedAt / 86400
  }

  function ScanDays(ss: seq<ScanRow>): set<nat> {
    set s | s in ss :: ScanDay(s)
  }

  function AsRecent(s: ScanRow): RecentScan {
    RecentScan(s.scannedAt, s.ipAddress, s.latitude, s.longitude)
  }

  /** `ORDER BY scanned_at DESC LIMIT 10`. */
  function RecentScansOf(ss: seq<ScanRow>): (r: seq<ScanRow>)
    ensures |r| == if |ss| < 10 then |ss| else 10
    ensures SortedDesc(r, (s: ScanRow) => s.scannedAt)
    ensures forall s :: s in r ==> s in ss
    ensures multiset(r) <= multiset(ss)
    ensures r == SortDesc(ss, (s: ScanRow) => s.scannedAt)[..|r|]
  {
    var sorted := SortDesc(ss, (s: ScanRow) => s.scannedAt);
    var r := Take(sorted, 10);
    assert sorted == r + sorted[|r|..];
    assert multiset(sorted) == multiset(r) + multiset(sorted[|r|..]);
    assert forall s :: s in r ==> s in multiset(sorted);
    r
  }

  /** The ten scans shown are the latest: none left out is newer than one shown. */
  lemma RecentScansAreLatest(ss: seq<ScanRow>)
    ensures var sorted := SortDesc(ss, (s: ScanRow) => s.scannedAt);
            forall i, j :: 0 <= i < |RecentScansOf(ss)| <= j < |sorted| ==>
              RecentScansOf(ss)[i].scannedAt >= sorted[j].scannedAt
  {
    TakeKeepsLargest(SortDesc(ss, (s: ScanRow) => s.scannedAt), 10, (s: ScanRow) => s.scannedAt);
  }

  /** `getPetScans`: 404 unless the pet is the caller's (even if deactivated); otherwise
      the count, the number of distinct days, the latest time and the ten latest scans. */
  function GetPetScans(pets: seq<PetRow>, scans: seq<ScanRow>, id: nat, userId: nat)
    : (r: Response<PetPayload>)
    ensures r.Fail? <==> OwnedPet(pets, id, userId).None?
    ensures r.Fail? ==> r == Fail(404, NotFound)
    ensures r.Ok? ==> r.status == 200 && r.payload.ScanReport?
    ensures r.Ok? ==> r.payload.stats.totalScans == |ScansOf(scans, id)|
    ensures r.Ok? ==> r.payload.stats.uniqueDays == |ScanDays(ScansOf(scans, id))|
    ensures r.Ok? ==> (r.payload.stats.lastScan.None? <==> ScansOf(scans, id) == [])
    ensures r.Ok? ==> |r.payload.recentScans| <= 10
    ensures r.Ok? ==> r.payload.stats.lastScan == Latest(ScansOf(scans, id))
    ensures r.Ok? ==> |r.payload.recentScans| == |RecentScansOf(ScansOf(scans, id))|
    ensures r.Ok? ==> forall i :: 0 <= i < |r.payload.recentScans| ==>
              r.payload.recentScans[i] == AsRecent(RecentScansOf(ScansOf(scans, id))[i])
  {
    if OwnedPet(pets, id, userId).None? then Fail(404, NotFound)
    else
      var mine := ScansOf(scans, id);
      var recent := RecentScansOf(mine);
      Ok(200, ScanReport(ScanStats(|mine|, |ScanDays(mine)|, Latest(mine)),
                         seq(|recent|, i requires 0 <= i < |recent| => AsRecent(recent[i]))))
  }

  // ---------------------------------------------------------------- handlers

  /** `registerPet`. `qrError` is the message `QRCode.toDataURL` rejects with, or None when
      it draws the image; a rejection reaches the catch before anything is written. */
  method RegisterPet(db: Database, userId: nat, photo: Option<string>, body: PetForm,
                     nowMs: nat, random36: string, baseUrl: Option<string>, clock: nat,
                     qrError: Option<string>)
    returns (res: Response<PetPayload>)
    requires db.Valid()
    modifies db`pets, db`nextPetId
    ensures db.Valid()
    ensures qrError.Some? ==>
              db.pets == old(db.pets) && db.nextPetId == old(db.nextPetId)
              && res == Fail(500, "Error al registrar la mascota: " + qrError.value)
    ensures qrError.None? ==>
            var code := GeneratePetCode(nowMs, random36);
            var url := PetUrl(baseUrl, code);
            var row := NewPetRow(old(db.nextPetId), userId, code, photo, body, TagQrCode(url), clock);
            match PetViolation(old(db.pets), UserIds(db.users), row, -1)
            case None =>
              db.pets == old(db.pets) + [row] && db.nextPetId == old(db.nextPetId) + 1
              && res == Ok(201, Registered("Mascota registrada exitosamente", row.id, code,
                                           row.qrCode, url))
            case Some(v) =>
              db.pets == old(db.pets) && db.nextPetId == old(db.nextPetId)
              && res == Fail(500, "Error al registrar la mascota: " + DriverMessage(v))
  {
    var code := GeneratePetCode(nowMs, random36);
    var url := PetUrl(baseUrl, code);
    if qrError.Some? {
      return Fail(500, "Error al registrar la mascota: " + qrError.value);
    }
    var qr := TagQrCode(url);
    var row := NewPetRow(db.nextPetId, userId, code, photo, body, qr, clock);
    var violation := PetViolation(db.pets, UserIds(db.users), row, -1);
    if violation.Some? {
      return Fail(500, "Error al registrar la mascota: " + DriverMessage(violation.value));
    }
    db.pets := db.pets + [row];
    db.nextPetId := db.nextPetId + 1;
    PetAppendKeepsValid(db);
    res := Ok(201, Registered("Mascota registrada exitosamente", row.id, code, qr, url));
  }

  /** `getPublicPetInfo`: an unknown or inactive code gives 404 and records nothing;
      otherwise one scan is recorded and the redacted view returned. */
  method GetPublicPetInfo(db: Database, code: string, ip: Val, userAgent: Val, clock: nat)
    returns (res: Response<PetPayload>)
    requires db.Valid()
    modifies db`scans, db`nextScanId
    ensures db.Valid()
    ensures match ActivePetWithOwner(db.pets, db.users, code)
            case None =>
              db.scans == old(db.scans) && db.nextScanId == old(db.nextScanId)
              && res == Fail(404, NotFound)
            case Some(found) =>
              db.scans == old(db.scans) + [ScanRow(old(db.nextScanId), found.0.id,
                                                   TextColumn(Or(ip, Str("unknown"))),
                                                   TextColumn(Or(userAgent, Str("unknown"))),
                                                   Null, Null, clock)]
              && db.nextScanId == old(db.nextScanId) + 1
              && res == Ok(200, PublicInfo(PublicViewOf(found.0, found.1)))
  {
    var found := ActivePetWithOwner(db.pets, db.users, code);
    if found.None? {
      return Fail(404, NotFound);
    }
    var pet := found.value.0;
    var scan := ScanRow(db.nextScanId, pet.id, TextColumn(Or(ip, Str("unknown"))),
                        TextColumn(Or(userAgent, Str("unknown"))), Null, Null, clock);
    assert pet.id in PetIds(db.pets);
    db.scans := db.scans + [scan];
    db.nextScanId := db.nextScanId + 1;
    ScanAppendKeepsValid(db);
    res := Ok(200, PublicInfo(PublicViewOf(pet, found.value.1)));
  }

  /** `registerScan`: any pet with the code, active or not, gets a scan with the given
      coordinates or NULL. */
  method RegisterScan(db: Database, code: string, ip: Val, userAgent: Val, latitude: Val,
                      longitude: Val, clock: nat)
    returns (res: Response<PetPayload>)
    requires db.Valid()
    modifies db`scans, db`nextScanId
    ensures db.Valid()
    ensures match PetByCode(db.pets, code)
            case None =>
              db.scans == old(db.scans) && db.nextScanId == old(db.nextScanId)
              && res == Fail(404, NotFound)
            case Some(i) =>
              db.scans == old(db.scans) + [ScanRow(old(db.nextScanId), db.pets[i].id,
                                                   TextColumn(Or(ip, Str("unknown"))),
                                                   TextColumn(Or(userAgent, Str("unknown"))),
                                                   OptionalNumber(latitude),
                                                   OptionalNumber(longitude), clock)]
              && db.nextScanId == old(db.nextScanId) + 1
              && res == Ok(200, Done("Escaneo registrado"))
  {
    var i := PetByCode(db.pets, code);
    if i.None? {
      return Fail(404, NotFound);
    }
    var scan := ScanRow(db.nextScanId, db.pets[i.value].id, TextColumn(Or(ip, Str("unknown"))),
                        TextColumn(Or(userAgent, Str("unknown"))), OptionalNumber(latitude),
                        OptionalNumber(longitude), clock);
    assert db.pets[i.value] in db.pets;
    db.scans := db.scans + [scan];
    db.nextScanId := db.nextScanId + 1;
    ScanAppendKeepsValid(db);
    res := Ok(200, Done("Escaneo registrado"));
  }

  /** `updatePet`: 404 and no change unless the pet is the caller's; a write the
      constraints reject gives 500 and no change. */
  method UpdatePet(db: Database, id: nat, userId: nat, body: PetForm, clock: nat)
    returns (res: Response<PetPayload>)
    requires db.Valid()
    modifies db`pets
    ensures db.Valid()
    ensures match OwnedPet(old(db.pets), id, userId)
            case None => db.pets == old(db.pets) && res == Fail(404, NotFound)
            case Some(i) =>
              var row := UpdatedPetRow(old(db.pets)[i], body, clock);
              match PetViolation(old(db.pets), UserIds(db.users), row, i)
              case None =>
                db.pets == old(db.pets)[i := row]
                && res == Ok(200, Done("Mascota actualizada exitosamente"))
              case Some(_) =>
                db.pets == old(db.pets) && res == Fail(500, "Error al actualizar la mascota")
  {
    var found := OwnedPet(db.pets, id, userId);
    if found.None? {
      return Fail(404, NotFound);
    }
    var i := found.value;
    var row := UpdatedPetRow(db.pets[i], body, clock);
    if PetViolation(db.pets, UserIds(db.users), row, i).Some? {
      return Fail(500, "Error al actualizar la mascota");
    }
    db.pets := db.pets[i := row];
    PetUpdateKeepsValid(db);
    res := Ok(200, Done("Mascota actualizada exitosamente"));
  }

  /** `deletePet`: a soft delete. 404 exactly when no row is the caller's pet with that
      id, so deleting an already deleted pet succeeds again. */
  method DeletePet(db: Database, id: nat, userId: nat) returns (res: Response<PetPayload>)
    requires db.Valid()
    modifies db`pets
    ensures db.Valid()
    ensures match OwnedPet(old(db.pets), id, userId)
            case None => db.pets == old(db.pets) && res == Fail(404, NotFound)
            case Some(i) =>
              db.pets == old(db.pets)[i := old(db.pets)[i].(isActive := false)]
              && res == Ok(200, Done("Mascota eliminada exitosamente"))
  {
    var found := OwnedPet(db.pets, id, userId);
    if found.None? {
      return Fail(404, NotFound);
    }
    var i := found.value;
    var row := db.pets[i].(isActive := false);
    db.pets := db.pets[i := row];
    PetFlagsKeepDbValid(db);
    res := Ok(200, Done("Mascota eliminada exitosamente"));
  }

  /** `UPDATE pets SET is_lost = ? WHERE id = ? AND user_id = ?`. */
  function WithLostFlag(pets: seq<PetRow>, id: nat, userId: nat, lost: bool): (r: seq<PetRow>)
    ensures |r| == |pets|
    ensures OwnedPet(pets, id, userId).None? ==> r == pets
    ensures forall k :: 0 <= k < |pets| && !(pets[k].id == id && pets[k].userId == userId) ==>
              r[k] == pets[k]
  {
    match OwnedPet(pets, id, userId)
    case None => pets
    case Some(i) => pets[i := pets[i].(isLost := lost)]
  }

  method MarkAsLost(db: Database, id: nat, userId: nat) returns (res: Response<PetPayload>)
    requires db.Valid()
    modifies db`pets
    ensures db.Valid()
    ensures db.pets == WithLostFlag(old(db.pets), id, userId, true)
    ensures res == Ok(200, Done("Mascota marcada como perdida"))
  {
    SetLostFlag(db, id, userId, true);
    res := Ok(200, Done("Mascota marcada como perdida"));
  }

  method MarkAsFound(db: Database, id: nat, userId: nat) returns (res: Response<PetPayload>)
    requires db.Valid()
    modifies db`pets
    ensures db.Valid()
    ensures db.pets == WithLostFlag(old(db.pets), id, userId, false)
    ensures res == Ok(200, Done("Mascota marcada como encontrada"))
  {
    SetLostFlag(db, id, userId, false);
    res := Ok(200, Done("Mascota marcada como encontrada"));
  }

  /** The UPDATE statement the two handlers above share. */
  method SetLostFlag(db: Database, id: nat, userId: nat, lost: bool)
    requires db.Valid()
    modifies db`pets
    ensures db.Valid()
    ensures db.pets == WithLostFlag(old(db.pets), id, userId, lost)
  {
    var found := OwnedPet(db.pets, id, userId);
    if found.Some? {
      var i := found.value;
      var row := db.pets[i].(isLost := lost);
      db.pets := db.pets[i := row];
      PetFlagsKeepDbValid(db);
    }
  }

  /** The row `addVaccination` inserts; `dose_number || 1`. The two DATE columns have
      NUMERIC affinity, so they convert integer texts like the INTEGER columns do. */
  function NewVaccinationRow(id: nat, petId: nat, f: VaccinationForm, now: nat): (r: VaccinationRow)
    ensures r.id == id && r.petId == petId && r.createdAt == now
    ensures Truthy(f.doseNumber) ==> r.doseNumber == NumericColumn(f.doseNumber)
    ensures !Truthy(f.doseNumber) ==> r.doseNumber == Num("1")
    ensures r.vaccineId == NumericColumn(f.vaccineId)
    ensures r.vaccinationDate == NumericColumn(f.vaccinationDate)
    ensures r.nextDoseDate == NumericColumn(f.nextDoseDate)
    ensures r.vaccinationDate.Null? <==> (f.vaccinationDate.Null? || f.vaccinationDate.Undefined?)
  {
    VaccinationRow(id, petId, NumericColumn(f.vaccineId), NumericColumn(f.vaccinationDate),
                   NumericColumn(f.nextDoseDate),
                   NumericColumn(Or(f.doseNumber, Num("1"))), TextColumn(f.batchNumber),
                   TextColumn(f.veterinarianName), TextColumn(f.clinicName), TextColumn(f.notes),
                   now)
  }

  /** A year alone in vaccination_date is stored under NUMERIC affinity as the Number. */
  lemma YearDateIsStoredAsNumber(id: nat, petId: nat, f: VaccinationForm, now: nat)
    requires f.vaccinationDate == Str("2024")
    ensures NewVaccinationRow(id, petId, f, now).vaccinationDate == Num("2024")
  {
    assert "2024"[..3] == "202" && "202"[..2] == "20" && "20"[..1] == "2";
    assert IntegerLiteral("2024") == Some(2024) by {
      assert Radix.ParseRadix("20", 10) == Some(20);
      assert Radix.ParseRadix("202", 10) == Some(202);
      assert Radix.ParseRadix("2024", 10) == Some(2024);
    }
    assert IntegerText(2024) == "2024" by {
      assert 2024 / 10 == 202 && 2024 % 10 == 4;
      assert 202 / 10 == 20 && 202 % 10 == 2;
      assert 20 / 10 == 2 && 20 % 10 == 0;
      assert Radix.ToRadix(2, 10) == "2";
      assert Radix.ToRadix(20, 10) == "20";
      assert Radix.ToRadix(202, 10) == "202";
      assert Radix.ToRadix(2024, 10) == "2024";
    }
  }

  /** An ISO date is no number, so it stays text in the DATE column. */
  lemma IsoDateStaysText(id: nat, petId: nat, f: VaccinationForm, now: nat)
    requires f.vaccinationDate == Str("2024-01-15")
    ensures NewVaccinationRow(id, petId, f, now).vaccinationDate == Str("2024-01-15")
  {
    var s := "2024-01-15";
    assert s[..7] == "2024-01" && "2024-01"[..6] == "2024-0" && "2024-0"[..5] == "2024-";
    assert Radix.ParseRadix("2024-", 10) == None;
    assert Radix.ParseRadix("2024-0", 10) == None;
    assert Radix.ParseRadix("2024-01", 10) == None;
    assert s[..9] == "2024-01-1" && "2024-01-1"[..8] == "2024-01-" && "2024-01-"[..7] == "2024-01";
    assert Radix.ParseRadix("2024-01-", 10) == None;
    assert Radix.ParseRadix("2024-01-1", 10) == None;
    assert Radix.ParseRadix(s, 10) == None;
  }

  /** `addVaccination`: 404 unless the pet is the caller's; then one record, unless the
      constraints reject it (a missing date or veterinarian, an unknown vaccine), which
      gives 500 and no change. */
  method AddVaccination(db: Database, id: nat, userId: nat, body: VaccinationForm, clock: nat)
    returns (res: Response<PetPayload>)
    requires db.Valid()
    modifies db`records, db`nextRecordId
    ensures db.Valid()
    ensures match OwnedPet(db.pets, id, userId)
            case None =>
              db.records == old(db.records) && db.nextRecordId == old(db.nextRecordId)
              && res == Fail(404, NotFound)
            case Some(_) =>
              var row := NewVaccinationRow(old(db.nextRecordId), id, body, clock);
              if RecordViolation(PetIds(db.pets), VaccineIds(db.vaccines), row).None? then
                db.records == old(db.records) + [row] && db.nextRecordId == old(db.nextRecordId) + 1
                && res == Ok(200, Done("Vacunación registrada exitosamente"))
              else
                db.records == old(db.records) && db.nextRecordId == old(db.nextRecordId)
                && res == Fail(500, "Error al registrar vacunación")
  {
    if OwnedPet(db.pets, id, userId).None? {
      return Fail(404, NotFound);
    }
    var row := NewVaccinationRow(db.nextRecordId, id, body, clock);
    if RecordViolation(PetIds(db.pets), VaccineIds(db.vaccines), row).Some? {
      return Fail(500, "Error al registrar vacunación");
    }
    db.records := db.records + [row];
    db.nextRecordId := db.nextRecordId + 1;
    RecordAppendKeepsValid(db);
    res := Ok(200, Done("Vacunación registrada exitosamente"));
  }

  /** `regenerateQR`: 404 unless the pet is the caller's; otherwise the QR image is drawn
      again from the stored code and written over qr_code, and nothing else changes.
      `qrFails` says whether `QRCode.toDataURL` rejects, which answers 500 before the
      UPDATE. */
  method RegenerateQR(db: Database, id: nat, userId: nat, baseUrl: Option<string>,
                      qrFails: bool)
    returns (res: Response<PetPayload>)
    requires db.Valid()
    modifies db`pets
    ensures db.Valid()
    ensures match OwnedPet(old(db.pets), id, userId)
            case None => db.pets == old(db.pets) && res == Fail(404, NotFound)
            case Some(i) =>
              if qrFails then
                db.pets == old(db.pets) && res == Fail(500, "Error al regenerar código QR")
              else
                var qr := TagQrCode(PetUrl(baseUrl, old(db.pets)[i].petCode));
                db.pets == old(db.pets)[i := old(db.pets)[i].(qrCode := qr)]
                && res == Ok(200, QrRegenerated(qr))
  {
    var found := OwnedPet(db.pets, id, userId);
    if found.None? {
      return Fail(404, NotFound);
    }
    if qrFails {
      return Fail(500, "Error al regenerar código QR");
    }
    var code := db.pets[found.value].petCode;
    var qr := TagQrCode(PetUrl(baseUrl, code));
    OwnedIsById(db.pets, db.nextPetId, UserIds(db.users), id, userId);
    var i := PetById(db.pets, id).value;
    var row := db.pets[i].(qrCode := qr);
    db.pets := db.pets[i := row];
    PetFlagsKeepDbValid(db);
    res := Ok(200, QrRegenerated(qr));
  }

  /** The regenerated image still leads to the same pet: the code is never changed. */
  lemma RegeneratedQrLeadsToPet(p: PetRow, baseUrl: Option<string>)
    ensures CodeOfUrl(baseUrl, TagQrCode(PetUrl(baseUrl, p.petCode)).encoded) == Some(p.petCode)
  {
    TagLeadsToPet(baseUrl, p.petCode);
  }
}
