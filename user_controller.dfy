/** The read-only queries of src/backend/controllers/user.controller.js, for the caller
    `authenticate` identified, and its placeholder handlers. */
module UserController {

  import opened Wrappers
  import opened JsValues
  import opened Schema
  import opened Http
  import opened Ordering
  import opened PetIdentity
  import opened PetController

  /** The columns `getProfile` selects: no password, role, address or flags. */
  datatype Profile = Profile(id: nat, email: Val, firstName: Val, lastName: Val, phone: Val,
                             city: Val, department: Val)

  function ProfileOf(u: UserRow): Profile {
    Profile(u.id, u.email, u.firstName, u.lastName, u.phone, u.city, u.department)
  }

  /** `getProfile`: `{success: true, user}`, where `user` is undefined (and so left out of
      the JSON) when no row has the id. */
  function GetProfile(users: seq<UserRow>, userId: nat): (r: Response<Option<Profile>>)
    ensures r.Ok? && r.status == 200
    ensures r.payload.None? <==> forall k :: 0 <= k < |users| ==> users[k].id != userId
    ensures r.payload.Some? ==>
              exists k :: 0 <= k < |users| && users[k].id == userId
                          && r.payload.value == ProfileOf(users[k])
  {
    match UserById(users, userId)
    case None => Ok(200, None)
    case Some(k) => Ok(200, Some(ProfileOf(users[k])))
  }

  /** What `getProfile` returns does not depend on the stored password hash, the address,
      the role or any flag of the account. */
  lemma ProfileHidesPassword(users: seq<UserRow>, i: nat, userId: nat, password: Val,
                             address: Val, role: Val)
    requires i < |users|
    ensures var changed := users[i := users[i].(password := password, address := address, role := role)];
            GetProfile(changed, userId) == GetProfile(users, userId)
  {
    var changed := users[i := users[i].(password := password, address := address, role := role)];
    assert forall k :: 0 <= k < |users| ==>
      changed[k].id == users[k].id && ProfileOf(changed[k]) == ProfileOf(users[k]);
    assert forall u: UserRow :: (u.id == userId) == ((x: UserRow) => x.id == userId)(u);
    FirstIndexSameAnswers(changed, users, userId);
  }

  lemma {:induction false} FirstIndexSameAnswers(a: seq<UserRow>, b: seq<UserRow>, userId: nat)
    requires |a| == |b| && forall k :: 0 <= k < |a| ==> a[k].id == b[k].id
    ensures UserById(a, userId) == UserById(b, userId)
    decreases |a|
  {
    var p := (u: UserRow) => u.id == userId;
    if a != [] {
      FirstIndexSameAnswers(a[1..], b[1..], userId);
      assert UserById(a[1..], userId) == FirstIndex(a[1..], p);
      assert UserById(b[1..], userId) == FirstIndex(b[1..], p);
    }
  }

  // ---------------------------------------------------------------- getUserPets

  /** `WHERE user_id = ? AND is_active = 1`, in table order. */
  function ActivePetsOf(pets: seq<PetRow>, userId: nat): (r: seq<PetRow>)
    ensures forall p :: p in r <==> p in pets && p.userId == userId && p.isActive
    ensures |r| <= |pets|
    decreases |pets|
  {
    if pets == [] then []
    else
      (if pets[0].userId == userId && pets[0].isActive then [pets[0]] else [])
      + ActivePetsOf(pets[1..], userId)
  }

  function CreatedAt(p: PetRow): int {
    p.createdAt
  }

  /** `getUserPets`: the caller's active pets, newest first. */
  function GetUserPets(pets: seq<PetRow>, userId: nat): (r: Response<seq<PetRow>>)
    ensures r.Ok? && r.status == 200
    ensures SortedDesc(r.payload, CreatedAt)
    ensures multiset(r.payload) == multiset(ActivePetsOf(pets, userId))
  {
    Ok(200, SortDesc(ActivePetsOf(pets, userId), CreatedAt))
  }

  /** The pets listed are exactly the caller's active pets, each as often as in the table. */
  lemma UserPetsExactly(pets: seq<PetRow>, userId: nat, p: PetRow)
    ensures p in GetUserPets(pets, userId).payload <==> p in pets && p.userId == userId && p.isActive
  {
    var r := GetUserPets(pets, userId).payload;
    assert p in r <==> p in multiset(r);
    assert p in ActivePetsOf(pets, userId) <==> p in multiset(ActivePetsOf(pets, userId));
  }

  // ---------------------------------------------------------------- getUserStats

  /** A row of `pets p LEFT JOIN qr_scans qs ON p.id = qs.pet_id`: a pet with one of its
      scans, or with NULLs when it has none. */
  datatype JoinRow = JoinRow(pet: PetRow, scan: Option<ScanRow>)

  /** The join rows of one pet. */
  function PetJoinRows(p: PetRow, scans: seq<ScanRow>): (rows: seq<JoinRow>)
    ensures forall r :: r in rows ==> r.pet == p
    ensures |rows| == if ScansOf(scans, p.id) == [] then 1 else |ScansOf(scans, p.id)|
    ensures forall s :: (exists r :: r in rows && r.scan == Some(s)) <==> s in ScansOf(scans, p.id)
  {
    var ss := ScansOf(scans, p.id);
    if ss == [] then [JoinRow(p, None)]
    else
      var rows := seq(|ss|, i requires 0 <= i < |ss| => JoinRow(p, Some(ss[i])));
      assert forall i :: 0 <= i < |ss| ==> rows[i].scan == Some(ss[i]);
      rows
  }

  /** The join rows of a sequence of pets, pet after pet. */
  function JoinRows(ps: seq<PetRow>, scans: seq<ScanRow>): (rows: seq<JoinRow>)
    ensures rows == [] <==> ps == []
    decreases |ps|
  {
    if ps == [] then [] else PetJoinRows(ps[0], scans) + JoinRows(ps[1..], scans)
  }

  /** `SUM(CASE WHEN p.is_lost = 1 THEN 1 ELSE 0 END)` over non-empty rows. */
  function LostSum(rows: seq<JoinRow>): nat
    decreases |rows|
  {
    if rows == [] then 0 else (if rows[0].pet.isLost then 1 else 0) + LostSum(rows[1..])
  }

  function PetIdsOf(rows: seq<JoinRow>): set<nat> {
    set r | r in rows :: r.pet.id
  }

  function ScanIdsOf(rows: seq<JoinRow>): set<nat> {
    set r | r in rows && r.scan.Some? :: r.scan.value.id
  }

  datatype Stats = Stats(totalPets: nat, lostPets: Option<nat>, totalScans: nat)

  /** `getUserStats` as written: COUNT(DISTINCT p.id), the SUM over the join rows (NULL
      when there are none), and COUNT(DISTINCT qs.id). The aggregate query always returns
      one row. */
  function GetUserStats(pets: seq<PetRow>, scans: seq<ScanRow>, userId: nat): Response<Stats> {
    var rows := JoinRows(ActivePetsOf(pets, userId), scans);
    Ok(200, Stats(|PetIdsOf(rows)|, if rows == [] then None else Some(LostSum(rows)),
                  |ScanIdsOf(rows)|))
  }

  /** The ids of a sequence of pets. */
  function IdsOf(ps: seq<PetRow>): set<nat> {
    set p | p in ps :: p.id
  }

  lemma PetIdsOfAppend(a: seq<JoinRow>, b: seq<JoinRow>)
    ensures PetIdsOf(a + b) == PetIdsOf(a) + PetIdsOf(b)
  {
    assert forall r :: r in a + b <==> r in a || r in b;
  }

  lemma PetJoinRowsId(p: PetRow, scans: seq<ScanRow>)
    ensures PetIdsOf(PetJoinRows(p, scans)) == {p.id}
  {
    var head := PetJoinRows(p, scans);
    assert head[0] in head;
  }

  lemma IdsOfCons(ps: seq<PetRow>)
    requires ps != []
    ensures IdsOf(ps) == {ps[0].id} + IdsOf(ps[1..])
  {
    assert forall p :: p in ps <==> p == ps[0] || p in ps[1..];
  }

  /** Every pet has at least one join row, so the pet ids of the rows are the pets' ids. */
  lemma {:induction false} JoinPetIds(ps: seq<PetRow>, scans: seq<ScanRow>)
    ensures PetIdsOf(JoinRows(ps, scans)) == IdsOf(ps)
    decreases |ps|
  {
    if ps != [] {
      JoinPetIds(ps[1..], scans);
      PetIdsOfAppend(PetJoinRows(ps[0], scans), JoinRows(ps[1..], scans));
      PetJoinRowsId(ps[0], scans);
      IdsOfCons(ps);
    }
  }

  lemma ScanIdsOfAppend(a: seq<JoinRow>, b: seq<JoinRow>)
    ensures ScanIdsOf(a + b) == ScanIdsOf(a) + ScanIdsOf(b)
  {
    assert forall r :: r in a + b <==> r in a || r in b;
  }

  /** The scan ids of one pet's join rows are the ids of that pet's scans. */
  lemma PetJoinScanIds(p: PetRow, scans: seq<ScanRow>)
    ensures ScanIdsOf(PetJoinRows(p, scans)) == set s | s in scans && s.petId == p.id :: s.id
  {
    var head := PetJoinRows(p, scans);
    forall x | x in ScanIdsOf(head) ensures x in set s | s in scans && s.petId == p.id :: s.id {
      var r :| r in head && r.scan.Some? && r.scan.value.id == x;
      assert r.scan.value in ScansOf(scans, p.id);
    }
    forall x | x in set s | s in scans && s.petId == p.id :: s.id ensures x in ScanIdsOf(head) {
      var s :| s in scans && s.petId == p.id && s.id == x;
      assert s in ScansOf(scans, p.id);
      var r :| r in head && r.scan == Some(s);
    }
  }

  /** The scan ids of the join rows are the ids of the scans of the pets. */
  lemma {:induction false} JoinScanIds(ps: seq<PetRow>, scans: seq<ScanRow>)
    ensures ScanIdsOf(JoinRows(ps, scans)) == set s | s in scans && s.petId in IdsOf(ps) :: s.id
    decreases |ps|
  {
    if ps != [] {
      JoinScanIds(ps[1..], scans);
      ScanIdsOfAppend(PetJoinRows(ps[0], scans), JoinRows(ps[1..], scans));
      PetJoinScanIds(ps[0], scans);
      IdsOfCons(ps);
    }
  }

  /** What a pet adds to `lost_pets` as written: all its join rows when it is lost. */
  function LostWeight(ps: seq<PetRow>, scans: seq<ScanRow>): nat
    decreases |ps|
  {
    if ps == [] then 0
    else
      var k := |ScansOf(scans, ps[0].id)|;
      (if ps[0].isLost then (if k == 0 then 1 else k) else 0) + LostWeight(ps[1..], scans)
  }

  lemma {:induction false} LostSumAppend(a: seq<JoinRow>, b: seq<JoinRow>)
    ensures LostSum(a + b) == LostSum(a) + LostSum(b)
    decreases |a|
  {
    if a != [] {
      assert (a + b)[0] == a[0];
      assert (a + b)[1..] == a[1..] + b;
      LostSumAppend(a[1..], b);
    } else {
      assert a + b == b;
    }
  }

  lemma {:induction false} LostSumOfOnePet(rows: seq<JoinRow>, p: PetRow)
    requires forall r :: r in rows ==> r.pet == p
    ensures LostSum(rows) == if p.isLost then |rows| else 0
    decreases |rows|
  {
    if rows != [] {
      assert forall r :: r in rows[1..] ==> r in rows;
      LostSumOfOnePet(rows[1..], p);
    }
  }

  /** Over the join rows, a lost pet with k scans adds max(1, k) to the sum. */
  lemma {:induction false} JoinLostSum(ps: seq<PetRow>, scans: seq<ScanRow>)
    ensures LostSum(JoinRows(ps, scans)) == LostWeight(ps, scans)
    decreases |ps|
  {
    if ps != [] {
      var head := PetJoinRows(ps[0], scans);
      JoinLostSum(ps[1..], scans);
      LostSumAppend(head, JoinRows(ps[1..], scans));
      LostSumOfOnePet(head, ps[0]);
    }
  }

  /** What `getUserStats` reports: the number of the caller's active pets, the number of
      scans of those pets, and a `lost_pets` that counts each lost pet once per join row
      (or NULL when the caller has no active pet). */
  lemma UserStatsAsWritten(pets: seq<PetRow>, scans: seq<ScanRow>, userId: nat)
    ensures var st := GetUserStats(pets, scans, userId).payload;
            var active := ActivePetsOf(pets, userId);
            st.totalPets == |set p | p in pets && p.userId == userId && p.isActive :: p.id|
            && st.totalScans == |set s | s in scans && s.petId in IdsOf(active) :: s.id|
            && st.lostPets == (if active == [] then None else Some(LostWeight(active, scans)))
  {
    var active := ActivePetsOf(pets, userId);
    JoinPetIds(active, scans);
    JoinScanIds(active, scans);
    JoinLostSum(active, scans);
    assert IdsOf(active) == set p | p in pets && p.userId == userId && p.isActive :: p.id;
  }

  /** A pet for the worked example below: active, lost, owned by user 7. */
  const SampleLostPet: PetRow :=
    PetRow(1, 7, "PET_X", Str("Max"), Str("Perro"), Null, Null, Null, Null, Null, Null, Null,
           Null, false, Null, Null, Null, Null, Null, Null, Null, Null, Null, Null,
           TagQrCode("http://localhost:3000/pet/PET_X"), true, true, 0, 0)

  const SampleScans: seq<ScanRow> :=
    [ScanRow(1, 1, Null, Null, Null, Null, 10), ScanRow(2, 1, Null, Null, Null, Null, 20)]

  /** As written, one lost pet scanned twice makes `lost_pets` 2 while `total_pets` is 1. */
  lemma LostPetsOvercount()
    ensures GetUserStats([SampleLostPet], SampleScans, 7).payload.totalPets == 1
    ensures GetUserStats([SampleLostPet], SampleScans, 7).payload.lostPets == Some(2)
  {
    assert ActivePetsOf([SampleLostPet], 7) == [SampleLostPet];
    assert SampleScans[1..][1..] == [];
    assert ScansOf(SampleScans, 1) == SampleScans;
    UserStatsAsWritten([SampleLostPet], SampleScans, 7);
    assert (set p | p in [SampleLostPet] && p.userId == 7 && p.isActive :: p.id) == {1};
  }

  /** The evident intent of `lost_pets`: the number of the caller's active pets that are
      lost, each counted once. */
  function LostPetsIntended(pets: seq<PetRow>, userId: nat): nat {
    |set p | p in pets && p.userId == userId && p.isActive && p.isLost :: p.id|
  }

  /** `getUserStats` with `lost_pets` counted per pet rather than per join row. */
  function GetUserStatsIntended(pets: seq<PetRow>, scans: seq<ScanRow>, userId: nat)
    : Response<Stats>
  {
    var st := GetUserStats(pets, scans, userId).payload;
    Ok(200, st.(lostPets := Some(LostPetsIntended(pets, userId))))
  }

  /** With that count, `lost_pets` never exceeds `total_pets` ... */
  lemma IntendedLostBounded(pets: seq<PetRow>, scans: seq<ScanRow>, userId: nat)
    ensures var st := GetUserStatsIntended(pets, scans, userId).payload;
            st.lostPets.Some? && st.lostPets.value <= st.totalPets
  {
    var active := ActivePetsOf(pets, userId);
    JoinPetIds(active, scans);
    var lost := set p | p in pets && p.userId == userId && p.isActive && p.isLost :: p.id;
    forall x | x in lost ensures x in IdsOf(active) {
      var p :| p in pets && p.userId == userId && p.isActive && p.isLost && p.id == x;
      assert p in active;
    }
    SubsetCard(lost, IdsOf(active));
  }

  lemma {:induction false} SubsetCard(a: set<nat>, b: set<nat>)
    requires a <= b
    ensures |a| <= |b|
    decreases |a|
  {
    if a != {} {
      var x :| x in a;
      SubsetCard(a - {x}, b - {x});
    }
  }

  /** One more scan adds nothing to a lost pet's weight in `lost_pets` unless it is a scan
      of that pet. */
  lemma {:induction false} WeightIgnoresOtherScans(ps: seq<PetRow>, scans: seq<ScanRow>, s: ScanRow)
    requires forall p :: p in ps ==> p.id != s.petId
    ensures LostWeight(ps, scans + [s]) == LostWeight(ps, scans)
    decreases |ps|
  {
    if ps != [] {
      ScansOfSnoc(scans, s, ps[0].id);
      assert forall p :: p in ps[1..] ==> p in ps;
      WeightIgnoresOtherScans(ps[1..], scans, s);
    }
  }

  lemma {:induction false} ScansOfSnoc(scans: seq<ScanRow>, s: ScanRow, petId: nat)
    ensures ScansOf(scans + [s], petId) == ScansOf(scans, petId) + (if s.petId == petId then [s] else [])
    decreases |scans|
  {
    var e := if s.petId == petId then [s] else [];
    if scans == [] {
      assert [s][1..] == [];
      assert ScansOf([s], petId) == e + ScansOf([], petId);
      assert scans + [s] == [s];
    } else {
      var t := scans + [s];
      assert t[0] == scans[0];
      assert t[1..] == scans[1..] + [s];
      ScansOfSnoc(scans[1..], s, petId);
      var h := if scans[0].petId == petId then [scans[0]] else [];
      calc {
        ScansOf(t, petId);
        h + ScansOf(t[1..], petId);
        h + (ScansOf(scans[1..], petId) + e);
        (h + ScansOf(scans[1..], petId)) + e;
      }
    }
  }

  /** One further scan of an already scanned lost pet adds one to its weight. */
  lemma RescanOnePet(p: PetRow, scans: seq<ScanRow>, s: ScanRow)
    requires p.isLost && p.id == s.petId && ScansOf(scans, s.petId) != []
    ensures LostWeight([p], scans + [s]) == LostWeight([p], scans) + 1
  {
    ScansOfSnoc(scans, s, p.id);
  }

  /** A scan of another pet leaves a pet's weight as it was. */
  lemma OtherScanOnePet(ps: seq<PetRow>, scans: seq<ScanRow>, s: ScanRow)
    requires |ps| <= 1 && forall p :: p in ps ==> p.id != s.petId
    ensures LostWeight(ps, scans + [s]) == LostWeight(ps, scans)
  {
    if ps != [] {
      ScansOfSnoc(scans, s, ps[0].id);
    }
  }

  /** The active pets after the first one have ids above the first one's. */
  lemma TailIdsAbove(pets: seq<PetRow>, userId: nat)
    requires pets != []
    requires forall i, j :: 0 <= i < j < |pets| ==> pets[i].id < pets[j].id
    ensures forall p :: p in ActivePetsOf(pets[1..], userId) ==> p.id > pets[0].id
  {
    forall p | p in ActivePetsOf(pets[1..], userId) ensures p.id > pets[0].id {
      var j :| 0 <= j < |pets[1..]| && pets[1..][j] == p;
      assert pets[j + 1] == p;
    }
  }

  /** Over the caller's active pets, listed in id order: a further scan of a lost pet that
      was already scanned adds one to the as-written `lost_pets`. */
  lemma {:induction false} RescanAddsWeight(pets: seq<PetRow>, scans: seq<ScanRow>, userId: nat,
                                            s: ScanRow, k: nat)
    requires forall i, j :: 0 <= i < j < |pets| ==> pets[i].id < pets[j].id
    requires k < |pets| && pets[k].userId == userId && pets[k].isActive && pets[k].isLost
    requires pets[k].id == s.petId && ScansOf(scans, s.petId) != []
    ensures LostWeight(ActivePetsOf(pets, userId), scans + [s])
            == LostWeight(ActivePetsOf(pets, userId), scans) + 1
    decreases |pets|
  {
    var head := if pets[0].userId == userId && pets[0].isActive then [pets[0]] else [];
    var tail := ActivePetsOf(pets[1..], userId);
    assert ActivePetsOf(pets, userId) == head + tail;
    LostWeightAppend(head, tail, scans);
    LostWeightAppend(head, tail, scans + [s]);
    if k == 0 {
      RescanOnePet(pets[0], scans, s);
      TailIdsAbove(pets, userId);
      WeightIgnoresOtherScans(tail, scans, s);
    } else {
      assert pets[0].id < pets[k].id;
      OtherScanOnePet(head, scans, s);
      assert pets[1..][k - 1] == pets[k];
      RescanAddsWeight(pets[1..], scans, userId, s, k - 1);
    }
  }

  lemma {:induction false} LostWeightAppend(a: seq<PetRow>, b: seq<PetRow>, scans: seq<ScanRow>)
    ensures LostWeight(a + b, scans) == LostWeight(a, scans) + LostWeight(b, scans)
    decreases |a|
  {
    if a == [] {
      assert a + b == b;
    } else {
      assert (a + b)[0] == a[0];
      assert (a + b)[1..] == a[1..] + b;
      LostWeightAppend(a[1..], b, scans);
    }
  }

  lemma StatsLostIsWeight(pets: seq<PetRow>, scans: seq<ScanRow>, userId: nat, active: seq<PetRow>)
    requires active == ActivePetsOf(pets, userId) && active != []
    ensures GetUserStats(pets, scans, userId).payload.lostPets == Some(LostWeight(active, scans))
  {
    JoinLostSum(active, scans);
  }

  lemma IntendedLostIsPerPet(pets: seq<PetRow>, scans: seq<ScanRow>, userId: nat)
    ensures GetUserStatsIntended(pets, scans, userId).payload.lostPets
            == Some(LostPetsIntended(pets, userId))
  {
  }

  /** The overcount grows with the scans while the per-pet count does not: in a pets table
      kept in id order, one more scan of a lost pet that was already scanned raises
      `lost_pets` as written by one and leaves the intended count as it was. */
  lemma RescanOvercounts(pets: seq<PetRow>, scans: seq<ScanRow>, userId: nat, s: ScanRow, k: nat)
    requires forall i, j :: 0 <= i < j < |pets| ==> pets[i].id < pets[j].id
    requires k < |pets| && pets[k].userId == userId && pets[k].isActive && pets[k].isLost
    requires pets[k].id == s.petId && ScansOf(scans, s.petId) != []
    ensures GetUserStats(pets, scans, userId).payload.lostPets.Some?
    ensures GetUserStats(pets, scans + [s], userId).payload.lostPets
            == Some(GetUserStats(pets, scans, userId).payload.lostPets.value + 1)
    ensures GetUserStatsIntended(pets, scans + [s], userId).payload.lostPets
            == GetUserStatsIntended(pets, scans, userId).payload.lostPets
  {
    assert pets[k] in ActivePetsOf(pets, userId);
    RescanAddsWeight(pets, scans, userId, s, k);
    LostStatsStep(pets, scans, scans + [s], userId);
    IntendedLostIsPerPet(pets, scans, userId);
    IntendedLostIsPerPet(pets, scans + [s], userId);
  }

  lemma LostStatsStep(pets: seq<PetRow>, before: seq<ScanRow>, after: seq<ScanRow>, userId: nat)
    requires ActivePetsOf(pets, userId) != []
    requires LostWeight(ActivePetsOf(pets, userId), after)
             == LostWeight(ActivePetsOf(pets, userId), before) + 1
    ensures GetUserStats(pets, before, userId).payload.lostPets.Some?
    ensures GetUserStats(pets, after, userId).payload.lostPets
            == Some(GetUserStats(pets, before, userId).payload.lostPets.value + 1)
  {
    var active := ActivePetsOf(pets, userId);
    StatsLostIsWeight(pets, before, userId, active);
    StatsLostIsWeight(pets, after, userId, active);
  }

  // ---------------------------------------------------------------- placeholders

  const NotImplemented: string := "TODO: Implementar"

  function UpdateProfile(): Response<string> {
    Ok(200, NotImplemented)
  }

  function ChangePassword(): Response<string> {
    Ok(200, NotImplemented)
  }

  function DeleteAccount(): Response<string> {
    Ok(200, NotImplemented)
  }

  /** `updateProfile`, `changePassword` and `deleteAccount` report success whatever the
      request and take no database, so no row changes. */
  lemma UserStubs()
    ensures UpdateProfile() == ChangePassword() == DeleteAccount() == Ok(200, NotImplemented)
  {
  }
}
