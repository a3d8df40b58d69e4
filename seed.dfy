/** `insertDefaultVaccines` (src/backend/config/database.js): nine vaccines for Bolivia,
    each written with `INSERT OR IGNORE` under UNIQUE(name, species). */
module Seed {

  import opened Schema

  datatype VaccineSeed = VaccineSeed(name: string, species: string, required: nat,
                                     frequency: nat, description: string)

  const DefaultVaccines: seq<VaccineSeed> := [
    VaccineSeed("Antirrábica", "Perro", 1, 12, "Vacuna obligatoria contra la rabia"),
    VaccineSeed("Parvovirus", "Perro", 1, 12, "Protección contra parvovirus canino"),
    VaccineSeed("Moquillo", "Perro", 1, 12, "Protección contra distemper canino"),
    VaccineSeed("Hepatitis", "Perro", 1, 12, "Protección contra hepatitis infecciosa"),
    VaccineSeed("Séxtuple", "Perro", 1, 12, "Vacuna combinada séxtuple"),
    VaccineSeed("Bordetella", "Perro", 0, 6, "Protección contra tos de las perreras"),
    VaccineSeed("Antirrábica", "Gato", 1, 12, "Vacuna obligatoria contra la rabia"),
    VaccineSeed("Triple Felina", "Gato", 1, 12, "Panleucopenia, Rinotraqueitis, Calicivirus"),
    VaccineSeed("Leucemia Felina", "Gato", 0, 12, "Protección contra leucemia felina")
  ]

  /** The vaccines table with its AUTOINCREMENT counter. */
  datatype VaccineTable = VaccineTable(rows: seq<VaccineRow>, next: nat)

  predicate HasPair(rows: seq<VaccineRow>, name: string, species: string) {
    exists k :: 0 <= k < |rows| && rows[k].name == name && rows[k].species == species
  }

  /** The row `stmt.run` writes for a seed: its values, with `is_active` 1. */
  function SeededRow(id: nat, v: VaccineSeed): VaccineRow {
    VaccineRow(id, v.name, v.species, v.required, v.frequency, v.description, true)
  }

  /** One `stmt.run`: the seed's row, unless a row with
      the same (name, species) is already there, in which case no row is written. The
      model takes it that such an ignored insert leaves the AUTOINCREMENT counter where
      it was; `ReseedKeepsRows` states what holds without that assumption. */
  function InsertOrIgnore(t: VaccineTable, v: VaccineSeed): (r: VaccineTable)
    ensures HasPair(r.rows, v.name, v.species)
    ensures HasPair(t.rows, v.name, v.species) ==> r == t
  {
    if HasPair(t.rows, v.name, v.species) then t
    else
      var row := SeededRow(t.next, v);
      assert (t.rows + [row])[|t.rows|] == row;
      VaccineTable(t.rows + [row], t.next + 1)
  }

  /** The `forEach` over the seeds, in order. */
  function SeedAll(t: VaccineTable, vs: seq<VaccineSeed>): VaccineTable
    decreases |vs|
  {
    if vs == [] then t else InsertOrIgnore(SeedAll(t, vs[..|vs| - 1]), vs[|vs| - 1])
  }

  lemma InsertOrIgnoreKeepsValid(t: VaccineTable, v: VaccineSeed)
    requires VaccinesValid(t.rows, t.next)
    ensures VaccinesValid(InsertOrIgnore(t, v).rows, InsertOrIgnore(t, v).next)
    ensures t.next <= InsertOrIgnore(t, v).next
    ensures t.rows <= InsertOrIgnore(t, v).rows
  {
    if !HasPair(t.rows, v.name, v.species) {
      var r := InsertOrIgnore(t, v).rows;
      forall i, j | 0 <= i < j < |r| ensures (r[i].name, r[i].species) != (r[j].name, r[j].species) {
        if j == |t.rows| { assert r[i] == t.rows[i]; }
      }
    }
  }

  lemma {:induction false} SeedAllKeepsValid(t: VaccineTable, vs: seq<VaccineSeed>)
    requires VaccinesValid(t.rows, t.next)
    ensures VaccinesValid(SeedAll(t, vs).rows, SeedAll(t, vs).next)
    ensures t.rows <= SeedAll(t, vs).rows && t.next <= SeedAll(t, vs).next
    decreases |vs|
  {
    if vs != [] {
      SeedAllKeepsValid(t, vs[..|vs| - 1]);
      InsertOrIgnoreKeepsValid(SeedAll(t, vs[..|vs| - 1]), vs[|vs| - 1]);
    }
  }

  lemma InsertOrIgnoreKeepsPairs(t: VaccineTable, v: VaccineSeed, name: string, species: string)
    requires HasPair(t.rows, name, species)
    ensures HasPair(InsertOrIgnore(t, v).rows, name, species)
  {
    var k :| 0 <= k < |t.rows| && t.rows[k].name == name && t.rows[k].species == species;
    assert InsertOrIgnore(t, v).rows[k] == t.rows[k];
  }

  /** After seeding, every seeded (name, species) pair is in the table. */
  lemma {:induction false} SeedAllPresent(t: VaccineTable, vs: seq<VaccineSeed>)
    ensures forall v :: v in vs ==> HasPair(SeedAll(t, vs).rows, v.name, v.species)
    decreases |vs|
  {
    if vs != [] {
      var front := vs[..|vs| - 1];
      SeedAllPresent(t, front);
      forall v | v in vs ensures HasPair(SeedAll(t, vs).rows, v.name, v.species) {
        if v in front {
          InsertOrIgnoreKeepsPairs(SeedAll(t, front), vs[|vs| - 1], v.name, v.species);
        } else {
          assert v == vs[|vs| - 1];
        }
      }
    }
  }

  /** Seeding a table that already holds every seeded pair changes nothing. */
  lemma {:induction false} SeedAllPresentIsIdentity(t: VaccineTable, vs: seq<VaccineSeed>)
    requires forall v :: v in vs ==> HasPair(t.rows, v.name, v.species)
    ensures SeedAll(t, vs) == t
    decreases |vs|
  {
    if vs != [] {
      SeedAllPresentIsIdentity(t, vs[..|vs| - 1]);
      assert vs[|vs| - 1] in vs;
    }
  }

  /** Running the seeding again (as every start of the server does) changes nothing. */
  lemma SeedIdempotent(t: VaccineTable, vs: seq<VaccineSeed>)
    ensures SeedAll(SeedAll(t, vs), vs) == SeedAll(t, vs)
  {
    SeedAllPresent(t, vs);
    SeedAllPresentIsIdentity(SeedAll(t, vs), vs);
  }

  /** Whatever the AUTOINCREMENT counter stands at when the seeding runs again, the rows
      it leaves are those of the first run: every insert of the second run is ignored. */
  lemma ReseedKeepsRows(t: VaccineTable, vs: seq<VaccineSeed>, next: nat)
    ensures SeedAll(VaccineTable(SeedAll(t, vs).rows, next), vs).rows == SeedAll(t, vs).rows
  {
    SeedAllPresent(t, vs);
    SeedAllPresentIsIdentity(VaccineTable(SeedAll(t, vs).rows, next), vs);
  }

  predicate DistinctPairs(vs: seq<VaccineSeed>) {
    forall i, j :: 0 <= i < j < |vs| ==> (vs[i].name, vs[i].species) != (vs[j].name, vs[j].species)
  }

  /** The rows the seeds `vs` get when each is written, ids counting up from `next`. */
  function Seeded(next: nat, vs: seq<VaccineSeed>): (rows: seq<VaccineRow>)
    ensures |rows| == |vs|
  {
    seq(|vs|, i requires 0 <= i < |vs| => SeededRow(next + i, vs[i]))
  }

  lemma SeededLast(next: nat, vs: seq<VaccineSeed>)
    requires vs != []
    ensures Seeded(next, vs) == Seeded(next, vs[..|vs| - 1]) + [SeededRow(next + |vs| - 1, vs[|vs| - 1])]
  {
  }

  /** A seed whose pair is neither in `rows` nor among the seeds `front` is not in the table
      that writing `front` after `rows` gives. */
  lemma AbsentAfterFront(rows: seq<VaccineRow>, next: nat, front: seq<VaccineSeed>, v: VaccineSeed)
    requires !HasPair(rows, v.name, v.species)
    requires forall i :: 0 <= i < |front| ==> (front[i].name, front[i].species) != (v.name, v.species)
    ensures !HasPair(rows + Seeded(next, front), v.name, v.species)
  {
    var all := rows + Seeded(next, front);
    forall k | 0 <= k < |all| ensures (all[k].name, all[k].species) != (v.name, v.species) {
      if k >= |rows| {
        assert all[k] == SeededRow(next + k - |rows|, front[k - |rows|]);
      } else {
        assert all[k] == rows[k];
      }
    }
  }

  /** Seeds with distinct pairs, none of them already present, are all written, in order,
      one id after the other. */
  lemma {:induction false} SeedAllFresh(t: VaccineTable, vs: seq<VaccineSeed>)
    requires DistinctPairs(vs)
    requires forall v :: v in vs ==> !HasPair(t.rows, v.name, v.species)
    ensures SeedAll(t, vs).next == t.next + |vs|
    ensures SeedAll(t, vs).rows == t.rows + Seeded(t.next, vs)
    decreases |vs|
  {
    if vs != [] {
      var n := |vs| - 1;
      var front := vs[..n];
      assert forall v :: v in front ==> v in vs;
      assert DistinctPairs(front);
      SeedAllFresh(t, front);
      var mid := SeedAll(t, front);
      assert vs[n] in vs;
      AbsentAfterFront(t.rows, t.next, front, vs[n]);
      SeededLast(t.next, vs);
      assert SeedAll(t, vs) == InsertOrIgnore(mid, vs[n]);
    }
  }

  /** On an empty table the seeding writes the nine vaccines in list order, with ids 1 to 9. */
  lemma FreshSeed()
    ensures var r := SeedAll(VaccineTable([], 1), DefaultVaccines);
            r.next == 10
            && r.rows == Seeded(1, DefaultVaccines)
  {
    assert DistinctPairs(DefaultVaccines);
    SeedAllFresh(VaccineTable([], 1), DefaultVaccines);
  }

  /** `insertDefaultVaccines`: one INSERT OR IGNORE per seed, in order. */
  method InsertDefaultVaccines(db: Database)
    requires db.Valid()
    modifies db`vaccines, db`nextVaccineId
    ensures db.Valid()
    ensures VaccineTable(db.vaccines, db.nextVaccineId)
            == SeedAll(VaccineTable(old(db.vaccines), old(db.nextVaccineId)), DefaultVaccines)
  {
    ghost var start := VaccineTable(db.vaccines, db.nextVaccineId);
    for i := 0 to |DefaultVaccines|
      invariant VaccineTable(db.vaccines, db.nextVaccineId) == SeedAll(start, DefaultVaccines[..i])
      invariant VaccinesValid(db.vaccines, db.nextVaccineId)
      invariant start.rows <= db.vaccines
    {
      var v := DefaultVaccines[i];
      assert DefaultVaccines[..i + 1][..i] == DefaultVaccines[..i];
      InsertOrIgnoreKeepsValid(VaccineTable(db.vaccines, db.nextVaccineId), v);
      if !HasPair(db.vaccines, v.name, v.species) {
        db.vaccines := db.vaccines + [SeededRow(db.nextVaccineId, v)];
        db.nextVaccineId := db.nextVaccineId + 1;
      }
    }
    assert DefaultVaccines[..|DefaultVaccines|] == DefaultVaccines;
    VaccinesGrowKeepsValid(db);
  }
}
