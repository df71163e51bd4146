/** The two starting points: empty tables, and the demonstration rows written at start-up. */
module Seeds {
  import opened Records
  import opened StatusGraph
  import opened Rules
  import opened Tables
  import opened Machine
  import opened Invariants
  import opened Fields

  const NOTHING := State(EMPTY, map[], {}, map[])

  lemma NothingIsInitial()
    ensures Initial(NOTHING) && SoundState(NOTHING)
  {
  }

  function SeedEntry(row: Row): Entry {
    Entry(row, Seeded("system-seed", "seed-gb-515"), Absent)
  }

  /** One demonstration row at version 1 with its "system-seed" revision and no audit. */
  function SeedOne(s: State, key: Key, row: Row): State {
    var e := SeedEntry(row);
    s.(db := s.db.(rows := s.db.rows[key := row], revisions := s.db.revisions + [RevisionOf(key, e)]),
       trail := s.trail[key := [e]])
  }

  predicate Seedable(s: State, key: Key, row: Row) {
    && key !in s.db.rows && !CodeTaken(s.db, key.entity, row.code)
    && row.version == 1 && !row.deleted && Fits(key.entity, row) && Sound(row)
  }

  lemma SeedOneKeepsKey(s: State, key: Key, row: Row, other: Key)
    requires KeyOK(s, other) && KeyOK(s, key) && Seedable(s, key, row)
    ensures KeyOK(SeedOne(s, key, row), other)
  {
    var s', e := SeedOne(s, key, row), SeedEntry(row);
    RevisionsOfAppend(s.db.revisions, RevisionOf(key, e), other);
    if other == key {
      assert Trail(s, key) == [];
      assert [e][..0] == [];
    } else {
      assert Trail(s', other) == Trail(s, other);
    }
  }

  lemma SeedOneKeepsInitial(s: State, key: Key, row: Row)
    requires Initial(s) && SoundState(s) && Seedable(s, key, row)
    ensures Initial(SeedOne(s, key, row)) && SoundState(SeedOne(s, key, row))
  {
    var s' := SeedOne(s, key, row);
    forall other ensures KeyOK(s', other) {
      assert KeyOK(s, other) && KeyOK(s, key);
      SeedOneKeepsKey(s, key, row, other);
    }
    forall other | other in s'.db.rows
      ensures var t := Trail(s', other); |t| == 1 && SeedFor(t[0], s'.db.rows[other])
    {
      assert other != key ==> Trail(s', other) == Trail(s, other);
    }
  }

  function Certificate(id: nat, code: string, status: Status, verifiedBy: string,
                       fields: Key -> BusinessFields, now: nat): Row {
    Row(code, status, 1, fields(Key(CertificateRecord, id)), CertificateControl("operator", verifiedBy),
        now, now, false)
  }

  function Authorization(id: nat, code: string, status: Status, control: Control,
                         fields: Key -> BusinessFields, now: nat): Row {
    Row(code, status, 1, fields(Key(ReleaseAuthorization, id)), control, now, now, false)
  }

  function TwoCertificates(fields: Key -> BusinessFields, now: nat): State {
    var s1 := SeedOne(NOTHING, Key(CertificateRecord, 1), Certificate(1, "CR-001", Draft, "", fields, now));
    SeedOne(s1, Key(CertificateRecord, 2), Certificate(2, "CR-002", Valid, "reviewer", fields, now))
  }

  function SeededCertificates(fields: Key -> BusinessFields, now: nat): State {
    SeedOne(TwoCertificates(fields, now), Key(CertificateRecord, 3),
            Certificate(3, "CR-003", Expired, "reviewer", fields, now))
  }

  /** The state of a fresh installation, whatever the demonstration texts are. */
  function SeededState(fields: Key -> BusinessFields, now: nat): State {
    var s3 := SeededCertificates(fields, now);
    var s4 := SeedOne(s3, Key(ReleaseAuthorization, 1),
                      Authorization(1, "RA-001", Draft, AuthorizationControl("", "", ""), fields, now));
    var s5 := SeedOne(s4, Key(ReleaseAuthorization, 2),
                      Authorization(2, "RA-002", Review, AuthorizationControl("operator", "", ""), fields, now));
    SeedOne(s5, Key(ReleaseAuthorization, 3),
            Authorization(3, "RA-003", Approved,
                          AuthorizationControl("operator", "reviewer", "演示数据双人复核通过"), fields, now))
  }

  lemma NamesDiffer()
    ensures "operator" != "reviewer" && "operator" != "" && "reviewer" != ""
    ensures "CR-001" != "CR-002" && "CR-001" != "CR-003" && "CR-002" != "CR-003"
    ensures "RA-001" != "RA-002" && "RA-001" != "RA-003" && "RA-002" != "RA-003"
  {
  }

  /** A row that follows others of its table, all with other codes, can be seeded. */
  lemma NextSeed(s: State, key: Key, row: Row)
    requires Initial(s) && SoundState(s) && key !in s.db.rows
    requires forall k | k in s.db.rows && k.entity == key.entity :: s.db.rows[k].code != row.code
    requires row.version == 1 && !row.deleted && Fits(key.entity, row) && Sound(row)
    ensures var s' := SeedOne(s, key, row);
            Initial(s') && SoundState(s') && s'.db.rows == s.db.rows[key := row]
  {
    SeedOneKeepsInitial(s, key, row);
  }

  lemma TwoCertificatesAreInitial(fields: Key -> BusinessFields, now: nat)
    ensures var s := TwoCertificates(fields, now);
            && Initial(s) && SoundState(s)
            && s.db.rows == map[
                 Key(CertificateRecord, 1) := Certificate(1, "CR-001", Draft, "", fields, now),
                 Key(CertificateRecord, 2) := Certificate(2, "CR-002", Valid, "reviewer", fields, now)]
  {
    hide Initial, SoundState, SeedOne;
    NothingIsInitial();
    NamesDiffer();
    var k1, r1 := Key(CertificateRecord, 1), Certificate(1, "CR-001", Draft, "", fields, now);
    NextSeed(NOTHING, k1, r1);
    NextSeed(SeedOne(NOTHING, k1, r1), Key(CertificateRecord, 2),
             Certificate(2, "CR-002", Valid, "reviewer", fields, now));
  }

  lemma SeededCertificatesAreInitial(fields: Key -> BusinessFields, now: nat)
    ensures var s := SeededCertificates(fields, now);
            Initial(s) && SoundState(s) && (forall key | key in s.db.rows :: key.entity == CertificateRecord)
  {
    hide Initial, SoundState, SeedOne;
    TwoCertificatesAreInitial(fields, now);
    NamesDiffer();
    NextSeed(TwoCertificates(fields, now), Key(CertificateRecord, 3),
             Certificate(3, "CR-003", Expired, "reviewer", fields, now));
  }

  /** The seeded tables satisfy everything that the theorems ask of a starting point. */
  lemma SeededIsInitial(fields: Key -> BusinessFields, now: nat)
    ensures Initial(SeededState(fields, now)) && SoundState(SeededState(fields, now))
  {
    hide Initial, SoundState, SeedOne;
    SeededCertificatesAreInitial(fields, now);
    NamesDiffer();
    var s3 := SeededCertificates(fields, now);
    var k1, k2 := Key(ReleaseAuthorization, 1), Key(ReleaseAuthorization, 2);
    var r1 := Authorization(1, "RA-001", Draft, AuthorizationControl("", "", ""), fields, now);
    var r2 := Authorization(2, "RA-002", Review, AuthorizationControl("operator", "", ""), fields, now);
    NextSeed(s3, k1, r1);
    NextSeed(SeedOne(s3, k1, r1), k2, r2);
    NextSeed(SeedOne(SeedOne(s3, k1, r1), k2, r2), Key(ReleaseAuthorization, 3),
             Authorization(3, "RA-003", Approved,
                           AuthorizationControl("operator", "reviewer", "演示数据双人复核通过"), fields, now));
  }
}
