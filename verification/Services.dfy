/** What both services promise about one request, whatever other requests do meanwhile. */
module Service {
  import opened Records
  import opened Rules
  import opened Tables
  import opened Ledger
  import opened Rely
  import opened Repositories

  /** The request's own version in the history it is answered with, told in its own words. */
  ghost predicate ShowsOwnVersion(key: Key, req: Request, answer: Answer) {
    && Covers(answer)
    && req.expected + 1 <= answer.row.version
    && TellsOf(answer.revisions[req.expected], key, req)
  }

  /** The transactions a request performs: one, if it finds its row on db0, its checks pass and it commits on mid. */
  function Writes(db0: Database, mid: Database, key: Key, req: Request, faults: Faults): seq<(Database, Database)> {
    if Fetched(db0, key, faults.reading).Err? || Prepare(db0.rows[key], req).Err? || !faults.writing.NoFault? then []
    else
      match CommitTx(mid, key, req, db0.rows[key], Prepare(db0.rows[key], req).value)
      case Err(_) => []
      case Ok(committed) => [(mid, committed)]
  }

  /** The effect and the answer of a request that read db0 and, if its checks passed, tried to commit on mid.

      A request that cannot read or is refused reports the first thing that stopped it and writes nothing. An
      accepted one either commits on mid as a whole and is answered from a later state, if it can be read, or
      leaves mid alone. */
  ghost predicate Served(db0: Database, mid: Database, db': Database, key: Key, req: Request, faults: Faults,
                         did: seq<(Database, Database)>, r: Result<Answer>) {
    && did == Writes(db0, mid, key, req, faults)
    && match Fetched(db0, key, faults.reading)
       case Err(e) => r == Err(e)
       case Ok(row) =>
         match Prepare(row, req)
         case Err(e) => r == Err(e)
         case Ok(item) =>
           && Evolves(db0, mid)
           && match CommitTx(mid, key, req, row, item)
              case Err(e) =>
                e == VersionConflict && r == Err(if faults.writing.AtRow? then StoreFailure else e) && db' == mid
              case Ok(committed) =>
                if !faults.writing.NoFault? then r == Err(StoreFailure) && db' == mid
                else
                  && Evolves(committed, db')
                  && (r.Ok? ==>
                        && ShowsOwnVersion(key, req, r.value)
                        && (r.value.row.version == req.expected + 1 ==> r.value.row == committed.rows[key]))
                  && UnansweredOnly(r, faults.answering)
  }

  /** The closing Get can only miss a row that was deleted meanwhile, or fail. */
  predicate UnansweredOnly(r: Result<Answer>, answering: QueryFault) {
    match r
    case Ok(_) => answering.QueriesWork?
    case Err(e) => e == NotFound || (e == StoreFailure && !answering.QueriesWork?)
  }

  lemma RefusalIsServed(db0: Database, db': Database, key: Key, req: Request, faults: Faults,
                        did: seq<(Database, Database)>, e: Error)
    requires did == []
    requires match Fetched(db0, key, faults.reading)
             case Err(missing) => e == missing
             case Ok(row) => Prepare(row, req) == Err(e)
    ensures Served(db0, db0, db', key, req, faults, did, Err(e))
  {
  }

  lemma RowsFit(db: Database, key: Key)
    requires DatabaseValid(db)
    ensures Live(db, key) ==> Fits(key.entity, db.rows[key])
  {
    assert RecordValid(db, key);
  }

  /** What was added to a journal. */
  function Since(journal: seq<(Database, Database)>, before: seq<(Database, Database)>): seq<(Database, Database)>
    requires |before| <= |journal|
  {
    journal[|before|..]
  }

  /** Served, for a client that names a version it has received: the commit replaced the row that was read. */
  lemma ServedExactly(db0: Database, mid: Database, db': Database, key: Key, req: Request,
                      faults: Faults, did: seq<(Database, Database)>, r: Result<Answer>)
    requires Served(db0, mid, db', key, req, faults, did, r) && did != []
    requires req.expected <= db0.rows[key].version
    ensures key in mid.rows && mid.rows[key] == db0.rows[key] && req.expected == db0.rows[key].version
    ensures Atomically(mid, key, req) == CommitTx(mid, key, req, db0.rows[key], Prepare(db0.rows[key], req).value)
  {
    assert RecordEvolves(db0, mid, key);
    SameVersionSameRow(db0, mid, key);
  }

  /** A request that committed wrote what it asked for: the row it read as it edits it, and a revision and an
      audit in its own words. */
  lemma ServedRecords(db0: Database, mid: Database, db': Database, key: Key, req: Request,
                      faults: Faults, did: seq<(Database, Database)>, r: Result<Answer>)
    requires DatabaseValid(db0)
    requires Served(db0, mid, db', key, req, faults, did, r) && did != []
    ensures |did| == 1 && did[0].0 == mid && Live(mid, key) && mid.rows[key].version == req.expected
    ensures Live(db0, key) && WritesRequest(mid, did[0].1, key, req, db0.rows[key])
    ensures r.Ok? ==>
              && ShowsOwnVersion(key, req, r.value)
              && (r.value.row.version == req.expected + 1 ==> Edits(db0.rows[key], req, r.value.row))
  {
    assert RecordValid(db0, key) && RecordEvolves(db0, mid, key);
    hide Evolves, Prepare, Covers;
    CommitWrites(mid, key, req, db0.rows[key]);
  }

  /** Whether a request finds its row. */
  predicate Found(db0: Database, key: Key, faults: Faults) {
    faults.reading.QueriesWork? && Live(db0, key)
  }

  /** Whether the commit of a request finds the version that the request names. */
  predicate Expected(mid: Database, key: Key, req: Request) {
    Live(mid, key) && mid.rows[key].version == req.expected
  }

  /** The error of a request that did not commit is the first thing that stopped it: the queries, then the table
      of refusals, then the database or another request. */
  lemma RefusedExactly(db0: Database, mid: Database, db': Database, key: Key, req: Request, faults: Faults,
                       did: seq<(Database, Database)>, r: Result<Answer>, e: Error)
    requires Served(db0, mid, db', key, req, faults, did, r)
    ensures did == [] <==>
              || !Found(db0, key, faults) || (exists x :: Refuses(db0.rows[key], req, x))
              || !Expected(mid, key, req) || !faults.writing.NoFault?
    ensures e !in {NotFound, VersionConflict, StoreFailure} ==>
              (r == Err(e) <==> Found(db0, key, faults) && Refuses(db0.rows[key], req, e))
    ensures r == Err(VersionConflict) <==>
              && Found(db0, key, faults) && (forall x :: !Refuses(db0.rows[key], req, x))
              && !Expected(mid, key, req) && !faults.writing.AtRow?
    ensures did == [] ==>
              && r.Err?
              && (r == Err(NotFound) <==> !faults.reading.FirstQueryFails? && !Live(db0, key))
    ensures did != [] && r.Err? ==> r.error in {NotFound, StoreFailure}
  {
    hide Evolves, ShowsOwnVersion, Prepare, Refuses;
    if Found(db0, key, faults) {
      var row := db0.rows[key];
      forall x ensures Prepare(row, req) == Err(x) <==> Refuses(row, req, x) {
        RefusalTable(row, req, x);
      }
      RefusalTable(row, req, VersionConflict);
      NoTableForTheRest(row, req);
      if Prepare(row, req).Err? {
        assert Refuses(row, req, Prepare(row, req).error);
      }
    }
  }

  lemma NoTableForTheRest(row: Row, req: Request)
    ensures forall e | e in {NotFound, VersionConflict, StoreFailure, DuplicateCode, DuplicateRevision} ::
              !Refuses(row, req, e)
  {
  }

  /** An answer read from any later state shows the version the commit made. */
  lemma CommitIsOwn(db: Database, committed: Database, later: Database, key: Key, req: Request,
                    snapshot: Row, item: Row, answer: Answer)
    requires Prepare(snapshot, req) == Ok(item)
    requires CommitTx(db, key, req, snapshot, item) == Ok(committed)
    requires DatabaseValid(committed) && DatabaseValid(later) && Evolves(committed, later)
    requires Live(later, key) && answer.row == later.rows[key] && Covers(answer)
    requires answer.revisions[..answer.row.version] == RevisionsOf(later.revisions, key)
    ensures ShowsOwnVersion(key, req, answer)
    ensures answer.row.version == req.expected + 1 ==> answer.row == committed.rows[key]
  {
    PrepareKeepsIdentity(snapshot, req);
    AcceptedRequestsEdit(snapshot, req);
    hide Prepare, Covers;
    assert RecordValid(committed, key) && RecordValid(later, key) && RecordEvolves(committed, later, key);
    var own := committed.revisions[|db.revisions|];
    assert TellsOf(own, key, req);
    hide TellsOf;
    RevisionsOfAppend(db.revisions, own, key);
    var made := RevisionsOf(committed.revisions, key);
    assert made[|made| - 1] == own && |made| == req.expected + 1;
    assert RevisionsOf(later.revisions, key)[req.expected] == made[req.expected];
    assert answer.revisions[req.expected] == answer.revisions[..answer.row.version][req.expected];
  }

  /** A creation is one transaction and answers with its own first version, or it changes nothing. */
  ghost predicate Created(db0: Database, db': Database, key: Key, code: string, fields: BusinessFields,
                          actor: string, requestId: string, now: nat, faults: Faults,
                          did: seq<(Database, Database)>, r: Result<Answer>) {
    if !ValidBusinessFields(code, fields) then r == Err(InvalidInput) && db' == db0 && did == []
    else
      match CreateTx(db0, key, NewRow(key.entity, code, fields, actor, now), actor, requestId)
      case Err(e) => r == Err(if faults.writing.AtRow? then StoreFailure else e) && db' == db0 && did == []
      case Ok(created) =>
        if !faults.writing.NoFault? then r == Err(StoreFailure) && db' == db0 && did == []
        else
          && did == [(db0, created)]
          && Evolves(created, db')
          && UnansweredOnly(r, faults.answering)
          && (r.Ok? ==>
                && Covers(r.value)
                && r.value.row.code == code
                && TellsOfCreation(r.value.revisions[0], key, fields, actor, requestId, now)
                && (r.value.row.version == 1 ==> r.value.row == created.rows[key]))
  }

  /** Every answer a creation can give, and what the database has afterwards, with no word about how. */
  lemma CreatedRecords(db0: Database, db': Database, key: Key, code: string, fields: BusinessFields, actor: string,
                       requestId: string, now: nat, faults: Faults, did: seq<(Database, Database)>,
                       r: Result<Answer>)
    requires DatabaseValid(db0)
    requires Created(db0, db', key, code, fields, actor, requestId, now, faults, did, r)
    ensures did != [] <==> !Blank(code, fields) && Creatable(db0, key, code) && faults.writing.NoFault?
    ensures did != [] ==>
              && |did| == 1 && did[0].0 == db0
              && WritesCreation(db0, did[0].1, key, code, fields, actor, requestId, now)
    ensures r == Err(InvalidInput) <==> Blank(code, fields)
    ensures r == Err(DuplicateCode) <==>
              !Blank(code, fields) && !faults.writing.AtRow? && key !in db0.rows && !Creatable(db0, key, code)
    ensures r.Ok? ==>
              && did != [] && faults.answering.QueriesWork?
              && r.value.revisions != [] && TellsOfCreation(r.value.revisions[0], key, fields, actor, requestId, now)
              && (r.value.row.version == 1 ==> HoldsInput(key.entity, r.value.row, code, fields, actor, now))
    ensures did == [] ==> db' == db0 && r.Err?
  {
    hide Evolves;
    CreationWrites(db0, key, code, fields, actor, requestId, now);
    if !Blank(code, fields) {
      CreateIsValid(db0, key, NewRow(key.entity, code, fields, actor, now), actor, requestId);
    }
  }

  method FinishCreate(store: Store, key: Key, item: Row, actor: string, requestId: string, faults: Faults)
    returns (r: Result<Answer>)
    requires store.Valid()
    requires ValidBusinessFields(item.code, item.fields)
    requires item == NewRow(key.entity, item.code, item.fields, actor, item.createdAt)
    modifies store
    ensures store.Valid() && Evolves(old(store.View()), store.View())
    ensures old(store.journal) <= store.journal
    ensures Created(old(store.View()), store.View(), key, item.code, item.fields, actor, requestId,
                    item.createdAt, faults, Since(store.journal, old(store.journal)), r)
  {
    ghost var db0 := store.View();
    var written := store.CreateVersion(key, item, actor, requestId, faults.writing);
    if written.Err? {
      return Err(written.error);
    }
    ghost var created := store.View();
    store.Interfere();
    ghost var later := store.View();
    EvolvesTransitive(db0, created, later);
    r := store.Get(key, faults.answering);
    EvolvesTransitive(db0, later, store.View());
    EvolvesTransitive(created, later, store.View());
    if r.Ok? {
      CreationIsOwn(db0, created, later, key, item, actor, requestId, r.value);
    }
  }

  lemma CreationIsOwn(db0: Database, created: Database, later: Database, key: Key, item: Row, actor: string,
                      requestId: string, answer: Answer)
    requires CreateTx(db0, key, item, actor, requestId) == Ok(created)
    requires DatabaseValid(db0) && DatabaseValid(created) && DatabaseValid(later) && Evolves(created, later)
    requires Live(later, key) && answer.row == later.rows[key] && Covers(answer)
    requires answer.revisions[..answer.row.version] == RevisionsOf(later.revisions, key)
    ensures answer.row.code == item.code
    ensures answer.revisions[0] == created.revisions[|db0.revisions|]
    ensures item.version == 1 && answer.row.version == 1 ==> answer.row == created.rows[key]
  {
    assert RecordValid(db0, key) && RecordEvolves(created, later, key);
    var own := created.revisions[|db0.revisions|];
    RevisionsOfAppend(db0.revisions, own, key);
    assert RevisionsOf(created.revisions, key) == [own];
    assert answer.revisions[0] == answer.revisions[..answer.row.version][0];
  }

  /** A delete removes the row that is there on mid, checked to be a draft when it was read, and then audits
      it with the status it was read with; the audit is a write of its own and can be the only one to fail. */
  ghost predicate Deleted(db0: Database, mid: Database, db': Database, key: Key, actor: string, requestId: string,
                          faults: DeletionFaults, did: seq<(Database, Database)>, r: Result<()>) {
    match Fetched(db0, key, faults.reading)
    case Err(e) => r == Err(e) && did == []
    case Ok(row) =>
      if row.status != Draft then r == Err(Locked) && did == []
      else
        && Evolves(db0, mid)
        && match if faults.deleting then Err(StoreFailure) else DeleteRow(mid, key)
           case Err(e) => r == Err(e) && db' == mid && did == []
           case Ok(removed) =>
             && did != [] && did[0] == (mid, removed)
             && key in db'.rows && db'.rows[key] == removed.rows[key]
             && if faults.auditing then r == Err(StoreFailure) && |did| == 1
                else
                  && r == Ok(()) && |did| == 2 && did[1].1 == db'
                  && db' == AuditDelete(did[1].0, key, row, actor, requestId)
  }

  /** A delete that writes was checked on a draft, and it removes exactly that draft if and only if the version
      of the record did not move between its check and its write. */
  lemma DeletedExactly(db0: Database, mid: Database, db': Database, key: Key, actor: string, requestId: string,
                       faults: DeletionFaults, did: seq<(Database, Database)>, r: Result<()>)
    requires Deleted(db0, mid, db', key, actor, requestId, faults, did, r)
    ensures mid == db0 ==> (did != [] <==>
              Fetched(db0, key, faults.reading).Ok? && db0.rows[key].status == Draft && !faults.deleting)
    ensures did != [] ==>
              && Live(db0, key) && db0.rows[key].status == Draft
              && key in mid.rows && key in db'.rows && db'.rows[key] == mid.rows[key].(deleted := true)
              && (db'.rows[key] == db0.rows[key].(deleted := true)
                  <==> mid.rows[key].version == db0.rows[key].version)
  {
    if did != [] {
      assert RecordEvolves(db0, mid, key);
    }
  }

  /** A delete that reports success leaves as its last audit one that names its caller, and every error it can
      report says what stopped it. */
  lemma DeletedNamesItsCaller(db0: Database, mid: Database, db': Database, key: Key, actor: string,
                              requestId: string, faults: DeletionFaults, did: seq<(Database, Database)>, r: Result<()>)
    requires Deleted(db0, mid, db', key, actor, requestId, faults, did, r)
    ensures r.Ok? ==>
              && key in db'.rows && db'.rows[key].deleted && db'.audits != []
              && AuditsDeletion(db'.audits[|db'.audits| - 1], key, actor, requestId, Draft)
    ensures r == Err(Locked) <==> faults.reading.QueriesWork? && Live(db0, key) && db0.rows[key].status != Draft
    ensures r == Err(NotFound) <==>
              || (!faults.reading.FirstQueryFails? && !Live(db0, key))
              || (faults.reading.QueriesWork? && Live(db0, key) && db0.rows[key].status == Draft
                  && !faults.deleting && !Live(mid, key))
    ensures r.Err? ==> r.error in {NotFound, Locked, StoreFailure}
  {
    hide Evolves;
    if r.Ok? {
      DeletionIsAudited(did[1].0, key, db0.rows[key], actor, requestId);
    }
  }

  method DeleteDraft(store: Store, key: Key, actor: string, requestId: string, faults: DeletionFaults)
    returns (r: Result<()>, ghost mid: Database)
    requires store.Valid()
    modifies store
    ensures store.Valid() && Evolves(old(store.View()), store.View())
    ensures old(store.journal) <= store.journal
    ensures Deleted(old(store.View()), mid, store.View(), key, actor, requestId, faults,
                    Since(store.journal, old(store.journal)), r)
  {
    ghost var db0 := store.View();
    mid := db0;
    var got := store.Get(key, faults.reading);
    if got.Err? {
      return Err(got.error), mid;
    }
    var current := got.value.row;
    if current.status != Draft {
      return Err(Locked), mid;
    }
    ghost var afterGet := store.View();
    store.Interfere();
    mid := store.View();
    EvolvesTransitive(db0, afterGet, mid);
    r := store.Delete(key, faults.deleting);
    EvolvesTransitive(db0, mid, store.View());
    if r.Err? {
      return;
    }
    ghost var removed := store.View();
    store.Interfere();
    EvolvesTransitive(db0, removed, store.View());
    assert RecordEvolves(removed, store.View(), key);
    if faults.auditing {
      return Err(StoreFailure), mid;
    }
    ghost var beforeAudit := store.View();
    store.AuditDeletion(key, current, actor, requestId);
    EvolvesTransitive(db0, beforeAudit, store.View());
  }

  /** The commit and the closing Get of a request, in the same words for both services. */
  method Finish(store: Store, key: Key, req: Request, ghost db0: Database, item: Row, before: Status, faults: Faults)
    returns (r: Result<Answer>, ghost mid: Database)
    requires store.Valid() && Live(db0, key) && Fits(key.entity, db0.rows[key]) && Evolves(db0, store.View())
    requires faults.reading.QueriesWork? && Prepare(db0.rows[key], req) == Ok(item) && before == db0.rows[key].status
    modifies store
    ensures store.Valid() && Evolves(old(store.View()), store.View())
    ensures old(store.journal) <= store.journal
    ensures Served(db0, mid, store.View(), key, req, faults, Since(store.journal, old(store.journal)), r)
  {
    PrepareKeepsIdentity(db0.rows[key], req);
    hide Prepare, ShowsOwnVersion, Covers;
    store.Interfere();
    mid := store.View();
    EvolvesTransitive(db0, old(store.View()), mid);
    UpdateIsValid(mid, key, req.expected, item, req.actor, req.requestId, ActionOf(req), before,
                  ReasonOf(key.entity, req));
    var written := store.UpdateVersion(key, req.expected, item, req.actor, req.requestId, ActionOf(req), before,
                                       ReasonOf(key.entity, req), faults.writing);
    ghost var committed := store.View();
    EvolvesTransitive(old(store.View()), mid, committed);
    if written.Err? {
      return Err(written.error), mid;
    }
    store.Interfere();
    ghost var later := store.View();
    EvolvesTransitive(old(store.View()), committed, later);
    r := store.Get(key, faults.answering);
    EvolvesTransitive(old(store.View()), later, store.View());
    EvolvesTransitive(committed, later, store.View());
    if r.Ok? {
      CommitIsOwn(mid, committed, later, key, req, db0.rows[key], item, r.value);
    }
  }
}

module CertificateService {
  import opened Records
  import opened StatusGraph
  import opened Rules
  import opened Tables
  import opened Rely
  import opened Repositories
  import opened Service

  class CertificateRecordService {
    const store: Store

    constructor (store: Store)
      ensures this.store == store
    {
      this.store := store;
    }

    method Create(id: nat, code: string, fields: BusinessFields, actor: string, requestId: string, now: nat,
                  faults: Faults) returns (r: Result<Answer>)
      requires store.Valid()
      modifies store
      ensures store.Valid() && Evolves(old(store.View()), store.View())
      ensures old(store.journal) <= store.journal
      ensures Created(old(store.View()), store.View(), Key(CertificateRecord, id), code, fields, actor, requestId,
                      now, faults, Since(store.journal, old(store.journal)), r)
    {
      if !ValidBusinessFields(code, fields) {
        return Err(InvalidInput);
      }
      var key := Key(CertificateRecord, id);
      var item := Row(code, Draft, 1, fields, CertificateControl(actor, ""), now, now, false);
      r := FinishCreate(store, key, item, actor, requestId, faults);
    }

    method Update(id: nat, expected: nat, input: BusinessFields, actor: string, requestId: string, now: nat,
                  faults: Faults) returns (r: Result<Answer>, ghost mid: Database)
      requires store.Valid()
      modifies store
      ensures store.Valid() && Evolves(old(store.View()), store.View())
      ensures old(store.journal) <= store.journal
      ensures Served(old(store.View()), mid, store.View(), Key(CertificateRecord, id),
                     Records.Update(expected, input, actor, requestId, now), faults,
                     Since(store.journal, old(store.journal)), r)
    {
      var key := Key(CertificateRecord, id);
      ghost var db0 := store.View();
      mid := db0;
      RowsFit(db0, key);
      var got := store.Get(key, faults.reading);
      if got.Err? {
        return Err(got.error), mid;
      }
      var current := got.value.row;
      if current.status != Draft {
        return Err(Locked), mid;
      }
      if !ValidBusinessFields(current.code, input) {
        return Err(InvalidInput), mid;
      }
      current := current.(fields := current.fields.(name := input.name, description := input.description));
      current := current.(fields := current.fields.(facility := input.facility, owner := input.owner));
      current := current.(fields := current.fields.(category := input.category, riskLevel := input.riskLevel));
      current := current.(fields := current.fields.(metricValue := input.metricValue));
      current := current.(fields := current.fields.(metricUnit := input.metricUnit));
      current := current.(fields := current.fields.(effectiveAt := input.effectiveAt, evidence := input.evidence));
      current := current.(fields := current.fields.(relatedCode := input.relatedCode));
      current := current.(control := current.control.(preparedBy := actor));
      current := current.(control := current.control.(verifiedBy := ""));
      current := current.(version := expected + 1);
      current := current.(updatedAt := now);
      ghost var afterGet := store.View();
      r, mid := Finish(store, key, Records.Update(expected, input, actor, requestId, now), db0, current,
                       current.status, faults);
      EvolvesTransitive(db0, afterGet, store.View());
    }

    method Transition(id: nat, expected: nat, target: Status, reason: string, actor: string, role: Role,
                      requestId: string, now: nat, faults: Faults) returns (r: Result<Answer>, ghost mid: Database)
      requires store.Valid()
      modifies store
      ensures store.Valid() && Evolves(old(store.View()), store.View())
      ensures old(store.journal) <= store.journal
      ensures Served(old(store.View()), mid, store.View(), Key(CertificateRecord, id),
                     Records.Transition(expected, target, reason, actor, role, requestId, now), faults,
                     Since(store.journal, old(store.journal)), r)
    {
      hide Served, Evolves, DatabaseValid, Covers;
      var key := Key(CertificateRecord, id);
      ghost var db0 := store.View();
      mid := db0;
      ghost var req := Records.Transition(expected, target, reason, actor, role, requestId, now);
      RowsFit(db0, key);
      var got := store.Get(key, faults.reading);
      if got.Err? {
        RefusalIsServed(db0, store.View(), key, req, faults, Since(store.journal, old(store.journal)), got.error);
        return Err(got.error), mid;
      }
      var current := got.value.row;
      if !CanTransition(CERTIFICATE_RECORD_TRANSITIONS, current.status, target) {
        RefusalIsServed(db0, store.View(), key, req, faults, Since(store.journal, old(store.journal)),
                        InvalidTransition);
        return Err(InvalidTransition), mid;
      }
      if !IsOperatorRole(role) {
        RefusalIsServed(db0, store.View(), key, req, faults, Since(store.journal, old(store.journal)), Forbidden);
        return Err(Forbidden), mid;
      }
      if target == Valid || target == Revoked {
        if !IsReviewerRole(role) {
          RefusalIsServed(db0, store.View(), key, req, faults, Since(store.journal, old(store.journal)), Forbidden);
          return Err(Forbidden), mid;
        }
        if actor == current.control.preparedBy {
          RefusalIsServed(db0, store.View(), key, req, faults, Since(store.journal, old(store.journal)),
                          SeparationOfDuty);
          return Err(SeparationOfDuty), mid;
        }
        current := current.(control := current.control.(verifiedBy := actor));
      }
      var before := current.status;
      current := current.(status := target);
      current := current.(version := expected + 1);
      current := current.(updatedAt := now);
      ghost var afterGet := store.View();
      r, mid := Finish(store, key, Records.Transition(expected, target, reason, actor, role, requestId, now), db0,
                       current, before, faults);
      EvolvesTransitive(db0, afterGet, store.View());
    }

    method Delete(id: nat, actor: string, requestId: string, faults: DeletionFaults)
      returns (r: Result<()>, ghost mid: Database)
      requires store.Valid()
      modifies store
      ensures store.Valid() && Evolves(old(store.View()), store.View())
      ensures old(store.journal) <= store.journal
      ensures Deleted(old(store.View()), mid, store.View(), Key(CertificateRecord, id), actor, requestId,
                      faults, Since(store.journal, old(store.journal)), r)
    {
      r, mid := DeleteDraft(store, Key(CertificateRecord, id), actor, requestId, faults);
    }
  }
}

module AuthorizationService {
  import opened Records
  import opened StatusGraph
  import opened Rules
  import opened Tables
  import opened Rely
  import opened Repositories
  import opened Service

  class ReleaseAuthorizationService {
    const store: Store

    constructor (store: Store)
      ensures this.store == store
    {
      this.store := store;
    }

    method Create(id: nat, code: string, fields: BusinessFields, actor: string, requestId: string, now: nat,
                  faults: Faults) returns (r: Result<Answer>)
      requires store.Valid()
      modifies store
      ensures store.Valid() && Evolves(old(store.View()), store.View())
      ensures old(store.journal) <= store.journal
      ensures Created(old(store.View()), store.View(), Key(ReleaseAuthorization, id), code, fields, actor,
                      requestId, now, faults, Since(store.journal, old(store.journal)), r)
    {
      if !ValidBusinessFields(code, fields) {
        return Err(InvalidInput);
      }
      var key := Key(ReleaseAuthorization, id);
      var item := Row(code, Draft, 1, fields, AuthorizationControl("", "", ""), now, now, false);
      r := FinishCreate(store, key, item, actor, requestId, faults);
    }

    method Update(id: nat, expected: nat, input: BusinessFields, actor: string, requestId: string, now: nat,
                  faults: Faults) returns (r: Result<Answer>, ghost mid: Database)
      requires store.Valid()
      modifies store
      ensures store.Valid() && Evolves(old(store.View()), store.View())
      ensures old(store.journal) <= store.journal
      ensures Served(old(store.View()), mid, store.View(), Key(ReleaseAuthorization, id),
                     Records.Update(expected, input, actor, requestId, now), faults,
                     Since(store.journal, old(store.journal)), r)
    {
      var key := Key(ReleaseAuthorization, id);
      ghost var db0 := store.View();
      mid := db0;
      RowsFit(db0, key);
      var got := store.Get(key, faults.reading);
      if got.Err? {
        return Err(got.error), mid;
      }
      var current := got.value.row;
      if current.status != Draft {
        return Err(Locked), mid;
      }
      if !ValidBusinessFields(current.code, input) {
        return Err(InvalidInput), mid;
      }
      current := current.(fields := current.fields.(name := input.name, description := input.description));
      current := current.(fields := current.fields.(facility := input.facility, owner := input.owner));
      current := current.(fields := current.fields.(category := input.category, riskLevel := input.riskLevel));
      current := current.(fields := current.fields.(metricValue := input.metricValue));
      current := current.(fields := current.fields.(metricUnit := input.metricUnit));
      current := current.(fields := current.fields.(effectiveAt := input.effectiveAt, evidence := input.evidence));
      current := current.(fields := current.fields.(relatedCode := input.relatedCode));
      current := current.(version := expected + 1);
      current := current.(updatedAt := now);
      ghost var afterGet := store.View();
      r, mid := Finish(store, key, Records.Update(expected, input, actor, requestId, now), db0, current,
                       current.status, faults);
      EvolvesTransitive(db0, afterGet, store.View());
    }

    method Transition(id: nat, expected: nat, target: Status, reason: string, actor: string, role: Role,
                      requestId: string, now: nat, faults: Faults) returns (r: Result<Answer>, ghost mid: Database)
      requires store.Valid()
      modifies store
      ensures store.Valid() && Evolves(old(store.View()), store.View())
      ensures old(store.journal) <= store.journal
      ensures Served(old(store.View()), mid, store.View(), Key(ReleaseAuthorization, id),
                     Records.Transition(expected, target, reason, actor, role, requestId, now), faults,
                     Since(store.journal, old(store.journal)), r)
    {
      hide Served, Evolves, DatabaseValid, Covers;
      var key := Key(ReleaseAuthorization, id);
      ghost var db0 := store.View();
      mid := db0;
      ghost var req := Records.Transition(expected, target, reason, actor, role, requestId, now);
      RowsFit(db0, key);
      var got := store.Get(key, faults.reading);
      if got.Err? {
        RefusalIsServed(db0, store.View(), key, req, faults, Since(store.journal, old(store.journal)), got.error);
        return Err(got.error), mid;
      }
      var current := got.value.row;
      if !CanTransition(RELEASE_AUTHORIZATION_TRANSITIONS, current.status, target) {
        RefusalIsServed(db0, store.View(), key, req, faults, Since(store.journal, old(store.journal)),
                        InvalidTransition);
        return Err(InvalidTransition), mid;
      }
      if !IsOperatorRole(role) {
        RefusalIsServed(db0, store.View(), key, req, faults, Since(store.journal, old(store.journal)), Forbidden);
        return Err(Forbidden), mid;
      }
      if target == Review {
        current := current.(control := current.control.(submittedBy := actor));
        current := current.(control := current.control.(reviewedBy := ""));
        current := current.(control := current.control.(reviewReason := ""));
      }
      if target == Approved || target == Restricted || target == Revoked || target == Draft {
        if !IsReviewerRole(role) {
          RefusalIsServed(db0, store.View(), key, req, faults, Since(store.journal, old(store.journal)), Forbidden);
          return Err(Forbidden), mid;
        }
        if current.control.submittedBy != "" && actor == current.control.submittedBy {
          RefusalIsServed(db0, store.View(), key, req, faults, Since(store.journal, old(store.journal)),
                          SeparationOfDuty);
          return Err(SeparationOfDuty), mid;
        }
        current := current.(control := current.control.(reviewedBy := actor));
        current := current.(control := current.control.(reviewReason := reason));
      }
      var before := current.status;
      current := current.(status := target);
      current := current.(version := expected + 1);
      current := current.(updatedAt := now);
      ghost var afterGet := store.View();
      r, mid := Finish(store, key, Records.Transition(expected, target, reason, actor, role, requestId, now), db0,
                       current, before, faults);
      EvolvesTransitive(db0, afterGet, store.View());
    }

    method Delete(id: nat, actor: string, requestId: string, faults: DeletionFaults)
      returns (r: Result<()>, ghost mid: Database)
      requires store.Valid()
      modifies store
      ensures store.Valid() && Evolves(old(store.View()), store.View())
      ensures old(store.journal) <= store.journal
      ensures Deleted(old(store.View()), mid, store.View(), Key(ReleaseAuthorization, id), actor, requestId,
                      faults, Since(store.journal, old(store.journal)), r)
    {
      r, mid := DeleteDraft(store, Key(ReleaseAuthorization, id), actor, requestId, faults);
    }
  }
}
