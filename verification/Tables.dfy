/** The tables, their queries and the transactions of the two repositories. */
module Tables {
  import opened Records
  import opened Rules

  const EMPTY := Database(map[], [], [])

  /** Which query of an operation that reads twice fails for reasons of its own. */
  datatype QueryFault = QueriesWork | FirstQueryFails | SecondQueryFails

  /** Soft-deleted rows are invisible to every query and update. */
  predicate Live(db: Database, key: Key) {
    key in db.rows && !db.rows[key].deleted
  }

  /** The revisions of one record in the order they were inserted. */
  function RevisionsOf(log: seq<Revision>, key: Key): seq<Revision> {
    if log == [] then []
    else
      var last := log[|log| - 1];
      var before := RevisionsOf(log[..|log| - 1], key);
      if last.key == key then before + [last] else before
  }

  /** The audits of one record that belong to a version: all of them but the delete audits. */
  function VersionAudits(log: seq<Audit>, key: Key): seq<Audit> {
    if log == [] then []
    else
      var last := log[|log| - 1];
      var before := VersionAudits(log[..|log| - 1], key);
      if last.key == key && last.action != DeleteAction then before + [last] else before
  }

  predicate HasRevision(db: Database, key: Key, version: nat) {
    exists r | r in db.revisions :: r.key == key && r.version == version
  }

  predicate CodeTaken(db: Database, entity: Entity, code: string) {
    exists k | k in db.rows :: k.entity == entity && db.rows[k].code == code
  }

  /** appendAudit replaces a blank actor or request id. */
  function NewAudit(key: Key, actor: string, requestId: string, action: Action,
                    before: AuditState, after: AuditState, detail: Note): Audit {
    Audit(key, if actor == "" then "system" else actor,
          if requestId == "" then "untracked" else requestId, action, before, after, detail)
  }

  function CreationReason(entity: Entity): Note {
    match entity
    case CertificateRecord => CertificatePrepared
    case ReleaseAuthorization => AuthorizationDrafted
  }

  function CreationDetail(entity: Entity): Note {
    match entity
    case CertificateRecord => CertificateVersionOne
    case ReleaseAuthorization => AuthorizationVersionOne
  }

  /** CreateVersion under a primary key the database has not used yet. */
  function CreateTx(db: Database, key: Key, item: Row, actor: string, requestId: string): Result<Database> {
    if key in db.rows then Err(StoreFailure)
    else if CodeTaken(db, key.entity, item.code) then Err(DuplicateCode)
    else if HasRevision(db, key, item.version) then Err(DuplicateRevision)
    else Ok(Database(
              db.rows[key := item],
              db.revisions + [Revision(key, item.version, item.status, item.fields.evidence, actor,
                                       requestId, CreateAction, CreationReason(key.entity), item.createdAt)],
              db.audits + [NewAudit(key, actor, requestId, CreateAction, Absent, In(item.status),
                                    CreationDetail(key.entity))]))
  }

  /** The whole-row write: every column of item except id, code, created_at and deleted_at. */
  function Overwrite(stored: Row, item: Row): Row {
    item.(code := stored.code, createdAt := stored.createdAt, deleted := stored.deleted)
  }

  /** UpdateVersion: compare-and-set on the client's version, one revision, one audit. */
  function UpdateTx(db: Database, key: Key, expected: nat, item: Row, actor: string, requestId: string,
                    action: Action, before: Status, reason: Note): Result<Database> {
    if !(Live(db, key) && db.rows[key].version == expected) then Err(VersionConflict)
    else if HasRevision(db, key, item.version) then Err(DuplicateRevision)
    else Ok(Database(
              db.rows[key := Overwrite(db.rows[key], item)],
              db.revisions + [Revision(key, item.version, item.status, item.fields.evidence, actor,
                                       requestId, action, reason, item.updatedAt)],
              db.audits + [NewAudit(key, actor, requestId, action, In(before), In(item.status), reason)]))
  }

  /** The write half of an update or transition whose checks passed on snapshot. */
  function CommitTx(db: Database, key: Key, req: Request, snapshot: Row, item: Row): Result<Database> {
    UpdateTx(db, key, req.expected, item, req.actor, req.requestId, ActionOf(req), snapshot.status,
             ReasonOf(key.entity, req))
  }

  /** An update or transition done in one step on the tables as they are. */
  function Atomically(db: Database, key: Key, req: Request): Result<Database> {
    if !Live(db, key) then Err(NotFound)
    else
      match Prepare(db.rows[key], req)
      case Err(e) => Err(e)
      case Ok(item) => CommitTx(db, key, req, db.rows[key], item)
  }

  /** The repository's Delete, which looks at nothing but the id. */
  function DeleteRow(db: Database, key: Key): Result<Database> {
    if !Live(db, key) then Err(NotFound)
    else Ok(db.(rows := db.rows[key := db.rows[key].(deleted := true)]))
  }

  /** The audit of a delete is a separate write and repeats the status of the snapshot. */
  function AuditDelete(db: Database, key: Key, snapshot: Row, actor: string, requestId: string): Database {
    var detail := match key.entity
                  case CertificateRecord => CertificateDeleted
                  case ReleaseAuthorization => AuthorizationDeleted;
    db.(audits := db.audits + [NewAudit(key, actor, requestId, DeleteAction, In(snapshot.status), Removed, detail)])
  }

  lemma RevisionsOfAppend(log: seq<Revision>, r: Revision, key: Key)
    ensures RevisionsOf(log + [r], key) == RevisionsOf(log, key) + (if r.key == key then [r] else [])
  {
  }

  lemma VersionAuditsAppend(log: seq<Audit>, a: Audit, key: Key)
    ensures VersionAudits(log + [a], key)
         == VersionAudits(log, key) + (if a.key == key && a.action != DeleteAction then [a] else [])
  {
  }

  /** Selecting one record's revisions keeps exactly the entries of that record. */
  lemma {:induction false} RevisionsOfMembers(log: seq<Revision>, key: Key, r: Revision)
    ensures r in RevisionsOf(log, key) <==> r in log && r.key == key
  {
    if log != [] {
      RevisionsOfMembers(log[..|log| - 1], key, r);
      assert log == log[..|log| - 1] + [log[|log| - 1]];
    }
  }
}

/** What readers and writers may rely on while other requests run. */
module Rely {
  import opened Records
  import opened Tables

  /** The revision table and the row of one record agree. */
  ghost predicate RecordValid(db: Database, key: Key) {
    var history := RevisionsOf(db.revisions, key);
    if key !in db.rows then history == []
    else
      && 1 <= db.rows[key].version == |history|
      && (forall i | 0 <= i < |history| :: history[i].version == i + 1)
      && history[|history| - 1].status == db.rows[key].status
      && history[|history| - 1].evidence == db.rows[key].fields.evidence
      && Fits(key.entity, db.rows[key])
  }

  ghost predicate DatabaseValid(db: Database) {
    forall key :: RecordValid(db, key)
  }

  /** A record only moves forward: versions grow, a version never changes what it says, a soft-deleted
      row never changes again, and the history is only appended to. */
  ghost predicate RecordEvolves(db: Database, db': Database, key: Key) {
    && RevisionsOf(db.revisions, key) <= RevisionsOf(db'.revisions, key)
    && (key in db.rows ==>
          && key in db'.rows
          && db'.rows[key].code == db.rows[key].code
          && db'.rows[key].createdAt == db.rows[key].createdAt
          && db.rows[key].version <= db'.rows[key].version
          && (db.rows[key].version == db'.rows[key].version ==>
                db'.rows[key].(deleted := db.rows[key].deleted) == db.rows[key])
          && (db.rows[key].deleted ==> db'.rows[key] == db.rows[key]))
  }

  ghost predicate Evolves(db: Database, db': Database) {
    forall key :: RecordEvolves(db, db', key)
  }

  lemma EvolvesTransitive(a: Database, b: Database, c: Database)
    requires Evolves(a, b) && Evolves(b, c)
    ensures Evolves(a, c)
  {
    forall key ensures RecordEvolves(a, c, key) {
      assert RecordEvolves(a, b, key) && RecordEvolves(b, c, key);
    }
  }

  /** A version conflict is the only thing a commit can meet besides the row it expects: if the stored
      version is still the one read, so is the stored row. */
  lemma SameVersionSameRow(db: Database, db': Database, key: Key)
    requires Evolves(db, db') && Live(db, key) && Live(db', key)
    requires db.rows[key].version == db'.rows[key].version
    ensures db'.rows[key] == db.rows[key]
  {
    assert RecordEvolves(db, db', key);
  }
}
