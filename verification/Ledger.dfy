/** What each operation writes, in the words of whoever asked for it. The predicates name every column; the lemmas
    show that the transactions write just that. */
module Ledger {
  import opened Records
  import opened Rules
  import opened Tables

  /** The name an audit shows; a blank one is stood in for. */
  function Named(name: string, standIn: string): string {
    if name == "" then standIn else name
  }

  /** A new row holds what was sent, and nobody but its preparer has signed it. */
  predicate HoldsInput(entity: Entity, row: Row, code: string, fields: BusinessFields, actor: string, now: nat) {
    && row.code == code && row.fields == fields
    && row.status == Draft && row.version == 1 && !row.deleted
    && row.createdAt == now && row.updatedAt == now
    && match entity
       case CertificateRecord => row.control == CertificateControl(actor, "")
       case ReleaseAuthorization => row.control == AuthorizationControl("", "", "")
  }

  predicate TellsOfCreation(r: Revision, key: Key, fields: BusinessFields, actor: string, requestId: string, now: nat) {
    && r.key == key && r.version == 1 && r.status == Draft && r.evidence == fields.evidence
    && r.actor == actor && r.requestId == requestId && r.action == CreateAction && r.createdAt == now
    && r.reason == (if key.entity.CertificateRecord? then CertificatePrepared else AuthorizationDrafted)
  }

  predicate AuditsCreation(a: Audit, key: Key, actor: string, requestId: string) {
    && a.key == key && a.actor == Named(actor, "system") && a.requestId == Named(requestId, "untracked")
    && a.action == CreateAction && a.before == Absent && a.after == In(Draft)
    && a.detail == (if key.entity.CertificateRecord? then CertificateVersionOne else AuthorizationVersionOne)
  }

  /** db' is db with this row written and one entry more in each log. */
  predicate Writes(db: Database, db': Database, key: Key, row: Row, r: Revision, a: Audit) {
    && db'.rows == db.rows[key := row]
    && db'.revisions == db.revisions + [r]
    && db'.audits == db.audits + [a]
  }

  predicate WritesCreation(db: Database, db': Database, key: Key, code: string, fields: BusinessFields,
                           actor: string, requestId: string, now: nat) {
    && key in db'.rows && db'.revisions != [] && db'.audits != []
    && var row, r, a := db'.rows[key], db'.revisions[|db'.revisions| - 1], db'.audits[|db'.audits| - 1];
       && Writes(db, db', key, row, r, a)
       && HoldsInput(key.entity, row, code, fields, actor, now)
       && TellsOfCreation(r, key, fields, actor, requestId, now)
       && AuditsCreation(a, key, actor, requestId)
  }

  /** A record can be created: its key and its code are unused, by live and by deleted rows. */
  predicate Creatable(db: Database, key: Key, code: string) {
    key !in db.rows && forall k | k in db.rows && k.entity == key.entity :: db.rows[k].code != code
  }

  lemma CreationWrites(db: Database, key: Key, code: string, fields: BusinessFields, actor: string,
                       requestId: string, now: nat)
    ensures ValidBusinessFields(code, fields) <==> !Blank(code, fields)
    ensures var tx := CreateTx(db, key, NewRow(key.entity, code, fields, actor, now), actor, requestId);
            && (tx.Ok? <==> Creatable(db, key, code) && !HasRevision(db, key, 1))
            && (tx.Ok? ==> WritesCreation(db, tx.value, key, code, fields, actor, requestId, now))
            && (tx == Err(DuplicateCode) <==> key !in db.rows && !Creatable(db, key, code))
            && (tx == Err(StoreFailure) <==> key in db.rows)
  {
  }

  /** The reason or detail a request leaves behind: its own words, or what was done to the fields. */
  predicate GivesReason(note: Note, entity: Entity, req: Request) {
    match req
    case Transition(_, _, reason, _, _, _, _) => note == Reason(reason)
    case Update(_, _, _, _, _) =>
      note == (if entity.CertificateRecord? then CertificateFieldsUpdated else AuthorizationFieldsUpdated)
  }

  /** Revision r is the one that request req made of a record. */
  predicate TellsOf(r: Revision, key: Key, req: Request) {
    && r.key == key && r.version == req.expected + 1
    && r.actor == req.actor && r.requestId == req.requestId && r.createdAt == req.now
    && GivesReason(r.reason, key.entity, req)
    && (if req.Update? then r.action == UpdateAction && r.status == Draft && r.evidence == req.fields.evidence
        else r.action == TransitionAction && r.status == req.target)
  }

  predicate AuditTellsOf(a: Audit, key: Key, req: Request, before: Status) {
    && a.key == key && a.actor == Named(req.actor, "system") && a.requestId == Named(req.requestId, "untracked")
    && a.before == In(before)
    && GivesReason(a.detail, key.entity, req)
    && (if req.Update? then a.action == UpdateAction && a.after == In(Draft)
        else a.action == TransitionAction && a.after == In(req.target))
  }

  /** The row is the checked one as the request edits it; the revision shows its evidence, the audit the status
      that was checked. */
  predicate WritesRequest(db: Database, db': Database, key: Key, req: Request, checked: Row) {
    && key in db'.rows && db'.revisions != [] && db'.audits != []
    && var row, r, a := db'.rows[key], db'.revisions[|db'.revisions| - 1], db'.audits[|db'.audits| - 1];
       && Writes(db, db', key, row, r, a)
       && Edits(checked, req, row)
       && TellsOf(r, key, req) && r.evidence == row.fields.evidence
       && AuditTellsOf(a, key, req, checked.status)
  }

  /** The stored row has the identity columns of the row that was checked. */
  predicate SameRecord(db: Database, key: Key, checked: Row) {
    && key in db.rows && db.rows[key].code == checked.code && db.rows[key].createdAt == checked.createdAt
    && db.rows[key].deleted == checked.deleted
  }

  lemma CommitWrites(db: Database, key: Key, req: Request, checked: Row)
    requires Prepare(checked, req).Ok? && SameRecord(db, key, checked) && Fits(key.entity, checked)
    requires CommitTx(db, key, req, checked, Prepare(checked, req).value).Ok?
    ensures var db' := CommitTx(db, key, req, checked, Prepare(checked, req).value).value;
            WritesRequest(db, db', key, req, checked)
    ensures Live(db, key) && db.rows[key].version == req.expected
  {
    AcceptedRequestsEdit(checked, req);
    hide Prepare;
  }

  predicate AuditsDeletion(a: Audit, key: Key, actor: string, requestId: string, before: Status) {
    && a.key == key && a.actor == Named(actor, "system") && a.requestId == Named(requestId, "untracked")
    && a.action == DeleteAction && a.before == In(before) && a.after == Removed
    && a.detail == (if key.entity.CertificateRecord? then CertificateDeleted else AuthorizationDeleted)
  }

  lemma DeletionIsAudited(db: Database, key: Key, snapshot: Row, actor: string, requestId: string)
    ensures var db' := AuditDelete(db, key, snapshot, actor, requestId);
            && db'.rows == db.rows && db'.revisions == db.revisions
            && |db'.audits| == |db.audits| + 1 && db'.audits[..|db.audits|] == db.audits
            && AuditsDeletion(db'.audits[|db.audits|], key, actor, requestId, snapshot.status)
  {
  }
}
