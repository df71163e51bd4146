/** The repositories over a shared database that other requests change between any two statements. */
module Repositories {
  import opened Records
  import opened Rules
  import opened Tables
  import opened Rely

  /** Where a transaction is struck by a failure that has nothing to do with its data. */
  datatype Fault = NoFault | AtRow | AtRevision | AtAudit

  /** The failures that strike a request: its first Get, its transaction and its closing Get. */
  datatype Faults = Faults(reading: QueryFault, writing: Fault, answering: QueryFault)

  /** The failures that strike a delete: its Get, the delete itself and the audit after it. */
  datatype DeletionFaults = DeletionFaults(reading: QueryFault, deleting: bool, auditing: bool)

  datatype Answer = Answer(row: Row, revisions: seq<Revision>)

  /** The row that Get finds on db, or its error: the revisions are only queried if there is a row. */
  function Fetched(db: Database, key: Key, fault: QueryFault): Result<Row> {
    if fault.FirstQueryFails? then Err(StoreFailure)
    else if !Live(db, key) then Err(NotFound)
    else if fault.SecondQueryFails? then Err(StoreFailure)
    else Ok(db.rows[key])
  }

  /** The list starts with the complete history of the row it comes with. */
  ghost predicate Covers(answer: Answer) {
    && 1 <= answer.row.version <= |answer.revisions|
    && (forall i | 0 <= i < |answer.revisions| :: answer.revisions[i].version == i + 1)
    && answer.revisions[answer.row.version - 1].status == answer.row.status
    && answer.revisions[answer.row.version - 1].evidence == answer.row.fields.evidence
  }

  lemma UpdateIsValid(db: Database, key: Key, expected: nat, item: Row, actor: string, requestId: string,
                      action: Action, before: Status, reason: Note)
    requires DatabaseValid(db) && Fits(key.entity, item) && item.version == expected + 1
    ensures var tx := UpdateTx(db, key, expected, item, actor, requestId, action, before, reason);
            && tx != Err(DuplicateRevision)
            && (tx.Ok? ==> DatabaseValid(tx.value) && Evolves(db, tx.value))
  {
    var tx := UpdateTx(db, key, expected, item, actor, requestId, action, before, reason);
    assert RecordValid(db, key);
    if HasRevision(db, key, item.version) && Live(db, key) && db.rows[key].version == expected {
      var r :| r in db.revisions && r.key == key && r.version == item.version;
      RevisionsOfMembers(db.revisions, key, r);
      assert false;
    }
    if tx.Ok? {
      var r := tx.value.revisions[|db.revisions|];
      forall k ensures RecordValid(tx.value, k) && RecordEvolves(db, tx.value, k) {
        assert RecordValid(db, k);
        RevisionsOfAppend(db.revisions, r, k);
      }
    }
  }

  lemma CreateIsValid(db: Database, key: Key, item: Row, actor: string, requestId: string)
    requires DatabaseValid(db) && Fits(key.entity, item) && item.version == 1
    ensures var tx := CreateTx(db, key, item, actor, requestId);
            && tx != Err(DuplicateRevision)
            && (tx.Ok? ==> DatabaseValid(tx.value) && Evolves(db, tx.value))
  {
    var tx := CreateTx(db, key, item, actor, requestId);
    assert RecordValid(db, key);
    if HasRevision(db, key, item.version) && key !in db.rows {
      var r :| r in db.revisions && r.key == key && r.version == item.version;
      RevisionsOfMembers(db.revisions, key, r);
      assert false;
    }
    if tx.Ok? {
      var r := tx.value.revisions[|db.revisions|];
      forall k ensures RecordValid(tx.value, k) && RecordEvolves(db, tx.value, k) {
        assert RecordValid(db, k);
        RevisionsOfAppend(db.revisions, r, k);
      }
    }
  }

  lemma RowWriteIsValid(db: Database, db': Database, key: Key)
    requires DatabaseValid(db) && db'.revisions == db.revisions && key in db.rows
    requires db'.rows == db.rows[key := db.rows[key].(deleted := true)] || db'.rows == db.rows
    ensures DatabaseValid(db') && Evolves(db, db')
  {
    forall k ensures RecordValid(db', k) && RecordEvolves(db, db', k) {
      assert RecordValid(db, k);
    }
  }

  class Store {
    var rows: map<Key, Row>
    var revisions: seq<Revision>
    var audits: seq<Audit>

    /** The transactions of the requests served through this object, as the tables before and after each;
        what other requests do in between is not in it. */
    ghost var journal: seq<(Database, Database)>

    function View(): Database
      reads `rows, `revisions, `audits
    {
      Database(rows, revisions, audits)
    }

    ghost predicate Valid()
      reads `rows, `revisions, `audits
    {
      DatabaseValid(View())
    }

    constructor ()
      ensures Valid() && View() == EMPTY
    {
      rows, revisions, audits, journal := map[], [], [], [];
    }

    /** Any number of steps of other requests. All that a caller may rely on is what RunEvolves guarantees
        of every run; the body stands for the run of no steps. */
    method Interfere()
      requires Valid()
      modifies `rows, `revisions, `audits
      ensures Valid() && Evolves(old(View()), View())
    {
    }

    method FindRow(key: Key) returns (row: Result<Row>)
      ensures row == if Live(View(), key) then Ok(rows[key]) else Err(NotFound)
    {
      if key in rows && !rows[key].deleted {
        row := Ok(rows[key]);
      } else {
        row := Err(NotFound);
      }
    }

    /** The preload query; in a valid database the log already is in version order. */
    method FindRevisions(key: Key) returns (answer: seq<Revision>)
      ensures answer == RevisionsOf(revisions, key)
      ensures Valid() ==> forall i | 0 <= i < |answer| :: answer[i].version == i + 1
    {
      answer := [];
      for i := 0 to |revisions|
        invariant answer == RevisionsOf(revisions[..i], key)
      {
        assert revisions[..i + 1][..i] == revisions[..i];
        if revisions[i].key == key {
          answer := answer + [revisions[i]];
        }
      }
      assert revisions[..|revisions|] == revisions;
      assert Valid() ==> RecordValid(View(), key);
    }

    /** Two queries, with other requests running between them; either may fail. */
    method Get(key: Key, fault: QueryFault) returns (r: Result<Answer>)
      requires Valid()
      modifies `rows, `revisions, `audits
      ensures Valid() && Evolves(old(View()), View())
      ensures match Fetched(old(View()), key, fault)
              case Err(e) => r == Err(e)
              case Ok(row) =>
                && r.Ok? && r.value.row == row && row == old(rows[key])
                && Covers(r.value)
                && r.value.revisions[..row.version] == RevisionsOf(old(revisions), key)
      ensures r.Ok? <==> fault.QueriesWork? && Live(old(View()), key)
      ensures r == Err(NotFound) <==> !fault.FirstQueryFails? && !Live(old(View()), key)
      ensures r == Err(StoreFailure) <==>
                fault.FirstQueryFails? || (fault.SecondQueryFails? && Live(old(View()), key))
    {
      ghost var before := View();
      if fault.FirstQueryFails? {
        return Err(StoreFailure);
      }
      var row := FindRow(key);
      if row.Err? {
        return Err(NotFound);
      }
      Interfere();
      if fault.SecondQueryFails? {
        return Err(StoreFailure);
      }
      var history := FindRevisions(key);
      assert RecordValid(before, key) && RecordValid(View(), key) && RecordEvolves(before, View(), key);
      r := Ok(Answer(row.value, history));
    }

    method OptimisticUpdate(key: Key, expected: nat, item: Row) returns (r: Result<()>)
      modifies `rows
      ensures r == if Live(old(View()), key) && old(rows[key].version) == expected
                   then Ok(()) else Err(VersionConflict)
      ensures rows == if r.Ok? then old(rows)[key := Overwrite(old(rows[key]), item)] else old(rows)
    {
      if !(key in rows && !rows[key].deleted && rows[key].version == expected) {
        return Err(VersionConflict);
      }
      var stored := rows[key];
      rows := rows[key := item.(code := stored.code, createdAt := stored.createdAt, deleted := stored.deleted)];
      r := Ok(());
    }

    method AppendAudit(key: Key, actor: string, requestId: string, action: Action,
                       before: AuditState, after: AuditState, detail: Note)
      modifies `audits
      ensures audits == old(audits) + [NewAudit(key, actor, requestId, action, before, after, detail)]
    {
      var who, request := actor, requestId;
      if who == "" {
        who := "system";
      }
      if request == "" {
        request := "untracked";
      }
      audits := audits + [Audit(key, who, request, action, before, after, detail)];
    }

    method CreateVersion(key: Key, item: Row, actor: string, requestId: string, fault: Fault)
      returns (r: Result<()>)
      requires Valid() && Fits(key.entity, item) && item.version == 1
      modifies this
      ensures Valid() && Evolves(old(View()), View())
      ensures var tx := CreateTx(old(View()), key, item, actor, requestId);
              if fault.NoFault? && tx.Ok? then
                r == Ok(()) && View() == tx.value && journal == old(journal) + [(old(View()), View())]
              else
                && r == Err(if fault.AtRow? || tx.Ok? then StoreFailure else tx.error)
                && View() == old(View()) && journal == old(journal)
    {
      CreateIsValid(View(), key, item, actor, requestId);
      var saved := View();
      if fault.AtRow? || key in rows {
        return Err(StoreFailure);
      }
      if CodeTaken(saved, key.entity, item.code) {
        return Err(DuplicateCode);
      }
      rows := rows[key := item];
      if fault.AtRevision? || HasRevision(saved, key, item.version) {
        rows := saved.rows;
        return Err(if fault.AtRevision? then StoreFailure else DuplicateRevision);
      }
      revisions := revisions + [Revision(key, item.version, item.status, item.fields.evidence, actor,
                                         requestId, CreateAction, CreationReason(key.entity), item.createdAt)];
      if fault.AtAudit? {
        rows, revisions := saved.rows, saved.revisions;
        return Err(StoreFailure);
      }
      AppendAudit(key, actor, requestId, CreateAction, Absent, In(item.status), CreationDetail(key.entity));
      journal := journal + [(saved, View())];
      r := Ok(());
    }

    method UpdateVersion(key: Key, expected: nat, item: Row, actor: string, requestId: string,
                         action: Action, before: Status, reason: Note, fault: Fault)
      returns (r: Result<()>)
      requires Valid() && Fits(key.entity, item) && item.version == expected + 1
      modifies this
      ensures Valid() && Evolves(old(View()), View())
      ensures var tx := UpdateTx(old(View()), key, expected, item, actor, requestId, action, before, reason);
              if fault.NoFault? && tx.Ok? then
                r == Ok(()) && View() == tx.value && journal == old(journal) + [(old(View()), View())]
              else
                && r == Err(if fault.AtRow? || tx.Ok? then StoreFailure else tx.error)
                && View() == old(View()) && journal == old(journal)
    {
      UpdateIsValid(View(), key, expected, item, actor, requestId, action, before, reason);
      var saved := View();
      if fault.AtRow? {
        return Err(StoreFailure);
      }
      r := OptimisticUpdate(key, expected, item);
      if r.Err? {
        return;
      }
      if fault.AtRevision? || HasRevision(saved, key, item.version) {
        rows := saved.rows;
        return Err(if fault.AtRevision? then StoreFailure else DuplicateRevision);
      }
      revisions := revisions + [Revision(key, item.version, item.status, item.fields.evidence, actor,
                                         requestId, action, reason, item.updatedAt)];
      if fault.AtAudit? {
        rows, revisions := saved.rows, saved.revisions;
        return Err(StoreFailure);
      }
      AppendAudit(key, actor, requestId, action, In(before), In(item.status), reason);
      journal := journal + [(saved, View())];
    }

    method Delete(key: Key, fails: bool) returns (r: Result<()>)
      requires Valid()
      modifies `rows, `journal
      ensures Valid() && Evolves(old(View()), View())
      ensures match if fails then Err(StoreFailure) else DeleteRow(old(View()), key)
              case Ok(db) => r == Ok(()) && View() == db && journal == old(journal) + [(old(View()), db)]
              case Err(e) => r == Err(e) && View() == old(View()) && journal == old(journal)
    {
      if fails {
        return Err(StoreFailure);
      }
      if key !in rows || rows[key].deleted {
        return Err(NotFound);
      }
      ghost var before := View();
      rows := rows[key := rows[key].(deleted := true)];
      RowWriteIsValid(before, View(), key);
      journal := journal + [(before, View())];
      r := Ok(());
    }

    /** The audit of a delete, outside any transaction with the delete. */
    method AuditDeletion(key: Key, snapshot: Row, actor: string, requestId: string)
      requires Valid() && key in rows
      modifies `audits, `journal
      ensures View() == AuditDelete(old(View()), key, snapshot, actor, requestId)
      ensures journal == old(journal) + [(old(View()), View())]
      ensures Valid() && Evolves(old(View()), View())
    {
      ghost var before := View();
      var detail := match key.entity
                    case CertificateRecord => CertificateDeleted
                    case ReleaseAuthorization => AuthorizationDeleted;
      AppendAudit(key, actor, requestId, DeleteAction, In(snapshot.status), Removed, detail);
      journal := journal + [(before, View())];
      RowWriteIsValid(before, View(), key);
    }
  }
}
