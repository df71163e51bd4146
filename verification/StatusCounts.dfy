/** The status overview, and why it can be audited: counts are conserved. */
module StatusCounts {
  import opened Records
  import opened Rules
  import opened Tables
  import opened Machine
  import opened Invariants
  import opened Runs
  import opened Serializability

  /** The live records of one table. */
  function LiveKeys(db: Database, entity: Entity): set<Key> {
    set k | k in db.rows && k.entity == entity && !db.rows[k].deleted
  }

  predicate Counted(db: Database, key: Key, entity: Entity, status: Status) {
    key in db.rows && key.entity == entity && !db.rows[key].deleted && db.rows[key].status == status
  }

  function KeysIn(db: Database, entity: Entity, status: Status): set<Key> {
    set k | k in db.rows && Counted(db, k, entity, status)
  }

  function Statuses(db: Database, entity: Entity): set<Status> {
    set k | k in LiveKeys(db, entity) :: db.rows[k].status
  }

  /** CountByStatus copies the rows of a GROUP BY query into a map, in whatever order they come. */
  method CountByStatus(db: Database, entity: Entity) returns (counts: map<Status, nat>)
    ensures counts.Keys == Statuses(db, entity)
    ensures forall status | status in counts :: counts[status] == |KeysIn(db, entity, status)| > 0
    ensures SumOver(db, entity, counts.Keys) == |LiveKeys(db, entity)|
    ensures forall status :: status in counts <==>
              exists k | k in db.rows :: Live(db, k) && k.entity == entity && db.rows[k].status == status
    ensures forall status | status in counts ::
              counts[status]
              == |set k | k in db.rows && Live(db, k) && k.entity == entity && db.rows[k].status == status|
  {
    counts := map[];
    var rows := Statuses(db, entity);
    while rows != {}
      invariant rows + counts.Keys == Statuses(db, entity)
      invariant forall status | status in counts :: counts[status] == |KeysIn(db, entity, status)| > 0
    {
      var status :| status in rows;
      var k :| k in LiveKeys(db, entity) && db.rows[k].status == status;
      assert k in KeysIn(db, entity, status);
      counts := counts[status := |KeysIn(db, entity, status)|];
      rows := rows - {status};
    }
    CountsPartition(db, entity, counts.Keys);
    assert KeysWith(db, entity, counts.Keys) == LiveKeys(db, entity);
    forall status | status in counts
      ensures counts[status]
           == |set k | k in db.rows && Live(db, k) && k.entity == entity && db.rows[k].status == status|
    {
      assert KeysIn(db, entity, status)
          == set k | k in db.rows && Live(db, k) && k.entity == entity && db.rows[k].status == status;
    }
  }

  function KeysWith(db: Database, entity: Entity, statuses: set<Status>): set<Key> {
    set k | k in LiveKeys(db, entity) && db.rows[k].status in statuses
  }

  /** The sum of the counts of a set of statuses. */
  ghost function SumOver(db: Database, entity: Entity, statuses: set<Status>): nat
    decreases |statuses|
  {
    if statuses == {} then 0
    else
      var status :| status in statuses;
      |KeysIn(db, entity, status)| + SumOver(db, entity, statuses - {status})
  }

  lemma OneStatusApart(db: Database, entity: Entity, statuses: set<Status>, status: Status)
    requires status in statuses
    ensures |KeysWith(db, entity, statuses)|
         == |KeysIn(db, entity, status)| + |KeysWith(db, entity, statuses - {status})|
  {
    var one, rest := KeysIn(db, entity, status), KeysWith(db, entity, statuses - {status});
    assert KeysWith(db, entity, statuses) == one + rest && one !! rest;
  }

  /** Every live record is counted under exactly one status. */
  lemma {:induction false} CountsPartition(db: Database, entity: Entity, statuses: set<Status>)
    ensures SumOver(db, entity, statuses) == |KeysWith(db, entity, statuses)|
    decreases |statuses|
  {
    hide KeysIn;
    if statuses == {} {
      assert KeysWith(db, entity, statuses) == {};
    } else {
      var status :| status in statuses
        && SumOver(db, entity, statuses) == |KeysIn(db, entity, status)| + SumOver(db, entity, statuses - {status});
      CountsPartition(db, entity, statuses - {status});
      OneStatusApart(db, entity, statuses, status);
    }
  }

  /** How many audits of a table say that a record entered, or left, a status; a delete audit says what was checked,
      not what was taken, and is left out. */
  function Entered(audits: seq<Audit>, entity: Entity, status: Status): nat {
    if audits == [] then 0
    else
      var last := audits[|audits| - 1];
      Entered(audits[..|audits| - 1], entity, status)
      + (if last.key.entity == entity && last.after == In(status) && last.action != DeleteAction then 1 else 0)
  }

  function Left(audits: seq<Audit>, entity: Entity, status: Status): nat {
    if audits == [] then 0
    else
      var last := audits[|audits| - 1];
      Left(audits[..|audits| - 1], entity, status)
      + (if last.key.entity == entity && last.before == In(status) && last.action != DeleteAction then 1 else 0)
  }

  lemma TalliesAppend(audits: seq<Audit>, a: Audit, entity: Entity, status: Status)
    ensures var counts := a.key.entity == entity && a.action != DeleteAction;
            && Entered(audits + [a], entity, status)
               == Entered(audits, entity, status) + (if counts && a.after == In(status) then 1 else 0)
            && Left(audits + [a], entity, status)
               == Left(audits, entity, status) + (if counts && a.before == In(status) then 1 else 0)
  {
  }

  lemma OneElementApart(a: set<Key>, b: set<Key>, key: Key)
    requires a - {key} == b - {key}
    ensures |b| == |a| + (if key in b then 1 else 0) - (if key in a then 1 else 0)
  {
    var common := a - {key};
    assert a == if key in a then common + {key} else common;
    assert b == if key in b then common + {key} else common;
  }

  /** Writing one row moves one record between the sets counted. */
  lemma CountAfterWrite(db: Database, db': Database, key: Key, row: Row, entity: Entity, status: Status)
    requires db'.rows == db.rows[key := row]
    ensures |KeysIn(db', entity, status)|
         == |KeysIn(db, entity, status)|
            + (if Counted(db', key, entity, status) then 1 else 0)
            - (if Counted(db, key, entity, status) then 1 else 0)
  {
    forall k | k != key ensures Counted(db', k, entity, status) <==> Counted(db, k, entity, status) {
    }
    OneElementApart(KeysIn(db, entity, status), KeysIn(db', entity, status), key);
  }

  /** The step removes a record of the table that is in this status. */
  predicate Takes(s: State, l: Label, entity: Entity, status: Status) {
    Removes(s, l) && Counted(s.db, s.pending[l.ticket].key, entity, status)
  }

  /** How many removals of a run took a record in this status. */
  function Taken(s: State, ls: seq<Label>, entity: Entity, status: Status): nat {
    if ls == [] then 0
    else
      Taken(s, ls[..|ls| - 1], entity, status)
      + (if Takes(Run(s, ls[..|ls| - 1]), ls[|ls| - 1], entity, status) then 1 else 0)
  }

  /** What a count owes to the audits. */
  function Balance(db: Database, entity: Entity, status: Status): int {
    |KeysIn(db, entity, status)| - Entered(db.audits, entity, status) + Left(db.audits, entity, status)
  }

  lemma StepKeepsBalance(s: State, l: Label, entity: Entity, status: Status)
    requires WellFormed(s) && Observant(s)
    ensures Balance(Step(s, l).db, entity, status)
         == Balance(s.db, entity, status) - (if Takes(s, l, entity, status) then 1 else 0)
  {
    if Lands(s, l) {
      LandingKeepsBalance(s, l, entity, status);
    } else if l.Create? && Creates(s, l, l.key) {
      CreationKeepsBalance(s, l, entity, status);
    } else if Removes(s, l) {
      var key := s.pending[l.ticket].key;
      CountAfterWrite(s.db, Step(s, l).db, key, s.db.rows[key].(deleted := true), entity, status);
    } else {
      OthersKeepBalance(s, l, entity, status);
    }
  }

  lemma CreationKeepsBalance(s: State, l: Label, entity: Entity, status: Status)
    requires WellFormed(s) && l.Create? && Creates(s, l, l.key)
    ensures Balance(Step(s, l).db, entity, status) == Balance(s.db, entity, status)
  {
    var item := NewRow(l.key.entity, l.code, l.fields, l.actor, l.now);
    var a := NewAudit(l.key, l.actor, l.requestId, CreateAction, Absent, In(item.status),
                      CreationDetail(l.key.entity));
    CountAfterWrite(s.db, Step(s, l).db, l.key, item, entity, status);
    TalliesAppend(s.db.audits, a, entity, status);
  }

  lemma SameRowsSameKeys(db: Database, db': Database, entity: Entity, status: Status)
    requires db'.rows == db.rows
    ensures KeysIn(db', entity, status) == KeysIn(db, entity, status)
  {
  }

  lemma OthersKeepBalance(s: State, l: Label, entity: Entity, status: Status)
    requires !Lands(s, l) && !Removes(s, l) && (l.Create? ==> !Creates(s, l, l.key))
    ensures Balance(Step(s, l).db, entity, status) == Balance(s.db, entity, status)
  {
    hide Prepare, KeysIn;
    if l.AuditRemoval? && Step(s, l).db != s.db {
      var a := Step(s, l).db.audits[|s.db.audits|];
      TalliesAppend(s.db.audits, a, entity, status);
      SameRowsSameKeys(s.db, Step(s, l).db, entity, status);
    }
  }

  lemma LandingKeepsBalance(s: State, l: Label, entity: Entity, status: Status)
    requires WellFormed(s) && Observant(s) && Lands(s, l)
    ensures Balance(Step(s, l).db, entity, status) == Balance(s.db, entity, status)
  {
    var p := s.pending[l.ticket];
    StepLands(s, l, p.key);
    LandingIsExact(s, l);
    assert KeyOK(s, p.key);
    LandingGrows(s, l);
    PrepareKeepsIdentity(p.snapshot, p.req);
    CountAfterWrite(s.db, Step(s, l).db, p.key, p.item, entity, status);
    TalliesAppend(s.db.audits, AuditOf(p.key, NewEntry(p)), entity, status);
  }

  /** Conservation: along any run a status count is the count at the start plus the audits that enter the status,
      minus those that leave it, minus the records removed in it. */
  lemma {:induction false} CountsAreAudited(s0: State, ls: seq<Label>, entity: Entity, status: Status)
    requires Initial(s0) && AllDisciplined(s0, ls)
    ensures var db := Run(s0, ls).db;
            |KeysIn(db, entity, status)|
            == |KeysIn(s0.db, entity, status)| + Entered(db.audits, entity, status) - Left(db.audits, entity, status)
               - Taken(s0, ls, entity, status)
  {
    hide Step;
    if ls != [] {
      var front := ls[..|ls| - 1];
      CountsAreAudited(s0, front, entity, status);
      ReachableIsWellFormed(s0, front);
      VersionsAreAChain(s0, front, Key(entity, 0));
      StepKeepsBalance(Run(s0, front), ls[|ls| - 1], entity, status);
    }
  }
}
