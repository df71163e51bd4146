/** What every run keeps, whatever versions the clients send. */
module Invariants {
  import opened Records
  import opened Rules
  import opened Tables
  import opened Machine

  /** Versions are dense, and identity columns never move. */
  ghost predicate TrailShape(key: Key, t: seq<Entry>) {
    forall i | 0 <= i < |t| ::
      && t[i].row.version == i + 1
      && t[i].row.code == t[0].row.code
      && t[i].row.createdAt == t[0].row.createdAt
      && !t[i].row.deleted
      && Fits(key.entity, t[i].row)
      && (t[i].cause.Answered? <==> i > 0)
  }

  /** Both logs are images of the record's versions, and the row is the last of them. */
  ghost predicate KeyOK(s: State, key: Key) {
    var t := Trail(s, key);
    && TrailShape(key, t)
    && RevisionsOf(s.db.revisions, key) == RevisionsFrom(key, t)
    && VersionAudits(s.db.audits, key) == AuditsFrom(key, t)
    && (key in s.db.rows <==> t != [])
    && (t != [] ==> s.db.rows[key].(deleted := false) == t[|t| - 1].row)
  }

  ghost predicate PendingOK(s: State, p: Pending) {
    && p.key in s.db.rows
    && (p.Write? ==>
          && 1 <= p.snapshot.version <= |Trail(s, p.key)|
          && Trail(s, p.key)[p.snapshot.version - 1].row == p.snapshot
          && Prepare(p.snapshot, p.req) == Ok(p.item))
    && (p.Removal? && p.done ==> s.db.rows[p.key].deleted)
  }

  ghost predicate CodesUnique(db: Database) {
    forall j, k | j in db.rows && k in db.rows ::
      j.entity == k.entity && db.rows[j].code == db.rows[k].code ==> j == k
  }

  ghost predicate SeenOK(s: State) {
    forall o | o in s.seen :: o.key in s.db.rows && o.version <= s.db.rows[o.key].version
  }

  ghost predicate WellFormed(s: State) {
    && (forall key :: KeyOK(s, key))
    && (forall ticket | ticket in s.pending :: PendingOK(s, s.pending[ticket]))
    && SeenOK(s)
    && CodesUnique(s.db)
  }

  predicate SeedFor(e: Entry, row: Row) {
    e.cause.Seeded? && e.cause.actor != "" && e.row == row
  }

  /** Before the first request: no rows, or rows seeded at version 1 with a revision and no audit. */
  ghost predicate Initial(s: State) {
    && s.pending == map[] && s.seen == {} && s.db.audits == []
    && CodesUnique(s.db)
    && (forall key :: KeyOK(s, key))
    && (forall key | key in s.db.rows ::
          var t := Trail(s, key); |t| == 1 && SeedFor(t[0], s.db.rows[key]))
  }

  lemma NoDuplicateRevision(s: State, key: Key, version: nat)
    requires KeyOK(s, key) && version > |Trail(s, key)|
    ensures !HasRevision(s.db, key, version)
  {
    if HasRevision(s.db, key, version) {
      var r :| r in s.db.revisions && r.key == key && r.version == version;
      RevisionsOfMembers(s.db.revisions, key, r);
    }
  }

  /** The unique index on (record, version) never rejects a write whose compare-and-set succeeded. */
  lemma UniqueIndexNeverRejects(s: State, ticket: nat)
    requires WellFormed(s) && Pends(s, ticket)
    ensures var p := s.pending[ticket];
            && Outcome(s.db, p) != Err(DuplicateRevision)
            && (Outcome(s.db, p).Ok? <==> Live(s.db, p.key) && s.db.rows[p.key].version == p.req.expected)
  {
    var p := s.pending[ticket];
    assert PendingOK(s, p) && KeyOK(s, p.key);
    PrepareKeepsIdentity(p.snapshot, p.req);
    if Live(s.db, p.key) && s.db.rows[p.key].version == p.req.expected {
      NoDuplicateRevision(s, p.key, p.item.version);
    }
  }

  /** The step gives one record one more version and moves both logs with it. */
  ghost predicate Grows(s: State, s': State, key: Key, e: Entry) {
    && !e.cause.Seeded?
    && s'.trail == s.trail[key := Trail(s, key) + [e]]
    && s'.db.rows == s.db.rows[key := e.row]
    && s'.db.revisions == s.db.revisions + [RevisionOf(key, e)]
    && s'.db.audits == s.db.audits + [AuditOf(key, e)]
  }

  lemma GrowthOfOne(s: State, s': State, key: Key, e: Entry)
    requires KeyOK(s, key) && Grows(s, s', key, e) && TrailShape(key, Trail(s, key) + [e])
    ensures KeyOK(s', key)
  {
  }

  lemma GrowthOfAnother(s: State, s': State, key: Key, e: Entry, other: Key)
    requires KeyOK(s, other) && Grows(s, s', key, e) && other != key
    ensures KeyOK(s', other)
  {
  }

  /** A pending request is still well formed once its record has only gained versions. */
  lemma PendingSurvives(s: State, s': State, p: Pending)
    requires PendingOK(s, p) && Trail(s, p.key) <= Trail(s', p.key)
    requires p.key in s'.db.rows && (s.db.rows[p.key].deleted ==> s'.db.rows[p.key].deleted)
    ensures PendingOK(s', p)
  {
  }

  lemma GrowthKeeps(s: State, s': State, key: Key, e: Entry)
    requires WellFormed(s) && Grows(s, s', key, e) && TrailShape(key, Trail(s, key) + [e])
    requires key in s.db.rows ==> !s.db.rows[key].deleted && s.db.rows[key].version <= e.row.version
    requires s'.seen == s.seen && CodesUnique(s'.db)
    requires forall t | t in s'.pending :: t in s.pending && s.pending[t] == s'.pending[t]
    ensures WellFormed(s')
  {
    forall k ensures KeyOK(s', k) {
      assert KeyOK(s, k);
      if k == key {
        GrowthOfOne(s, s', key, e);
      } else {
        GrowthOfAnother(s, s', key, e, k);
      }
    }
    forall t | t in s'.pending ensures PendingOK(s', s'.pending[t]) {
      assert PendingOK(s, s.pending[t]);
      PendingSurvives(s, s', s.pending[t]);
    }
  }

  function FirstEntry(l: Label): Entry
    requires l.Create?
  {
    Entry(NewRow(l.key.entity, l.code, l.fields, l.actor, l.now), Creation(l.actor, l.requestId), Absent)
  }

  lemma CreationGrows(s: State, l: Label)
    requires l.Create? && AfterCreate(s, l) != s && KeyOK(s, l.key)
    ensures Trail(s, l.key) == [] && Trail(s, l.key) + [FirstEntry(l)] == [FirstEntry(l)]
    ensures Grows(s, AfterCreate(s, l), l.key, FirstEntry(l))
    ensures l.key !in s.db.rows && !CodeTaken(s.db, l.key.entity, l.code)
    ensures AfterCreate(s, l).seen == s.seen && AfterCreate(s, l).pending == s.pending
  {
  }

  lemma NewCodeIsUnique(db: Database, key: Key, row: Row)
    requires CodesUnique(db) && key !in db.rows && !CodeTaken(db, key.entity, row.code)
    ensures CodesUnique(db.(rows := db.rows[key := row]))
  {
  }

  lemma CreateKeeps(s: State, l: Label)
    requires WellFormed(s) && l.Create?
    ensures WellFormed(Step(s, l))
  {
    assert KeyOK(s, l.key);
    var s' := AfterCreate(s, l);
    assert s' == Step(s, l);
    hide Step, AfterCreate;
    if s' != s {
      CreationGrows(s, l);
      NewCodeIsUnique(s.db, l.key, FirstEntry(l).row);
      GrowthKeeps(s, s', l.key, FirstEntry(l));
    }
  }

  /** A compare-and-set that succeeds meets the last version of a live record. */
  lemma LandingFacts(s: State, p: Pending)
    requires p.Write? && PendingOK(s, p) && KeyOK(s, p.key) && Outcome(s.db, p).Ok?
    ensures s.db.rows[p.key].version == p.req.expected == |Trail(s, p.key)|
    ensures !s.db.rows[p.key].deleted
    ensures s.db.rows[p.key] == Trail(s, p.key)[p.req.expected - 1].row
    ensures p.item.version == p.req.expected + 1
    ensures Overwrite(s.db.rows[p.key], p.item) == p.item
  {
  }

  function NewEntry(p: Pending): Entry
    requires p.Write?
  {
    Entry(p.item, Answered(p.req), In(p.snapshot.status))
  }

  lemma LandingShape(s: State, p: Pending)
    requires p.Write? && PendingOK(s, p) && KeyOK(s, p.key) && Outcome(s.db, p).Ok?
    ensures TrailShape(p.key, Trail(s, p.key) + [NewEntry(p)])
  {
    LandingFacts(s, p);
    PrepareKeepsIdentity(p.snapshot, p.req);
  }

  /** A commit that lands grows its record by the prepared row, whatever snapshot that came from. */
  lemma LandingGrows(s: State, l: Label)
    requires Lands(s, l)
    requires PendingOK(s, s.pending[l.ticket]) && KeyOK(s, s.pending[l.ticket].key)
    ensures var p := s.pending[l.ticket]; Grows(s, Step(s, l), p.key, NewEntry(p))
  {
    var p := s.pending[l.ticket];
    LandingFacts(s, p);
    assert RevisionOf(p.key, NewEntry(p)) == Revision(
        p.key, p.item.version, p.item.status, p.item.fields.evidence, p.req.actor, p.req.requestId,
        ActionOf(p.req), ReasonOf(p.key.entity, p.req), p.item.updatedAt);
  }

  lemma CommitKeeps(s: State, l: Label)
    requires WellFormed(s) && l.Commit?
    ensures WellFormed(Step(s, l))
  {
    var s' := AfterCommit(s, l);
    if Lands(s, l) {
      var p := s.pending[l.ticket];
      assert PendingOK(s, p) && KeyOK(s, p.key);
      LandingFacts(s, p);
      LandingShape(s, p);
      LandingGrows(s, l);
      PrepareKeepsIdentity(p.snapshot, p.req);
      GrowthKeeps(s, s', p.key, NewEntry(p));
    } else {
      Untouched(s, s');
    }
  }

  /** Steps that only drop requests or add sightings of current versions. */
  lemma Untouched(s: State, s': State)
    requires WellFormed(s) && s'.db == s.db && s'.trail == s.trail && SeenOK(s')
    requires forall t | t in s'.pending ::
               PendingOK(s', s'.pending[t]) || (t in s.pending && s.pending[t] == s'.pending[t])
    ensures WellFormed(s')
  {
    forall key ensures KeyOK(s', key) { assert KeyOK(s, key); }
    forall t | t in s'.pending ensures PendingOK(s', s'.pending[t]) {
      if t in s.pending && s.pending[t] == s'.pending[t] {
        assert PendingOK(s, s.pending[t]);
      }
    }
  }

  lemma BeginKeeps(s: State, l: Label)
    requires WellFormed(s) && l.Begin?
    ensures WellFormed(Step(s, l))
  {
    var s' := Step(s, l);
    assert KeyOK(s, l.key);
    if s' != s {
      assert PendingOK(s', s'.pending[l.ticket]);
    }
    Untouched(s, s');
  }

  lemma RemovalKeepsKey(s: State, l: Label, key: Key)
    requires KeyOK(s, key) && Removes(s, l)
    ensures KeyOK(AfterRemove(s, l), key)
  {
    assert Trail(AfterRemove(s, l), key) == Trail(s, key);
  }

  lemma RemoveKeeps(s: State, l: Label)
    requires WellFormed(s) && l.Remove?
    ensures WellFormed(Step(s, l))
  {
    var s' := Step(s, l);
    if Removes(s, l) {
      forall key ensures KeyOK(s', key) {
        RemovalKeepsKey(s, l, key);
      }
      forall t | t in s'.pending ensures PendingOK(s', s'.pending[t]) {
        assert PendingOK(s, s.pending[t]);
      }
    } else {
      Untouched(s, s');
    }
  }

  lemma AuditRemovalKeeps(s: State, l: Label)
    requires WellFormed(s) && l.AuditRemoval?
    ensures WellFormed(Step(s, l))
  {
    var s' := Step(s, l);
    if s'.db == s.db {
      Untouched(s, s');
    } else {
      var a := s'.db.audits[|s.db.audits|];
      forall key ensures KeyOK(s', key) {
        assert KeyOK(s, key);
        assert Trail(s', key) == Trail(s, key);
        VersionAuditsAppend(s.db.audits, a, key);
      }
      forall t | t in s'.pending ensures PendingOK(s', s'.pending[t]) {
        assert PendingOK(s, s.pending[t]);
      }
    }
  }

  lemma StepKeeps(s: State, l: Label)
    requires WellFormed(s)
    ensures WellFormed(Step(s, l))
  {
    match l
    case Create(_, _, _, _, _, _) => CreateKeeps(s, l);
    case Read(_, _) => Untouched(s, Step(s, l));
    case Begin(_, _, _, _) => BeginKeeps(s, l);
    case Commit(_) => CommitKeeps(s, l);
    case Abort(_) => Untouched(s, Step(s, l));
    case BeginDelete(_, key, _, _) => assert KeyOK(s, key); Untouched(s, Step(s, l));
    case Remove(_) => RemoveKeeps(s, l);
    case AuditRemoval(_) => AuditRemovalKeeps(s, l);
  }

  lemma {:induction false} RunKeeps(s: State, ls: seq<Label>)
    requires WellFormed(s)
    ensures WellFormed(Run(s, ls))
  {
    if ls != [] {
      RunKeeps(s, ls[..|ls| - 1]);
      StepKeeps(Run(s, ls[..|ls| - 1]), ls[|ls| - 1]);
    }
  }
}
