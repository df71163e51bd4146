/** Theorems about all runs that need nothing from the clients. */
module Runs {
  import opened Records
  import opened Rules
  import opened Tables
  import opened Ledger
  import opened Machine
  import opened Invariants
  import opened Rely

  lemma InitialIsWellFormed(s: State)
    requires Initial(s)
    ensures WellFormed(s)
  {
  }

  lemma ReachableIsWellFormed(s0: State, ls: seq<Label>)
    requires Initial(s0)
    ensures WellFormed(Run(s0, ls))
  {
    InitialIsWellFormed(s0);
    RunKeeps(s0, ls);
  }

  predicate LandsOn(s: State, l: Label, key: Key) {
    Lands(s, l) && s.pending[l.ticket].key == key
  }

  predicate RemovesFrom(s: State, l: Label, key: Key) {
    Removes(s, l) && s.pending[l.ticket].key == key
  }

  predicate Creates(s: State, l: Label, key: Key) {
    && l.Create? && l.key == key
    && ValidBusinessFields(l.code, l.fields)
    && CreateTx(s.db, key, NewRow(key.entity, l.code, l.fields, l.actor, l.now), l.actor, l.requestId).Ok?
  }

  /** A record is changed by its creation, by commits that land on it and by its removal, and by nothing else. */
  lemma StepFrame(s: State, l: Label, key: Key)
    requires !LandsOn(s, l, key) && !Creates(s, l, key)
    ensures Trail(Step(s, l), key) == Trail(s, key)
    ensures key in Step(s, l).db.rows <==> key in s.db.rows
    ensures key in s.db.rows ==>
              Step(s, l).db.rows[key]
              == if RemovesFrom(s, l, key) then s.db.rows[key].(deleted := true) else s.db.rows[key]
  {
    hide Prepare, NewRow, NewAudit, ReasonOf, CreationReason, CreationDetail;
    match l
    case Create(_, _, _, _, _, _) =>
    case Commit(t) =>
      if Lands(s, l) {
        assert s.pending[t].key != key;
      }
    case _ =>
  }

  lemma StepCreates(s: State, l: Label, key: Key)
    requires Creates(s, l, key)
    ensures key !in s.db.rows && key in Step(s, l).db.rows && !Step(s, l).db.rows[key].deleted
    ensures Trail(Step(s, l), key)
         == [Entry(NewRow(key.entity, l.code, l.fields, l.actor, l.now), Creation(l.actor, l.requestId), Absent)]
    ensures !LandsOn(s, l, key) && !RemovesFrom(s, l, key)
  {
  }

  lemma StepLands(s: State, l: Label, key: Key)
    requires WellFormed(s) && LandsOn(s, l, key)
    ensures var p, s' := s.pending[l.ticket], Step(s, l);
            && PendingOK(s, p)
            && key in s.db.rows && !s.db.rows[key].deleted
            && Trail(s', key) == Trail(s, key) + [NewEntry(p)]
            && |Trail(s, key)| == p.req.expected > 0
            && s.db.rows[key] == Trail(s, key)[p.req.expected - 1].row
            && key in s'.db.rows && s'.db.rows[key] == p.item
    ensures !Creates(s, l, key) && !RemovesFrom(s, l, key)
  {
    var p := s.pending[l.ticket];
    assert PendingOK(s, p) && KeyOK(s, key);
    LandingFacts(s, p);
    LandingGrows(s, l);
  }

  /** A creation goes through exactly if no required field is blank and key and code are unused, and then it
      stores what was sent. */
  lemma CreationsStoreTheirInput(s: State, l: Label)
    requires WellFormed(s) && l.Create?
    ensures Creates(s, l, l.key) <==> !Blank(l.code, l.fields) && Creatable(s.db, l.key, l.code)
    ensures Creates(s, l, l.key) ==>
              WritesCreation(s.db, Step(s, l).db, l.key, l.code, l.fields, l.actor, l.requestId, l.now)
    ensures !Creates(s, l, l.key) ==> Step(s, l) == s
  {
    CreationWrites(s.db, l.key, l.code, l.fields, l.actor, l.requestId, l.now);
    assert KeyOK(s, l.key);
    if l.key !in s.db.rows {
      NoDuplicateRevision(s, l.key, 1);
    }
  }

  /** A commit that lands writes its request: the row it was checked against as the request edits it, and one
      revision and one audit that tell of the request in its own words. */
  lemma CommitsRecordTheirRequest(s: State, l: Label, key: Key)
    requires WellFormed(s) && LandsOn(s, l, key)
    ensures var p := s.pending[l.ticket]; WritesRequest(s.db, Step(s, l).db, key, p.req, p.snapshot)
  {
    var p := s.pending[l.ticket];
    assert PendingOK(s, p) && KeyOK(s, key);
    LandingFacts(s, p);
    assert TrailShape(key, Trail(s, key));
    CommitWrites(s.db, key, p.req, p.snapshot);
  }

  /** One record's versions as a step sees them. */
  ghost predicate Grown(s: State, s': State, key: Key) {
    && Trail(s, key) <= Trail(s', key)
    && (key in s.db.rows ==>
          && key in s'.db.rows
          && (s.db.rows[key].deleted ==> s'.db.rows[key] == s.db.rows[key] && Trail(s', key) == Trail(s, key)))
  }

  lemma StepGrows(s: State, l: Label, key: Key)
    requires WellFormed(s)
    ensures Grown(s, Step(s, l), key)
  {
    if LandsOn(s, l, key) {
      StepLands(s, l, key);
    } else if Creates(s, l, key) {
      StepCreates(s, l, key);
      assert KeyOK(s, key);
    } else {
      StepFrame(s, l, key);
    }
  }

  lemma {:induction false} RunGrows(s: State, ls: seq<Label>, key: Key)
    requires WellFormed(s)
    ensures Grown(s, Run(s, ls), key)
  {
    if ls != [] {
      var mid := Run(s, ls[..|ls| - 1]);
      RunKeeps(s, ls[..|ls| - 1]);
      RunGrows(s, ls[..|ls| - 1], key);
      StepGrows(mid, ls[|ls| - 1], key);
    }
  }

  lemma WellFormedIsValid(s: State)
    requires WellFormed(s)
    ensures DatabaseValid(s.db)
  {
    forall key ensures RecordValid(s.db, key) {
      assert KeyOK(s, key);
    }
  }

  lemma GrownEvolves(s: State, s': State, key: Key)
    requires WellFormed(s) && WellFormed(s') && Grown(s, s', key)
    ensures RecordEvolves(s.db, s'.db, key)
  {
    assert KeyOK(s, key) && KeyOK(s', key);
  }

  /** The guarantee behind every reader's and writer's reliance: any further steps only evolve the tables. */
  lemma RunEvolves(s: State, ls: seq<Label>)
    requires WellFormed(s)
    ensures Evolves(s.db, Run(s, ls).db) && DatabaseValid(Run(s, ls).db)
  {
    hide Step;
    var s' := Run(s, ls);
    RunKeeps(s, ls);
    WellFormedIsValid(s');
    forall key ensures RecordEvolves(s.db, s'.db, key) {
      RunGrows(s, ls, key);
      GrownEvolves(s, s', key);
    }
  }

  /** Audit a belongs to the same change as revision r; appendAudit stands in for blank names. */
  predicate SameChange(r: Revision, a: Audit) {
    && a.key == r.key
    && a.action == r.action
    && a.after == In(r.status)
    && (r.action != CreateAction ==> a.detail == r.reason)
    && a.actor == (if r.actor == "" then "system" else r.actor)
    && a.requestId == (if r.requestId == "" then "untracked" else r.requestId)
  }

  /** The first version of a record that a request created. */
  predicate IsNew(entity: Entity, e: Entry) {
    && e.cause.Creation? && e.before == Absent
    && e.row == NewRow(entity, e.row.code, e.row.fields, e.cause.actor, e.row.createdAt)
  }

  /** The causes of a record's versions: a first one that is a seed or a creation, then only requests. */
  lemma {:induction false} OnlySeedsAreSeeded(s0: State, ls: seq<Label>, key: Key)
    requires Initial(s0)
    ensures var t := Trail(Run(s0, ls), key);
            t != [] ==>
              && (t[0].cause.Seeded? <==> key in s0.db.rows)
              && (t[0].cause.Creation? ==> IsNew(key.entity, t[0]))
  {
    assert KeyOK(s0, key);
    if ls != [] {
      var s, l := Run(s0, ls[..|ls| - 1]), ls[|ls| - 1];
      OnlySeedsAreSeeded(s0, ls[..|ls| - 1], key);
      ReachableIsWellFormed(s0, ls[..|ls| - 1]);
      if LandsOn(s, l, key) {
        StepLands(s, l, key);
      } else if Creates(s, l, key) {
        StepCreates(s, l, key);
        InitialIsWellFormed(s0);
        RunGrows(s0, ls[..|ls| - 1], key);
      } else {
        StepFrame(s, l, key);
      }
    }
  }

  lemma ImagesAreOneChange(key: Key, e: Entry)
    requires !e.cause.Seeded?
    ensures SameChange(RevisionOf(key, e), AuditOf(key, e))
  {
  }

  ghost predicate Lockstep(history: seq<Revision>, audits: seq<Audit>, skip: nat) {
    && |audits| == |history| - skip
    && (forall i | skip <= i < |history| :: SameChange(history[i], audits[i - skip]))
  }

  lemma {:induction false} ImagesInLockstep(key: Key, t: seq<Entry>, skip: nat)
    requires t != [] && skip == (if t[0].cause.Seeded? then 1 else 0)
    requires forall i | 0 < i < |t| :: !t[i].cause.Seeded?
    ensures Lockstep(RevisionsFrom(key, t), AuditsFrom(key, t), skip)
  {
    var front, last := t[..|t| - 1], t[|t| - 1];
    if front == [] {
      assert AuditsFrom(key, front) == [];
    } else {
      ImagesInLockstep(key, front, skip);
    }
    if !last.cause.Seeded? {
      ImagesAreOneChange(key, last);
    }
  }

  /** Revisions carry exactly the versions 1..Version, and the version audits follow them one to one;
      a seeded first version is the only one without an audit. */
  lemma DenseLockstepLogs(s0: State, ls: seq<Label>, key: Key)
    requires Initial(s0) && key in Run(s0, ls).db.rows
    ensures var db := Run(s0, ls).db;
            var history := RevisionsOf(db.revisions, key);
            && |history| == db.rows[key].version
            && (forall i | 0 <= i < |history| :: history[i].version == i + 1)
            && Lockstep(history, VersionAudits(db.audits, key), if key in s0.db.rows then 1 else 0)
  {
    var s := Run(s0, ls);
    ReachableIsWellFormed(s0, ls);
    assert KeyOK(s, key);
    OnlySeedsAreSeeded(s0, ls, key);
    ImagesInLockstep(key, Trail(s, key), if key in s0.db.rows then 1 else 0);
  }

  lemma LaterHistory(db: Database, db': Database, key: Key)
    requires RecordValid(db, key) && RecordValid(db', key) && RecordEvolves(db, db', key) && key in db.rows
    ensures var row, answer := db.rows[key], RevisionsOf(db'.revisions, key);
            && 1 <= row.version <= |answer|
            && answer[..row.version] == RevisionsOf(db.revisions, key)
            && (forall i | 0 <= i < |answer| :: answer[i].version == i + 1)
            && answer[row.version - 1].status == row.status
            && answer[row.version - 1].evidence == row.fields.evidence
  {
  }

  /** The bookkeeping tells the truth: whatever row a record had at some point of a run is the version of
      that number in its trail at the end. */
  lemma TrailRemembersRows(s0: State, before: seq<Label>, after: seq<Label>, key: Key)
    requires Initial(s0) && key in Run(s0, before).db.rows
    ensures var row, t := Run(s0, before).db.rows[key], Trail(Run(s0, before + after), key);
            && 1 <= row.version <= |t|
            && t[row.version - 1].row == row.(deleted := false)
  {
    RunConcat(s0, before, after);
    ReachableIsWellFormed(s0, before);
    RunGrows(Run(s0, before), after, key);
    assert KeyOK(Run(s0, before), key);
  }

  /** Get reads the row and then, with any steps between, the revisions: the list it returns still starts
      with the complete history of the version it returns. */
  lemma TornGet(s0: State, before: seq<Label>, during: seq<Label>, key: Key)
    requires Initial(s0) && Live(Run(s0, before).db, key)
    ensures var atRow, atRevisions := Run(s0, before), Run(s0, before + during);
            var row, answer := atRow.db.rows[key], RevisionsOf(atRevisions.db.revisions, key);
            && 1 <= row.version <= |answer|
            && answer[..row.version] == RevisionsOf(atRow.db.revisions, key)
            && (forall i | 0 <= i < |answer| :: answer[i].version == i + 1)
            && answer[row.version - 1].status == row.status
            && answer[row.version - 1].evidence == row.fields.evidence
  {
    hide Step;
    var s := Run(s0, before);
    RunConcat(s0, before, during);
    ReachableIsWellFormed(s0, before);
    RunEvolves(s, during);
    WellFormedIsValid(s);
    assert RecordValid(s.db, key) && RecordValid(Run(s, during).db, key);
    assert RecordEvolves(s.db, Run(s, during).db, key);
    LaterHistory(s.db, Run(s, during).db, key);
  }

  /** The history of a record shows that request req made version expected + 1. */
  ghost predicate Attributes(db: Database, key: Key, req: Request) {
    var history := RevisionsOf(db.revisions, key);
    && key in db.rows
    && req.expected + 1 <= db.rows[key].version == |history|
    && TellsOf(history[req.expected], key, req)
  }

  /** A request that landed stays in the history under its own name for good. */
  lemma AnswerShowsOwnVersion(s0: State, before: seq<Label>, l: Label, after: seq<Label>)
    requires Initial(s0) && Lands(Run(s0, before), l)
    ensures var p := Run(s0, before).pending[l.ticket];
            Attributes(Run(s0, before + [l] + after).db, p.key, p.req)
  {
    hide Step;
    var s := Run(s0, before);
    ReachableIsWellFormed(s0, before);
    RunOne(s, l);
    RunConcat(s0, before, [l]);
    RunConcat(s0, before + [l], after);
    LandedIsAttributed(s, l, after);
  }

  /** A commit that loses, and a delete that finds its row gone, end their request and touch nothing else. */
  lemma LosersLeaveNoTrace(s: State, l: Label)
    requires (l.Commit? && Pends(s, l.ticket) && !Lands(s, l))
             || (l.Remove? && l.ticket in s.pending && s.pending[l.ticket].Removal? && !s.pending[l.ticket].done
                 && !Removes(s, l))
    ensures Step(s, l) == s.(pending := s.pending - {l.ticket})
  {
  }

  lemma LandedIsAttributed(s: State, l: Label, after: seq<Label>)
    requires WellFormed(s) && Lands(s, l)
    ensures var p := s.pending[l.ticket]; Attributes(Run(Step(s, l), after).db, p.key, p.req)
  {
    hide Step, Prepare, TellsOf, RevisionOf;
    var p := s.pending[l.ticket];
    StepLands(s, l, p.key);
    PrepareKeepsIdentity(p.snapshot, p.req);
    EntryTells(p);
    StepKeeps(s, l);
    HistoryAt(Step(s, l), after, p.key, p.req.expected);
  }

  lemma EntryTells(p: Pending)
    requires p.Write? && Prepare(p.snapshot, p.req) == Ok(p.item)
    ensures TellsOf(RevisionOf(p.key, NewEntry(p)), p.key, p.req)
  {
    AcceptedRequestsEdit(p.snapshot, p.req);
    hide Prepare;
  }

  /** A version's revision never changes after the version exists. */
  lemma HistoryAt(s: State, ls: seq<Label>, key: Key, i: nat)
    requires WellFormed(s) && i < |Trail(s, key)|
    ensures var db := Run(s, ls).db;
            && key in db.rows
            && i < db.rows[key].version == |RevisionsOf(db.revisions, key)|
            && RevisionsOf(db.revisions, key)[i] == RevisionOf(key, Trail(s, key)[i])
  {
    RunGrows(s, ls, key);
    RunKeeps(s, ls);
    assert KeyOK(Run(s, ls), key);
  }

  /** How many requests committed against version expected of a record. */
  function Winners(s: State, ls: seq<Label>, key: Key, expected: nat): nat {
    if ls == [] then 0
    else
      var mid, l := Run(s, ls[..|ls| - 1]), ls[|ls| - 1];
      Winners(s, ls[..|ls| - 1], key, expected)
      + (if LandsOn(mid, l, key) && mid.pending[l.ticket].req.expected == expected then 1 else 0)
  }

  function Landings(s: State, ls: seq<Label>, key: Key): nat {
    if ls == [] then 0
    else
      Landings(s, ls[..|ls| - 1], key) + (if LandsOn(Run(s, ls[..|ls| - 1]), ls[|ls| - 1], key) then 1 else 0)
  }

  function Removals(s: State, ls: seq<Label>, key: Key): nat {
    if ls == [] then 0
    else
      var mid, l := Run(s, ls[..|ls| - 1]), ls[|ls| - 1];
      Removals(s, ls[..|ls| - 1], key) + (if RemovesFrom(mid, l, key) then 1 else 0)
  }

  lemma StepVersion(s: State, l: Label, key: Key)
    requires WellFormed(s)
    ensures LandsOn(s, l, key) ==> |Trail(s, key)| == s.pending[l.ticket].req.expected > 0
    ensures |Trail(Step(s, l), key)|
         == |Trail(s, key)| + (if LandsOn(s, l, key) || Creates(s, l, key) then 1 else 0)
    ensures Creates(s, l, key) ==> |Trail(s, key)| == 0 && !LandsOn(s, l, key)
  {
    assert KeyOK(s, key);
    if LandsOn(s, l, key) {
      StepLands(s, l, key);
    } else if Creates(s, l, key) {
      StepCreates(s, l, key);
    } else {
      StepFrame(s, l, key);
    }
  }

  /** Every version below the current one was replaced by exactly one request; no other version ever was. */
  lemma {:induction false} SingleWinnerPerVersion(s0: State, ls: seq<Label>, key: Key, expected: nat)
    requires Initial(s0)
    ensures var db := Run(s0, ls).db;
            Winners(s0, ls, key, expected)
            == if key in db.rows && 1 <= expected < db.rows[key].version then 1 else 0
  {
    assert KeyOK(s0, key);
    if ls != [] {
      var front := ls[..|ls| - 1];
      SingleWinnerPerVersion(s0, front, key, expected);
      ReachableIsWellFormed(s0, front);
      ReachableIsWellFormed(s0, ls);
      StepVersion(Run(s0, front), ls[|ls| - 1], key);
      assert KeyOK(Run(s0, front), key) && KeyOK(Run(s0, ls), key);
    }
  }

  /** A version is one plus the number of updates and transitions that committed. */
  lemma {:induction false} VersionCountsCommits(s0: State, ls: seq<Label>, key: Key)
    requires Initial(s0)
    ensures var db := Run(s0, ls).db;
            if key in db.rows then db.rows[key].version == 1 + Landings(s0, ls, key)
            else Landings(s0, ls, key) == 0
  {
    assert KeyOK(s0, key);
    if ls != [] {
      var front := ls[..|ls| - 1];
      VersionCountsCommits(s0, front, key);
      ReachableIsWellFormed(s0, front);
      ReachableIsWellFormed(s0, ls);
      StepVersion(Run(s0, front), ls[|ls| - 1], key);
      assert KeyOK(Run(s0, front), key) && KeyOK(Run(s0, ls), key);
    }
  }

  /** A record is soft-deleted at most once, and exactly when its row says so. */
  lemma {:induction false} DeletedOnce(s0: State, ls: seq<Label>, key: Key)
    requires Initial(s0)
    ensures var db := Run(s0, ls).db;
            Removals(s0, ls, key) == if key in db.rows && db.rows[key].deleted then 1 else 0
  {
    assert KeyOK(s0, key);
    if ls != [] {
      var front := ls[..|ls| - 1];
      DeletedOnce(s0, front, key);
      ReachableIsWellFormed(s0, front);
      var s, l := Run(s0, front), ls[|ls| - 1];
      if LandsOn(s, l, key) {
        StepLands(s, l, key);
        var p := s.pending[l.ticket];
        PrepareKeepsIdentity(p.snapshot, p.req);
        assert KeyOK(s, key);
      } else if Creates(s, l, key) {
        StepCreates(s, l, key);
      } else {
        StepFrame(s, l, key);
      }
    }
  }

  /** Nothing commits to a deleted record: its row and its history stay as they are. */
  lemma DeletedIsFinal(s0: State, before: seq<Label>, after: seq<Label>, key: Key)
    requires Initial(s0)
    requires var db := Run(s0, before).db; key in db.rows && db.rows[key].deleted
    ensures var db, db' := Run(s0, before).db, Run(s0, before + after).db;
            && key in db'.rows && db'.rows[key] == db.rows[key]
            && RevisionsOf(db'.revisions, key) == RevisionsOf(db.revisions, key)
  {
    ReachableIsWellFormed(s0, before);
    RunConcat(s0, before, after);
    var s := Run(s0, before);
    RunKeeps(s, after);
    RunGrows(s, after, key);
    assert KeyOK(s, key) && KeyOK(Run(s, after), key);
  }

  predicate Documented(db: Database, a: Audit) {
    a.action == DeleteAction ==>
      && a.before == In(Draft) && a.after == Removed
      && a.key in db.rows && db.rows[a.key].deleted
  }

  ghost predicate DeletesAreDocumented(s: State) {
    && (forall t | t in s.pending && s.pending[t].Removal? :: s.pending[t].snapshot.status == Draft)
    && (forall a | a in s.db.audits :: Documented(s.db, a))
  }

  lemma NewDeleteAudit(s: State, l: Label, a: Audit)
    requires a in Step(s, l).db.audits && a !in s.db.audits && a.action == DeleteAction
    ensures l.AuditRemoval? && l.ticket in s.pending
    ensures var p := s.pending[l.ticket];
            && p.Removal? && p.done && p.key == a.key
            && AuditsDeletion(a, p.key, p.actor, p.requestId, p.snapshot.status)
  {
    var p := s.pending[l.ticket];
    DeletionIsAudited(s.db, p.key, p.snapshot, p.actor, p.requestId);
  }

  lemma RemovalsAreOfDrafts(s: State, l: Label, t: nat)
    requires t in Step(s, l).pending && Step(s, l).pending[t].Removal?
    ensures t in s.pending && s.pending[t].Removal? ==> Step(s, l).pending[t].snapshot == s.pending[t].snapshot
    ensures !(t in s.pending && s.pending[t].Removal?) ==> Step(s, l).pending[t].snapshot.status == Draft
  {
  }

  lemma StepDocuments(s: State, l: Label)
    requires WellFormed(s) && DeletesAreDocumented(s)
    ensures DeletesAreDocumented(Step(s, l))
  {
    var s' := Step(s, l);
    hide Step;
    forall t | t in s'.pending && s'.pending[t].Removal? ensures s'.pending[t].snapshot.status == Draft {
      RemovalsAreOfDrafts(s, l, t);
    }
    forall a | a in s'.db.audits ensures Documented(s'.db, a) {
      StepGrows(s, l, a.key);
      if a !in s.db.audits && a.action == DeleteAction {
        NewDeleteAudit(s, l, a);
        assert PendingOK(s, s.pending[l.ticket]);
      } else {
        assert Documented(s.db, a) || a.action != DeleteAction;
      }
    }
  }

  /** A delete audit always says that a draft was deleted, and its row is deleted; whether the row still was a
      draft when it went is not for the audit to know. */
  lemma {:induction false} DeleteAuditsFollowDeletes(s0: State, ls: seq<Label>)
    requires Initial(s0)
    ensures DeletesAreDocumented(Run(s0, ls))
  {
    hide Step;
    if ls != [] {
      var front := ls[..|ls| - 1];
      DeleteAuditsFollowDeletes(s0, front);
      ReachableIsWellFormed(s0, front);
      StepDocuments(Run(s0, front), ls[|ls| - 1]);
    }
  }
}
