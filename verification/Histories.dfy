/** What a chain of accepted requests looks like, record by record. */
module Chains {
  import opened Records
  import opened StatusGraph
  import opened Rules
  import opened Machine
  import opened Invariants
  import opened Runs
  import opened Serializability

  function ActorOf(e: Entry): string {
    match e.cause
    case Seeded(actor, _) => actor
    case Creation(actor, _) => actor
    case Answered(req) => req.actor
  }

  ghost predicate Signed(t: seq<Entry>) {
    forall i | 0 <= i < |t| :: ActorOf(t[i]) != ""
  }

  /** The versions of a created record in a disciplined run of authenticated users. */
  ghost predicate Story(key: Key, t: seq<Entry>) {
    t != [] && IsNew(key.entity, t[0]) && TrailShape(key, t) && Chain(t) && Signed(t)
  }

  ghost predicate DecidedBy(e: Entry, control: Control)
    requires control.AuthorizationControl?
  {
    && Decided(e.row.status)
    && e.cause.Answered? && e.cause.req.Transition? && IsReviewerRole(e.cause.req.role)
    && ActorOf(e) != control.submittedBy
    && e.row.control.AuthorizationControl? && e.row.control.submittedBy == control.submittedBy
    && e.row.control.reviewedBy == ActorOf(e) && e.row.control.reviewReason == e.cause.req.reason
  }

  lemma StoryPrefix(key: Key, t: seq<Entry>)
    requires Story(key, t) && |t| > 1
    ensures Story(key, t[..|t| - 1])
    ensures Follows(t[|t| - 2], t[|t| - 1]) && Fits(key.entity, t[|t| - 2].row)
  {
  }

  /** Version d + 1 is the last draft. */
  ghost predicate DraftAt(t: seq<Entry>, d: nat) {
    && d < |t| && t[d].row.status == Draft
    && (forall i | d < i < |t| :: SinceDraft(t[d], t[i]))
  }

  predicate SinceDraft(draft: Entry, e: Entry) {
    e.row.status != Draft && e.row.fields == draft.row.fields && e.cause.Answered? && e.cause.req.Transition?
  }

  lemma DraftStays(t: seq<Entry>, d: nat)
    requires |t| > 1 && DraftAt(t[..|t| - 1], d) && Follows(t[|t| - 2], t[|t| - 1]) && t[|t| - 1].row.status != Draft
    ensures DraftAt(t, d)
  {
  }

  /** Business fields change in drafts only. */
  lemma {:induction false} LastDraft(key: Key, t: seq<Entry>) returns (d: nat)
    requires Story(key, t)
    ensures DraftAt(t, d)
  {
    if t[|t| - 1].row.status == Draft {
      d := |t| - 1;
    } else {
      StoryPrefix(key, t);
      d := LastDraft(key, t[..|t| - 1]);
      DraftStays(t, d);
    }
  }

  function Ahead(status: Status): nat {
    if status == Review then 3 else VersionsLeft(status)
  }

  /** Version j + 1 is a submission, and everything after it was decided by others under reviewing roles. */
  ghost predicate SubmittedAt(t: seq<Entry>, j: nat) {
    && 0 < j < |t| && t[j - 1].row.status == Draft && t[j].row.status == Review
    && t[j].cause.Answered? && t[j].cause.req.Transition?
    && t[j].row.control == AuthorizationControl(ActorOf(t[j]), "", "")
    && t[|t| - 1].row.control.AuthorizationControl?
    && t[|t| - 1].row.control.submittedBy == ActorOf(t[j])
    && (forall i | j < i < |t| :: DecidedBy(t[i], t[j].row.control))
    && |t| - 1 - j + Ahead(t[|t| - 1].row.status) <= 3
  }

  lemma SubmissionOpens(t: seq<Entry>)
    requires |t| > 1 && Follows(t[|t| - 2], t[|t| - 1])
    requires t[|t| - 2].row.control.AuthorizationControl? && t[|t| - 1].row.status == Review
    ensures SubmittedAt(t, |t| - 1)
  {
  }

  lemma DecisionExtends(t: seq<Entry>, j: nat)
    requires |t| > 1 && Follows(t[|t| - 2], t[|t| - 1]) && SubmittedAt(t[..|t| - 1], j) && ActorOf(t[j]) != ""
    requires t[|t| - 1].row.status != Draft && t[|t| - 1].row.status != Review && t[|t| - 2].row.status != Draft
    ensures SubmittedAt(t, j)
  {
  }

  lemma OnlySubmissionsLeaveDraft(prev: Entry, e: Entry)
    requires Follows(prev, e) && prev.row.control.AuthorizationControl?
    requires e.row.status != Draft && e.row.status != Review
    ensures prev.row.status != Draft
  {
  }

  /** From the last submission on, an authorization is decided by other people, under reviewing roles, and
      within three versions. */
  lemma {:induction false} LastSubmission(key: Key, t: seq<Entry>) returns (j: nat)
    requires Story(key, t) && key.entity == ReleaseAuthorization && t[|t| - 1].row.status != Draft
    ensures SubmittedAt(t, j)
  {
    StoryPrefix(key, t);
    if t[|t| - 1].row.status == Review {
      j := |t| - 1;
      SubmissionOpens(t);
    } else {
      OnlySubmissionsLeaveDraft(t[|t| - 2], t[|t| - 1]);
      j := LastSubmission(key, t[..|t| - 1]);
      assert ActorOf(t[j]) != "";
      DecisionExtends(t, j);
    }
  }

  /** The drafts of a certificate: each one's preparer is whoever wrote it, and nobody has verified it. */
  ghost predicate Prepared(e: Entry) {
    e.row.status == Draft && e.row.control == CertificateControl(ActorOf(e), "")
  }

  ghost predicate PublishedAfter(t: seq<Entry>, d: nat)
    requires d < |t|
  {
    var rest, last, preparer := |t| - 1 - d, t[|t| - 1], ActorOf(t[d]);
    && rest <= 3
    && (rest >= 1 ==> t[d + 1].row.status == Valid && ActorOf(t[d + 1]) != preparer)
    && (rest == 2 ==> t[d + 2].row.status == Expired || t[d + 2].row.status == Revoked)
    && (rest == 3 ==> t[d + 2].row.status == Expired && t[d + 3].row.status == Revoked)
    && last.row.control.CertificateControl? && last.row.control.preparedBy == preparer
    && (last.row.status == Valid || last.row.status == Expired ==>
          rest >= 1 && last.row.control.verifiedBy == ActorOf(t[d + 1]))
    && (last.row.status == Revoked ==>
          last.row.control.verifiedBy == ActorOf(last) != preparer)
  }

  lemma PublicationStep(t: seq<Entry>, d: nat)
    requires |t| > 1 && d < |t| - 1 && PublishedAfter(t[..|t| - 1], d)
    requires Follows(t[|t| - 2], t[|t| - 1]) && t[d].row.status == Draft
    ensures t[|t| - 1].row.status != Draft ==> PublishedAfter(t, d)
    ensures t[|t| - 1].row.status == Draft ==> d == |t| - 2 && Prepared(t[|t| - 1]) && PublishedAfter(t, |t| - 1)
  {
  }

  ghost predicate CertificateShaped(t: seq<Entry>, d: nat) {
    d < |t| && (forall i | 0 <= i <= d :: Prepared(t[i])) && PublishedAfter(t, d)
  }

  lemma ShapeExtends(t: seq<Entry>, d: nat) returns (d': nat)
    requires |t| > 1 && CertificateShaped(t[..|t| - 1], d) && Follows(t[|t| - 2], t[|t| - 1])
    ensures CertificateShaped(t, d')
  {
    assert Prepared(t[..|t| - 1][d]);
    assert forall i | 0 <= i <= d :: t[i] == t[..|t| - 1][i];
    PublicationStep(t, d);
    hide PublishedAfter, Follows;
    d' := if t[|t| - 1].row.status == Draft then |t| - 1 else d;
  }

  /** A certificate is drafts, then at most one valid, one expired and one revoked version. */
  lemma {:induction false} CertificateShape(key: Key, t: seq<Entry>) returns (d: nat)
    requires Story(key, t) && key.entity == CertificateRecord
    ensures d < |t| && (forall i | 0 <= i <= d :: Prepared(t[i]))
    ensures PublishedAfter(t, d)
  {
    if |t| == 1 {
      d := 0;
    } else {
      StoryPrefix(key, t);
      hide Story, PublishedAfter, Prepared, Follows;
      d := CertificateShape(key, t[..|t| - 1]);
      d := ShapeExtends(t, d);
    }
  }

  lemma RunDownStep(prev: Entry, e: Entry)
    requires Follows(prev, e) && (Decided(prev.row.status) || Published(prev.row.status))
    ensures Decided(e.row.status) || Published(e.row.status)
    ensures VersionsLeft(e.row.status) < VersionsLeft(prev.row.status) && e.row.fields == prev.row.fields
  {
  }

  /** Decided and published records only run down. */
  lemma {:induction false} RunsDown(t: seq<Entry>, a: nat)
    requires Chain(t) && a < |t|
    requires Decided(t[a].row.status) || Published(t[a].row.status)
    ensures |t| - 1 - a + VersionsLeft(t[|t| - 1].row.status) <= VersionsLeft(t[a].row.status)
    ensures Decided(t[|t| - 1].row.status) || Published(t[|t| - 1].row.status)
    ensures t[|t| - 1].row.fields == t[a].row.fields
    decreases |t|
  {
    if a < |t| - 1 {
      RunsDown(t[..|t| - 1], a);
      RunDownStep(t[|t| - 2], t[|t| - 1]);
    }
  }
}

/** The control rules read off the stored logs, for every disciplined run of authenticated users. */
module Histories {
  import opened Records
  import opened StatusGraph
  import opened Rules
  import opened Tables
  import opened Machine
  import opened Invariants
  import opened Runs
  import opened Serializability
  import opened Chains

  ghost predicate SignedRequests(s: State) {
    forall t | Pends(s, t) :: s.pending[t].req.actor != ""
  }

  lemma {:induction false} VersionsAreSigned(s0: State, ls: seq<Label>, key: Key)
    requires Initial(s0) && AllAuthentic(ls)
    ensures SignedRequests(Run(s0, ls)) && Signed(Trail(Run(s0, ls), key))
  {
    if ls == [] {
      assert KeyOK(s0, key);
    } else {
      var front, l := ls[..|ls| - 1], ls[|ls| - 1];
      VersionsAreSigned(s0, front, key);
      ReachableIsWellFormed(s0, front);
      var s := Run(s0, front);
      assert Authentic(l);
      StaysSigned(s, l);
      if LandsOn(s, l, key) {
        StepLands(s, l, key);
      } else if Creates(s, l, key) {
        StepCreates(s, l, key);
      } else {
        StepFrame(s, l, key);
      }
    }
  }

  lemma StaysSigned(s: State, l: Label)
    requires SignedRequests(s) && Authentic(l)
    ensures SignedRequests(Step(s, l))
  {
  }

  /** A record that a request of this run created. */
  ghost predicate CreatedIn(s0: State, ls: seq<Label>, key: Key) {
    && Initial(s0) && AllDisciplined(s0, ls) && AllAuthentic(ls)
    && key !in s0.db.rows && key in Run(s0, ls).db.rows
  }

  lemma StoryOf(s0: State, ls: seq<Label>, key: Key)
    requires CreatedIn(s0, ls, key)
    ensures var s := Run(s0, ls); KeyOK(s, key) && Story(key, Trail(s, key))
  {
    ReachableIsWellFormed(s0, ls);
    VersionsAreAChain(s0, ls, key);
    VersionsAreSigned(s0, ls, key);
    OnlySeedsAreSeeded(s0, ls, key);
    var s := Run(s0, ls);
    assert KeyOK(s, key);
  }

  /** Revision j is the submission that the present status of the authorization rests on. */
  ghost predicate ControlledSince(history: seq<Revision>, row: Row, j: nat) {
    && row.control.AuthorizationControl?
    && 0 < j < |history|
    && history[j - 1].status == Draft
    && history[j].status == Review && history[j].action == TransitionAction
    && history[j].actor == row.control.submittedBy != ""
    && (forall i | j < i < |history| ::
          Decided(history[i].status) && history[i].action == TransitionAction && history[i].actor != history[j].actor)
    && (if j == |history| - 1 then row.control.reviewedBy == row.control.reviewReason == ""
        else
          && row.control.reviewedBy == history[|history| - 1].actor
          && history[|history| - 1].reason == Reason(row.control.reviewReason))
  }

  lemma SubmissionShowsInLog(key: Key, t: seq<Entry>, j: nat, row: Row)
    requires SubmittedAt(t, j) && Signed(t) && row.(deleted := false) == t[|t| - 1].row
    ensures ControlledSince(RevisionsFrom(key, t), row, j)
    ensures forall i | j < i < |t| ::
              t[i].cause.Answered? && t[i].cause.req.Transition? && IsReviewerRole(t[i].cause.req.role)
  {
  }

  /** Dual control: an authorization beyond draft rests on a last submission by SubmittedBy, and every later
      version was made by somebody else under a reviewing role; at most three can follow the submission. The
      role is that of the request that made the revision: revision i is what entry i of the trail leaves. */
  lemma DualControl(s0: State, ls: seq<Label>, key: Key) returns (j: nat)
    requires CreatedIn(s0, ls, key) && key.entity == ReleaseAuthorization
    requires Run(s0, ls).db.rows[key].status != Draft
    ensures var s := Run(s0, ls);
            var row, history, t := s.db.rows[key], RevisionsOf(s.db.revisions, key), Trail(s, key);
            && ControlledSince(history, row, j)
            && |history| - 1 - j + Ahead(row.status) <= 3
            && history == RevisionsFrom(key, t)
            && (forall i | j < i < |t| ::
                  t[i].cause.Answered? && t[i].cause.req.Transition? && IsReviewerRole(t[i].cause.req.role))
  {
    StoryOf(s0, ls, key);
    var t := Trail(Run(s0, ls), key);
    j := LastSubmission(key, t);
    SubmissionShowsInLog(key, t, j, Run(s0, ls).db.rows[key]);
  }

  /** Revision d is the last draft, and all revisions from it on show one evidence. */
  ghost predicate FrozenSince(history: seq<Revision>, evidence: string, d: nat) {
    && d < |history| && history[d].status == Draft
    && (forall i | d < i < |history| :: history[i].status != Draft)
    && (forall i | d <= i < |history| :: history[i].evidence == evidence)
  }

  lemma DraftShowsInLog(key: Key, t: seq<Entry>, d: nat)
    requires DraftAt(t, d)
    ensures FrozenSince(RevisionsFrom(key, t), t[|t| - 1].row.fields.evidence, d)
    ensures t[|t| - 1].row.fields == t[d].row.fields
  {
  }

  lemma PastRowsAreFrozen(t: seq<Entry>, d: nat, past: Row)
    requires DraftAt(t, d) && 1 <= past.version <= |t| && t[past.version - 1].row == past.(deleted := false)
    ensures past.version > d ==> past.fields == t[|t| - 1].row.fields
  {
  }

  lemma FrozenNow(s: State, key: Key) returns (d: nat)
    requires KeyOK(s, key) && Story(key, Trail(s, key)) && key in s.db.rows
    ensures DraftAt(Trail(s, key), d)
    ensures FrozenSince(RevisionsOf(s.db.revisions, key), s.db.rows[key].fields.evidence, d)
  {
    hide Story;
    d := LastDraft(key, Trail(s, key));
    DraftShowsInLog(key, Trail(s, key), d);
  }

  /** A row read at any earlier time after version d already had the fields the record has now. */
  ghost predicate ReadFrozen(past: Database, db: Database, key: Key, d: nat) {
    key in past.rows && past.rows[key].version > d ==>
      key in db.rows && past.rows[key].fields == db.rows[key].fields
  }

  lemma PastIsFrozen(past: Database, s: State, key: Key, d: nat)
    requires key in past.rows && KeyOK(s, key) && DraftAt(Trail(s, key), d)
    requires var row, t := past.rows[key], Trail(s, key);
             1 <= row.version <= |t| && t[row.version - 1].row == row.(deleted := false)
    ensures ReadFrozen(past, s.db, key, d)
  {
    PastRowsAreFrozen(Trail(s, key), d, past.rows[key]);
  }

  /** Frozen evidence: a record beyond draft has the business fields of its last draft version d, every
      revision since then shows the same evidence, and so did the row whenever it was read since then. */
  lemma FrozenSinceLastDraft(s0: State, before: seq<Label>, after: seq<Label>, key: Key) returns (d: nat)
    requires CreatedIn(s0, before + after, key)
    ensures var db := Run(s0, before + after).db;
            FrozenSince(RevisionsOf(db.revisions, key), db.rows[key].fields.evidence, d)
    ensures ReadFrozen(Run(s0, before).db, Run(s0, before + after).db, key, d)
  {
    var s, past := Run(s0, before + after), Run(s0, before).db;
    StoryOf(s0, before + after, key);
    hide Step, Run, AllDisciplined, KeyOK, Story, DraftAt, FrozenSince;
    d := FrozenNow(s, key);
    if key in past.rows {
      TrailRemembersRows(s0, before, after, key);
      PastIsFrozen(past, s, key, d);
    }
  }

  function Graph(entity: Entity): map<Status, set<Status>> {
    match entity
    case CertificateRecord => CERTIFICATE_RECORD_TRANSITIONS
    case ReleaseAuthorization => RELEASE_AUTHORIZATION_TRANSITIONS
  }

  /** The audit steps the status along one edge of the entity's graph, or stays in draft. */
  ghost predicate AuditStep(entity: Entity, a: Audit) {
    || (a.action == UpdateAction && a.before == In(Draft) && a.after == In(Draft))
    || (a.action == TransitionAction && a.before.In? && a.after.In?
        && CanTransition(Graph(entity), a.before.status, a.after.status))
  }

  ghost predicate Walk(entity: Entity, audits: seq<Audit>) {
    && audits != []
    && audits[0].action == CreateAction && audits[0].before == Absent && audits[0].after == In(Draft)
    && (forall i | 0 < i < |audits| :: AuditStep(entity, audits[i]) && audits[i].before == audits[i - 1].after)
  }

  lemma EntryIsAStep(entity: Entity, key: Key, prev: Entry, e: Entry)
    requires Follows(prev, e) && Fits(entity, prev.row)
    ensures AuditStep(entity, AuditOf(key, e))
    ensures AuditOf(key, e).before == In(prev.row.status) && AuditOf(key, e).after == In(e.row.status)
  {
  }

  lemma {:induction false} StoryIsAWalk(key: Key, t: seq<Entry>)
    requires Story(key, t)
    ensures var audits := AuditsFrom(key, t);
            && Walk(key.entity, audits) && |audits| == |t|
            && audits[|audits| - 1].after == In(t[|t| - 1].row.status)
  {
    if |t| == 1 {
      assert AuditsFrom(key, t[..0]) == [];
    } else {
      StoryPrefix(key, t);
      StoryIsAWalk(key, t[..|t| - 1]);
      EntryIsAStep(key.entity, key, t[|t| - 2], t[|t| - 1]);
    }
  }

  /** The version audits of a created record are a walk through its status graph from nothing to the
      status the row has now. */
  lemma AuditsAreAWalk(s0: State, ls: seq<Label>, key: Key)
    requires CreatedIn(s0, ls, key)
    ensures var db := Run(s0, ls).db;
            var audits := VersionAudits(db.audits, key);
            && Walk(key.entity, audits)
            && |audits| == db.rows[key].version
            && audits[|audits| - 1].after == In(db.rows[key].status)
  {
    StoryOf(s0, ls, key);
    StoryIsAWalk(key, Trail(Run(s0, ls), key));
  }

  /** Revision d is the last draft of the certificate; what follows was published independently of its preparer. */
  ghost predicate CertifiedSince(history: seq<Revision>, row: Row, d: nat) {
    && d < |history| && row.control.CertificateControl?
    && var rest, preparer := |history| - 1 - d, history[d].actor;
       && (forall i | 0 <= i <= d :: history[i].status == Draft)
       && rest <= 3
       && (rest >= 1 ==> history[d + 1].status == Valid && history[d + 1].actor != preparer)
       && (rest == 2 ==> history[d + 2].status == Expired || history[d + 2].status == Revoked)
       && (rest == 3 ==> history[d + 2].status == Expired && history[d + 3].status == Revoked)
       && row.control.preparedBy == preparer
       && (row.status == Draft <==> rest == 0)
       && (row.status == Draft ==> row.control.verifiedBy == "")
       && (row.status == Valid || row.status == Expired ==> row.control.verifiedBy == history[d + 1].actor)
       && (row.status == Revoked ==> row.control.verifiedBy == history[|history| - 1].actor != preparer)
  }

  lemma LogShows(key: Key, e: Entry)
    ensures var r := RevisionOf(key, e);
            r.actor == ActorOf(e) && r.status == e.row.status && r.evidence == e.row.fields.evidence
  {
  }

  lemma DraftsShowInLog(key: Key, t: seq<Entry>, d: nat)
    requires d < |t| && forall i | 0 <= i <= d :: Prepared(t[i])
    ensures forall i | 0 <= i <= d :: RevisionsFrom(key, t)[i].status == Draft
  {
    forall i | 0 <= i <= d ensures RevisionsFrom(key, t)[i].status == Draft {
      assert Prepared(t[i]);
    }
  }

  lemma ShapeShowsInLog(key: Key, t: seq<Entry>, d: nat, row: Row)
    requires d < |t| && PublishedAfter(t, d) && row.(deleted := false) == t[|t| - 1].row
    requires forall i | 0 <= i <= d :: Prepared(t[i])
    ensures CertifiedSince(RevisionsFrom(key, t), row, d)
  {
    DraftsShowInLog(key, t, d);
    assert Prepared(t[d]);
    LogShows(key, t[d]);
    LogShows(key, t[|t| - 1]);
    hide RevisionOf, ActorOf;
    if d + 1 < |t| {
      LogShows(key, t[d + 1]);
    }
    if d + 2 < |t| {
      LogShows(key, t[d + 2]);
    }
  }

  lemma CertificateHistory(s0: State, ls: seq<Label>, key: Key) returns (d: nat)
    requires CreatedIn(s0, ls, key) && key.entity == CertificateRecord
    ensures var db := Run(s0, ls).db;
            CertifiedSince(RevisionsOf(db.revisions, key), db.rows[key], d)
  {
    hide Step, Run, AllDisciplined, CertifiedSince;
    StoryOf(s0, ls, key);
    var s := Run(s0, ls);
    d := CertificateShape(key, Trail(s, key));
    ShapeShowsInLog(key, Trail(s, key), d, s.db.rows[key]);
  }

  predicate IsSubmission(r: Revision) {
    r.action == TransitionAction && r.status == Review
  }

  predicate IsReturn(r: Revision) {
    r.action == TransitionAction && r.status == Draft
  }

  function Submissions(history: seq<Revision>): nat {
    if history == [] then 0
    else Submissions(history[..|history| - 1]) + (if IsSubmission(history[|history| - 1]) then 1 else 0)
  }

  function ReturnsToDraft(history: seq<Revision>): nat {
    if history == [] then 0
    else ReturnsToDraft(history[..|history| - 1]) + (if IsReturn(history[|history| - 1]) then 1 else 0)
  }

  function Open(status: Status): nat {
    if status == Draft then 0 else 1
  }

  lemma CycleStep(key: Key, prev: Entry, e: Entry)
    requires Follows(prev, e) && prev.row.control.AuthorizationControl?
    ensures var r := RevisionOf(key, e);
            Open(prev.row.status) + (if IsSubmission(r) then 1 else 0)
            == Open(e.row.status) + (if IsReturn(r) then 1 else 0)
  {
  }

  lemma {:induction false} StoryCycles(key: Key, t: seq<Entry>)
    requires Story(key, t) && key.entity == ReleaseAuthorization
    ensures var history := RevisionsFrom(key, t);
            Submissions(history) == ReturnsToDraft(history) + Open(t[|t| - 1].row.status)
  {
    var history := RevisionsFrom(key, t);
    var front := RevisionsFrom(key, t[..|t| - 1]);
    assert history[..|t| - 1] == front && history[|t| - 1] == RevisionOf(key, t[|t| - 1]);
    if |t| > 1 {
      StoryPrefix(key, t);
      StoryCycles(key, t[..|t| - 1]);
      CycleStep(key, t[|t| - 2], t[|t| - 1]);
    }
  }

  /** Every submission but the one the record is now under was answered by a return to draft. */
  lemma SubmissionsAreReturnedOrOpen(s0: State, ls: seq<Label>, key: Key)
    requires CreatedIn(s0, ls, key) && key.entity == ReleaseAuthorization
    ensures var db := Run(s0, ls).db;
            var history := RevisionsOf(db.revisions, key);
            Submissions(history) == ReturnsToDraft(history) + (if db.rows[key].status == Draft then 0 else 1)
  {
    StoryOf(s0, ls, key);
    StoryCycles(key, Trail(Run(s0, ls), key));
  }

  /** A decided authorization or a published certificate, seeded or created, has at most two versions left,
      and never becomes editable again. */
  lemma FewVersionsLeft(s0: State, before: seq<Label>, after: seq<Label>, key: Key)
    requires Initial(s0) && AllDisciplined(s0, before + after)
    requires key in Run(s0, before).db.rows
    requires var status := Run(s0, before).db.rows[key].status; Decided(status) || Published(status)
    ensures var row, row' := Run(s0, before).db.rows[key], Run(s0, before + after).db.rows;
            && key in row'
            && row'[key].version + VersionsLeft(row'[key].status) <= row.version + VersionsLeft(row.status)
            && (Decided(row'[key].status) || Published(row'[key].status))
            && row'[key].fields == row.fields
  {
    hide Step, Run, AllDisciplined;
    var row := Run(s0, before).db.rows[key];
    var s := Run(s0, before + after);
    TrailRemembersRows(s0, before, after, key);
    VersionsAreAChain(s0, before + after, key);
    ReachableIsWellFormed(s0, before + after);
    assert KeyOK(s, key);
    RunsDown(Trail(s, key), row.version - 1);
    assert s.db.rows[key].version == |Trail(s, key)|;
  }
}

/** Facts about single rows that hold on seeded tables too. */
module Fields {
  import opened Records
  import opened StatusGraph
  import opened Rules
  import A = AuthorizationRules
  import opened Tables
  import opened Machine
  import opened Invariants
  import opened Runs
  import opened Serializability
  import opened Chains
  import opened Histories

  /** A row names the people its status needs, and they are different people. */
  predicate Sound(row: Row) {
    match row.control
    case CertificateControl(preparedBy, verifiedBy) =>
      && preparedBy != ""
      && (row.status == Draft || Published(row.status))
      && (row.status == Draft ==> verifiedBy == "")
      && (Published(row.status) ==> verifiedBy != "" && verifiedBy != preparedBy)
    case AuthorizationControl(submittedBy, reviewedBy, reviewReason) =>
      && (row.status == Draft || row.status == Review || Decided(row.status))
      && (row.status != Draft ==> submittedBy != "")
      && (row.status == Review ==> reviewedBy == "" && reviewReason == "")
      && (Decided(row.status) ==> reviewedBy != "" && reviewedBy != submittedBy)
  }

  lemma PrepareStaysSound(row: Row, req: Request)
    requires Sound(row) && req.actor != "" && Prepare(row, req).Ok?
    ensures Sound(Prepare(row, req).value)
  {
  }

  ghost predicate SoundState(s: State) {
    && (forall key | key in s.db.rows :: Sound(s.db.rows[key]))
    && (forall t | Pends(s, t) :: Sound(s.pending[t].item))
  }

  lemma PreparedStaysSound(s: State, l: Label, t: nat)
    requires SoundState(s) && Authentic(l) && Pends(Step(s, l), t)
    ensures Sound(Step(s, l).pending[t].item)
  {
    hide Sound, Prepare;
    if !Pends(s, t) || s.pending[t] != Step(s, l).pending[t] {
      PrepareStaysSound(s.db.rows[l.key], l.req);
    }
  }

  lemma StepStaysSound(s: State, l: Label)
    requires WellFormed(s) && SoundState(s) && Authentic(l)
    ensures SoundState(Step(s, l))
  {
    var s' := Step(s, l);
    forall key | key in s'.db.rows ensures Sound(s'.db.rows[key]) {
      if LandsOn(s, l, key) {
        StepLands(s, l, key);
      } else if Creates(s, l, key) {
        StepCreates(s, l, key);
        assert s'.db.rows[key] == NewRow(key.entity, l.code, l.fields, l.actor, l.now);
      } else {
        StepFrame(s, l, key);
      }
    }
    hide Sound;
    forall t | Pends(s', t) ensures Sound(s'.pending[t].item) {
      PreparedStaysSound(s, l, t);
    }
  }

  /** Whatever versions clients send, no row is ever decided or published by the person who submitted or
      prepared it as far as its own columns tell. */
  lemma {:induction false} FieldsStaySound(s0: State, ls: seq<Label>)
    requires Initial(s0) && SoundState(s0) && AllAuthentic(ls)
    ensures SoundState(Run(s0, ls))
  {
    if ls != [] {
      FieldsStaySound(s0, ls[..|ls| - 1]);
      ReachableIsWellFormed(s0, ls[..|ls| - 1]);
      assert Authentic(ls[|ls| - 1]);
      StepStaysSound(Run(s0, ls[..|ls| - 1]), ls[|ls| - 1]);
    }
  }

  /** The guard on an empty SubmittedBy never lets a decision through. */
  lemma DecisionsAlwaysHaveASubmitter(s0: State, ls: seq<Label>, key: Key, req: Request)
    requires Initial(s0) && SoundState(s0) && AllAuthentic(ls)
    ensures var db := Run(s0, ls).db;
            Live(db, key) && key.entity == ReleaseAuthorization && req.Transition? && A.Decision(req.target)
            && Prepare(db.rows[key], req).Ok? ==>
              && db.rows[key].control.AuthorizationControl?
              && db.rows[key].control.submittedBy != ""
              && db.rows[key].control.submittedBy != req.actor
  {
    FieldsStaySound(s0, ls);
    ReachableIsWellFormed(s0, ls);
    assert KeyOK(Run(s0, ls), key);
  }

  /** The authorization names whoever submitted it. */
  predicate HasSubmitter(row: Row) {
    row.control.AuthorizationControl? && row.control.submittedBy != ""
  }

  lemma SubmitterFollows(prev: Entry, e: Entry)
    requires Follows(prev, e) && HasSubmitter(prev.row) && ActorOf(e) != ""
    ensures HasSubmitter(e.row)
  {
  }

  lemma {:induction false} SubmitterStays(t: seq<Entry>, a: nat)
    requires Chain(t) && Signed(t) && a < |t| && HasSubmitter(t[a].row)
    ensures HasSubmitter(t[|t| - 1].row)
    decreases |t|
  {
    if a < |t| - 1 {
      SubmitterStays(t[..|t| - 1], a);
      SubmitterFollows(t[|t| - 2], t[|t| - 1]);
    }
  }

  /** From its first submission on an authorization never loses its SubmittedBy, not even when it is returned
      to draft and edited there. */
  lemma SubmittersAreNeverLost(s0: State, before: seq<Label>, after: seq<Label>, key: Key)
    requires Initial(s0) && SoundState(s0)
    requires AllDisciplined(s0, before + after) && AllAuthentic(before + after)
    requires key in Run(s0, before).db.rows && key.entity == ReleaseAuthorization
    requires var row := Run(s0, before).db.rows[key]; row.status != Draft || HasSubmitter(row)
    ensures key in Run(s0, before + after).db.rows && HasSubmitter(Run(s0, before + after).db.rows[key])
  {
    hide Step, Run, AllDisciplined, Prepare, Chain, Signed;
    var row, s := Run(s0, before).db.rows[key], Run(s0, before + after);
    forall i | 0 <= i < |before| ensures Authentic(before[i]) {
      assert Authentic((before + after)[i]);
    }
    FieldsStaySound(s0, before);
    ReachableIsWellFormed(s0, before);
    assert KeyOK(Run(s0, before), key) && Sound(row);
    TrailRemembersRows(s0, before, after, key);
    VersionsAreAChain(s0, before + after, key);
    VersionsAreSigned(s0, before + after, key);
    ReachableIsWellFormed(s0, before + after);
    assert KeyOK(s, key);
    SubmitterStays(Trail(s, key), row.version - 1);
  }
}
