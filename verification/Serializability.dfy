/** What the compare-and-set buys when clients only send versions they have received.

    The checks of a request look at a snapshot, but the write compares the client's version with the stored
    one and then replaces the whole row. The two meet only if the client's version is the snapshot's. */
module Serializability {
  import opened Records
  import opened Rules
  import opened Tables
  import opened Machine
  import opened Invariants
  import opened Runs

  /** e is the answer to a request done atomically on the row of prev. */
  ghost predicate Follows(prev: Entry, e: Entry) {
    && e.cause.Answered?
    && e.cause.req.expected == prev.row.version
    && Prepare(prev.row, e.cause.req) == Ok(e.row)
    && e.before == In(prev.row.status)
  }

  ghost predicate Chain(t: seq<Entry>) {
    |t| > 1 ==> Chain(t[..|t| - 1]) && Follows(t[|t| - 2], t[|t| - 1])
  }

  /** No request in flight names a version newer than the one it was checked against. */
  ghost predicate Observant(s: State) {
    forall t | Pends(s, t) :: s.pending[t].req.expected <= s.pending[t].snapshot.version
  }

  /** A landing request whose version had been received overwrites exactly the row it was checked against. */
  lemma LandingIsExact(s: State, l: Label)
    requires WellFormed(s) && Lands(s, l)
    ensures var p := s.pending[l.ticket];
            p.req.expected <= p.snapshot.version ==> s.db.rows[p.key] == p.snapshot
  {
    StepLands(s, l, s.pending[l.ticket].key);
  }

  lemma StepStaysObservant(s: State, l: Label)
    requires WellFormed(s) && Observant(s) && Disciplined(s, l)
    ensures Observant(Step(s, l))
  {
    var s' := Step(s, l);
    forall t | Pends(s', t)
      ensures s'.pending[t].req.expected <= s'.pending[t].snapshot.version
    {
      if t !in s.pending || s.pending[t] != s'.pending[t] {
        match l
        case Begin(_, client, key, req) =>
          assert Sighting(client, key, req.expected) in s.seen;
        case _ =>
      } else {
        assert Pends(s, t);
      }
    }
  }

  lemma StepExtendsChain(s: State, l: Label, key: Key)
    requires WellFormed(s) && Observant(s) && Chain(Trail(s, key))
    ensures Chain(Trail(Step(s, l), key))
  {
    if LandsOn(s, l, key) {
      StepLands(s, l, key);
      LandingIsExact(s, l);
      var p, t := s.pending[l.ticket], Trail(s, key);
      assert KeyOK(s, key);
      assert Follows(t[|t| - 1], NewEntry(p));
      assert (t + [NewEntry(p)])[..|t|] == t;
    } else if Creates(s, l, key) {
      StepCreates(s, l, key);
    } else {
      StepFrame(s, l, key);
    }
  }

  /** Every record's versions are a chain of requests answered one at a time. */
  lemma {:induction false} VersionsAreAChain(s0: State, ls: seq<Label>, key: Key)
    requires Initial(s0) && AllDisciplined(s0, ls)
    ensures Observant(Run(s0, ls)) && Chain(Trail(Run(s0, ls), key))
  {
    if ls == [] {
      assert KeyOK(s0, key);
    } else {
      var front := ls[..|ls| - 1];
      VersionsAreAChain(s0, front, key);
      ReachableIsWellFormed(s0, front);
      StepStaysObservant(Run(s0, front), ls[|ls| - 1]);
      StepExtendsChain(Run(s0, front), ls[|ls| - 1], key);
    }
  }

  /** A commit that lands in a disciplined run replaces the very row its checks saw, by an edit of that row. */
  lemma CommitOverwritesItsSnapshot(s0: State, ls: seq<Label>, l: Label)
    requires Initial(s0) && AllDisciplined(s0, ls) && Lands(Run(s0, ls), l)
    ensures var s := Run(s0, ls);
            var p := s.pending[l.ticket];
            && s.db.rows[p.key] == p.snapshot
            && p.req.expected == p.snapshot.version
            && !p.snapshot.deleted
            && p.key in Step(s, l).db.rows
            && Edits(p.snapshot, p.req, Step(s, l).db.rows[p.key])
  {
    var s := Run(s0, ls);
    var p := s.pending[l.ticket];
    VersionsAreAChain(s0, ls, p.key);
    ReachableIsWellFormed(s0, ls);
    LandingIsExact(s, l);
    StepLands(s, l, p.key);
    assert KeyOK(s, p.key);
    AcceptedRequestsEdit(p.snapshot, p.req);
  }

  /** The sequential object: one operation after the other, each on the tables as they are. */
  datatype Operation =
    | DoCreate(key: Key, code: string, fields: BusinessFields, actor: string, requestId: string, now: nat)
    | DoRequest(key: Key, req: Request)
    | DoRemove(key: Key)
    | DoAuditRemoval(key: Key, snapshot: Row, actor: string, requestId: string)

  function Execute(db: Database, op: Operation): Result<Database> {
    match op
    case DoCreate(key, code, fields, actor, requestId, now) =>
      if !ValidBusinessFields(code, fields) then Err(InvalidInput)
      else CreateTx(db, key, NewRow(key.entity, code, fields, actor, now), actor, requestId)
    case DoRequest(key, req) => Atomically(db, key, req)
    case DoRemove(key) => DeleteRow(db, key)
    case DoAuditRemoval(key, snapshot, actor, requestId) =>
      Ok(AuditDelete(db, key, snapshot, actor, requestId))
  }

  function Replay(db: Database, ops: seq<Operation>): Result<Database> {
    if ops == [] then Ok(db)
    else
      match Replay(db, ops[..|ops| - 1])
      case Err(e) => Err(e)
      case Ok(mid) => Execute(mid, ops[|ops| - 1])
  }

  /** The operation a step takes effect as, if it takes effect. */
  function Effect(s: State, l: Label): seq<Operation> {
    match l
    case Create(key, code, fields, actor, requestId, now) =>
      if Creates(s, l, key) then [DoCreate(key, code, fields, actor, requestId, now)] else []
    case Commit(t) => if Lands(s, l) then [DoRequest(s.pending[t].key, s.pending[t].req)] else []
    case Remove(t) => if Removes(s, l) then [DoRemove(s.pending[t].key)] else []
    case AuditRemoval(t) =>
      if t in s.pending && s.pending[t].Removal? && s.pending[t].done
      then var p := s.pending[t]; [DoAuditRemoval(p.key, p.snapshot, p.actor, p.requestId)] else []
    case _ => []
  }

  function Effects(s: State, ls: seq<Label>): seq<Operation> {
    if ls == [] then []
    else Effects(s, ls[..|ls| - 1]) + Effect(Run(s, ls[..|ls| - 1]), ls[|ls| - 1])
  }

  lemma StepIsItsEffect(s: State, l: Label)
    requires WellFormed(s) && Observant(s)
    ensures Effect(s, l) == [] ==> Step(s, l).db == s.db
    ensures Effect(s, l) != [] ==> |Effect(s, l)| == 1 && Execute(s.db, Effect(s, l)[0]) == Ok(Step(s, l).db)
  {
    if Lands(s, l) {
      StepLands(s, l, s.pending[l.ticket].key);
      LandingIsExact(s, l);
    }
  }

  /** Serializability: the tables after any interleaving are the tables of the sequential object after the
      same operations in commit order, every one of them accepted. */
  lemma {:induction false} RunsAreSerializable(s0: State, ls: seq<Label>)
    requires Initial(s0) && AllDisciplined(s0, ls)
    ensures Replay(s0.db, Effects(s0, ls)) == Ok(Run(s0, ls).db)
  {
    if ls != [] {
      var front, l := ls[..|ls| - 1], ls[|ls| - 1];
      RunsAreSerializable(s0, front);
      VersionsAreAChain(s0, front, Key(CertificateRecord, 0));
      ReachableIsWellFormed(s0, front);
      StepIsItsEffect(Run(s0, front), l);
      var done, effect := Effects(s0, front), Effect(Run(s0, front), l);
      if effect == [] {
        assert done + effect == done;
      } else {
        assert (done + effect)[..|done + effect| - 1] == done;
      }
    }
  }
}

/** The other direction: whatever the sequential object accepts, a disciplined client can bring about. */
module Progress {
  import opened Records
  import opened Rules
  import opened Tables
  import opened Machine
  import opened Invariants
  import opened Runs
  import opened Serializability

  lemma {:induction false} TicketBound(tickets: set<nat>) returns (bound: nat)
    ensures forall t | t in tickets :: t < bound
    decreases |tickets|
  {
    if tickets == {} {
      bound := 0;
    } else {
      var t :| t in tickets;
      var rest := TicketBound(tickets - {t});
      bound := if rest <= t then t + 1 else rest;
      assert forall x | x in tickets :: x == t || x in tickets - {t};
    }
  }

  lemma BeginIsAccepted(s: State, l: Label)
    requires WellFormed(s) && l.Begin? && l.ticket !in s.pending && Live(s.db, l.key)
    requires Prepare(s.db.rows[l.key], l.req).Ok?
    ensures var row := s.db.rows[l.key];
            Step(s, l) == s.(pending := s.pending[l.ticket := Write(l.key, l.req, row, Prepare(row, l.req).value)])
    ensures WellFormed(Step(s, l))
  {
    StepKeeps(s, l);
  }

  lemma ReadIsSeen(s: State, client: nat, key: Key)
    requires WellFormed(s) && Live(s.db, key)
    ensures Step(s, Read(client, key)) == s.(seen := s.seen + {Sighting(client, key, s.db.rows[key].version)})
    ensures WellFormed(Step(s, Read(client, key)))
  {
    StepKeeps(s, Read(client, key));
  }

  lemma CommitsExpectTheVersion(db: Database, key: Key, req: Request)
    requires Atomically(db, key, req).Ok?
    ensures Live(db, key) && Prepare(db.rows[key], req).Ok? && req.expected == db.rows[key].version
    ensures Atomically(db, key, req) == CommitTx(db, key, req, db.rows[key], Prepare(db.rows[key], req).value)
  {
  }

  lemma WaitingCommitLands(s: State, ticket: nat)
    requires WellFormed(s) && Pends(s, ticket)
    requires var p := s.pending[ticket]; Live(s.db, p.key) && s.db.rows[p.key].version == p.req.expected
    ensures var p, s' := s.pending[ticket], Step(s, Commit(ticket));
            && Lands(s, Commit(ticket))
            && WellFormed(s') && Live(s'.db, p.key) && s'.db.rows[p.key] == p.item
            && p.item.version == p.req.expected + 1
            && s'.pending == s.pending - {ticket}
            && Outcome(s.db, p) == Ok(s'.db)
  {
    var p := s.pending[ticket];
    UniqueIndexNeverRejects(s, ticket);
    StepKeeps(s, Commit(ticket));
    StepLands(s, Commit(ticket), p.key);
    PrepareKeepsIdentity(p.snapshot, p.req);
    assert KeyOK(Step(s, Commit(ticket)), p.key);
  }

  lemma DisciplinedOneMore(s: State, ls: seq<Label>, l: Label)
    requires AllDisciplined(s, ls) && Disciplined(Run(s, ls), l)
    ensures AllDisciplined(s, ls + [l]) && Run(s, ls + [l]) == Step(Run(s, ls), l)
  {
  }

  lemma {:induction false} DisciplinedConcat(s: State, a: seq<Label>, b: seq<Label>)
    requires AllDisciplined(s, a) && AllDisciplined(Run(s, a), b)
    ensures AllDisciplined(s, a + b) && Run(s, a + b) == Run(Run(s, a), b)
  {
    hide Step;
    if b == [] {
      assert a + b == a;
    } else {
      var b' := b[..|b| - 1];
      assert (a + b)[..|a + b| - 1] == a + b';
      DisciplinedConcat(s, a, b');
    }
  }

  /** Reading, beginning and committing without interruption does what the sequential object does. */
  lemma Serve(s: State, client: nat, key: Key, req: Request) returns (ls: seq<Label>)
    requires WellFormed(s) && Atomically(s.db, key, req).Ok?
    ensures AllDisciplined(s, ls) && (req.actor != "" ==> AllAuthentic(ls))
    ensures WellFormed(Run(s, ls)) && Run(s, ls).pending == s.pending
    ensures Run(s, ls).db == Atomically(s.db, key, req).value
  {
    hide Step, Prepare, WellFormed, CommitTx, Lands;
    var t := TicketBound(s.pending.Keys);
    var l1, l2, l3 := Read(client, key), Begin(t, client, key, req), Commit(t);
    ls := [l1, l2, l3];
    DisciplinedOneMore(s, [], l1);
    ReadIsSeen(s, client, key);
    CommitsExpectTheVersion(s.db, key, req);
    var s1 := Step(s, l1);
    DisciplinedOneMore(s, [l1], l2);
    BeginIsAccepted(s1, l2);
    DisciplinedOneMore(s, [l1] + [l2], l3);
    WaitingCommitLands(Step(s1, l2), t);
    assert ls == [l1] + [l2] + [l3];
  }

  /** Whatever the sequential object would do next, a disciplined client can bring about. */
  lemma AcceptedRequestsCanBeServed(s0: State, ls: seq<Label>, client: nat, key: Key, req: Request)
    returns (more: seq<Label>)
    requires Initial(s0) && AllDisciplined(s0, ls) && Atomically(Run(s0, ls).db, key, req).Ok?
    ensures AllDisciplined(s0, ls + more)
    ensures Run(s0, ls + more).db == Atomically(Run(s0, ls).db, key, req).value
    ensures req.actor != "" ==> AllAuthentic(more)
  {
    hide Step, Prepare, Atomically;
    ReachableIsWellFormed(s0, ls);
    more := Serve(Run(s0, ls), client, key, req);
    DisciplinedConcat(s0, ls, more);
  }

  /** The sequential object accepts every request whose checks pass on the row whose version it names. */
  lemma AcceptedIsAtomic(s: State, key: Key, req: Request)
    requires WellFormed(s) && Live(s.db, key)
    requires Prepare(s.db.rows[key], req).Ok? && req.expected == s.db.rows[key].version
    ensures Atomically(s.db, key, req).Ok?
    ensures var rows := Atomically(s.db, key, req).value.rows;
            key in rows && rows[key] == Prepare(s.db.rows[key], req).value && !rows[key].deleted
  {
    hide Prepare;
    assert KeyOK(s, key);
    PrepareKeepsIdentity(s.db.rows[key], req);
    NoDuplicateRevision(s, key, req.expected + 1);
  }

  /** A submission or publication by somebody who may. */
  function Leaving(row: Row): Request {
    match row.control
    case AuthorizationControl(_, _, _) => Transition(row.version, Review, "", "operator", Operator, "", 0)
    case CertificateControl(preparedBy, _) =>
      Transition(row.version, Valid, "", preparedBy + "'s reviewer", Reviewer, "", 0)
  }

  lemma LeavingIsAccepted(row: Row)
    requires row.status == Draft
    ensures Leaving(row).actor != "" && Leaving(row).expected == row.version
    ensures Prepare(row, Leaving(row)).Ok? && Prepare(row, Leaving(row)).value.status != Draft
  {
  }

  /** Other clients, all of them disciplined and authenticated, can always take a draft out of draft with their
      next commit, and leave waiting requests where they are. */
  lemma DraftsCanLeave(s: State, key: Key) returns (ls: seq<Label>)
    requires WellFormed(s) && Live(s.db, key) && s.db.rows[key].status == Draft
    ensures AllDisciplined(s, ls) && AllAuthentic(ls)
    ensures WellFormed(Run(s, ls)) && Run(s, ls).pending == s.pending
    ensures var db := Run(s, ls).db;
            Live(db, key) && db.rows[key].version == s.db.rows[key].version + 1 && db.rows[key].status != Draft
  {
    hide Step, Prepare, Leaving, Atomically;
    var row := s.db.rows[key];
    LeavingIsAccepted(row);
    AcceptedIsAtomic(s, key, Leaving(row));
    PrepareKeepsIdentity(row, Leaving(row));
    ls := Serve(s, 0, key, Leaving(row));
  }

  lemma EditIsAccepted(row: Row, fields: BusinessFields)
    requires row.status == Draft && ValidBusinessFields(row.code, fields)
    ensures var edit := Update(row.version, fields, "operator", "", 0);
            && Prepare(row, edit).Ok?
            && Prepare(row, edit).value.status == Draft && Prepare(row, edit).value.code == row.code
  {
  }

  /** They can also edit it first, as often as they like. */
  lemma {:induction false} DraftsCanLeaveAt(s: State, key: Key, fields: BusinessFields, version: nat)
    returns (ls: seq<Label>)
    requires WellFormed(s) && Live(s.db, key) && s.db.rows[key].status == Draft
    requires ValidBusinessFields(s.db.rows[key].code, fields) && s.db.rows[key].version < version
    ensures AllDisciplined(s, ls) && AllAuthentic(ls)
    ensures WellFormed(Run(s, ls)) && Run(s, ls).pending == s.pending
    ensures var db := Run(s, ls).db;
            Live(db, key) && db.rows[key].version == version && db.rows[key].status != Draft
    decreases version - s.db.rows[key].version
  {
    hide Step, Prepare, Atomically;
    var row := s.db.rows[key];
    if row.version + 1 == version {
      ls := DraftsCanLeave(s, key);
    } else {
      var edit := Update(row.version, fields, "operator", "", 0);
      EditIsAccepted(row, fields);
      AcceptedIsAtomic(s, key, edit);
      PrepareKeepsIdentity(row, edit);
      var first := Serve(s, 0, key, edit);
      var rest := DraftsCanLeaveAt(Run(s, first), key, fields, version);
      DisciplinedConcat(s, first, rest);
      ls := first + rest;
    }
  }
}

/** Exactly which requests can be trusted to overwrite what they checked. */
module LostUpdates {
  import opened Records
  import opened Rules
  import opened Tables
  import opened Machine
  import opened Invariants
  import opened Runs
  import opened Serializability
  import opened Progress

  /** If the request p lands under this ticket now, it replaces the row it was checked against. */
  ghost predicate Exact(s: State, ticket: nat, p: Pending)
    requires p.Write?
  {
    Pends(s, ticket) && s.pending[ticket] == p && Lands(s, Commit(ticket)) ==> s.db.rows[p.key] == p.snapshot
  }

  function Aimed(req: Request, expected: nat): Request {
    req.(expected := expected)
  }

  lemma AimingIsFree(row: Row, req: Request, expected: nat)
    requires Prepare(row, req).Ok?
    ensures Prepare(row, Aimed(req, expected)).Ok?
    ensures Prepare(row, Aimed(req, expected)).value.status == Prepare(row, req).value.status
  {
  }

  /** The environment can bring a record to any later version without moving the requests already waiting:
      copies of an accepted request, all checked against the present row, land one after the other. */
  lemma {:induction false} AnyVersionIsReachable(s: State, key: Key, req: Request, version: nat)
    returns (ls: seq<Label>)
    requires WellFormed(s) && Live(s.db, key) && Prepare(s.db.rows[key], req).Ok?
    requires s.db.rows[key].version <= version
    ensures var s' := Run(s, ls);
            && WellFormed(s') && Live(s'.db, key) && s'.db.rows[key].version == version
            && (forall t | t in s.pending :: t in s'.pending && s'.pending[t] == s.pending[t])
            && (version > s.db.rows[key].version ==>
                  s'.db.rows[key].status == Prepare(s.db.rows[key], req).value.status)
    decreases version
  {
    hide Step, Prepare, WellFormed, Lands, Outcome;
    if s.db.rows[key].version == version {
      ls := [];
    } else {
      var copy := TicketBound(s.pending.Keys);
      var begin := Begin(copy, 0, key, Aimed(req, version - 1));
      AimingIsFree(s.db.rows[key], req, version - 1);
      var s1 := Step(s, begin);
      BeginIsAccepted(s, begin);
      RunOne(s, begin);
      var middle := AnyVersionIsReachable(s1, key, req, version - 1);
      var s2 := Run(s1, middle);
      assert s2.pending[copy] == s1.pending[copy];
      WaitingCommitLands(s2, copy);
      RunConcat(s, [begin], middle);
      RunConcat(s, [begin] + middle, [Commit(copy)]);
      RunOne(s2, Commit(copy));
      ls := [begin] + middle + [Commit(copy)];
    }
  }

  /** The request that an accepted Begin leaves waiting. */
  function Waiting(s: State, begin: Label): Pending
    requires begin.Begin? && Live(s.db, begin.key) && Prepare(s.db.rows[begin.key], begin.req).Ok?
  {
    var row := s.db.rows[begin.key];
    Write(begin.key, begin.req, row, Prepare(row, begin.req).value)
  }

  predicate Accepted(s: State, begin: Label) {
    && begin.Begin? && begin.ticket !in s.pending && Live(s.db, begin.key)
    && Prepare(s.db.rows[begin.key], begin.req).Ok?
  }

  lemma ObservedIsExact(s: State, ticket: nat, p: Pending)
    requires WellFormed(s) && p.Write? && p.req.expected <= p.snapshot.version
    ensures Exact(s, ticket, p)
  {
    if Pends(s, ticket) && s.pending[ticket] == p && Lands(s, Commit(ticket)) {
      LandingIsExact(s, Commit(ticket));
    }
  }

  /** A request overwrites exactly what it was checked against in every future if and only if the version it
      names is not newer than the version it was checked against. */
  lemma ExactIffVersionWasObserved(s: State, begin: Label)
    requires WellFormed(s) && Accepted(s, begin)
    ensures var s1, p := Step(s, begin), Waiting(s, begin);
            (forall ls :: Exact(Run(s1, ls), begin.ticket, p)) <==> begin.req.expected <= s.db.rows[begin.key].version
  {
    hide Prepare;
    var s1, p := Step(s, begin), Waiting(s, begin);
    BeginIsAccepted(s, begin);
    if begin.req.expected <= s.db.rows[begin.key].version {
      forall ls ensures Exact(Run(s1, ls), begin.ticket, p) {
        RunKeeps(s1, ls);
        ObservedIsExact(Run(s1, ls), begin.ticket, p);
      }
    } else {
      var ls := AnyVersionIsReachable(s1, begin.key, begin.req, begin.req.expected);
      UniqueIndexNeverRejects(Run(s1, ls), begin.ticket);
      assert !Exact(Run(s1, ls), begin.ticket, p);
    }
  }

  /** If the request p lands under this ticket now, the row it replaces still has the status it was checked in. */
  ghost predicate KeepsStatus(s: State, ticket: nat, p: Pending)
    requires p.Write?
  {
    Pends(s, ticket) && s.pending[ticket] == p && Lands(s, Commit(ticket)) ==>
      s.db.rows[p.key].status == p.snapshot.status
  }

  lemma ExactKeepsStatus(s: State, ticket: nat, p: Pending)
    requires p.Write? && Exact(s, ticket, p)
    ensures KeepsStatus(s, ticket, p)
  {
  }

  lemma LandingBreaksStatus(s: State, ticket: nat)
    requires WellFormed(s) && Pends(s, ticket)
    requires var p := s.pending[ticket];
             && Live(s.db, p.key) && s.db.rows[p.key].version == p.req.expected
             && s.db.rows[p.key].status != p.snapshot.status
    ensures !KeepsStatus(s, ticket, s.pending[ticket])
  {
    UniqueIndexNeverRejects(s, ticket);
  }

  /** No edge of either graph leads back to where it starts, so an accepted transition changes the status. */
  lemma TransitionsMove(row: Row, req: Request)
    requires req.Transition? && Prepare(row, req).Ok?
    ensures Prepare(row, req).value.status != row.status
  {
  }

  lemma EditsAreOfDrafts(row: Row, req: Request)
    requires req.Update? && Prepare(row, req).Ok?
    ensures row.status == Draft && ValidBusinessFields(row.code, req.fields)
  {
  }

  /** Edits replace drafts only, in every future in which all other clients are disciplined and authenticated,
      if and only if the version they name is not newer than the version they were checked against. */
  lemma EditsReplaceOnlyDraftsIff(s: State, begin: Label)
    requires WellFormed(s) && Accepted(s, begin) && begin.req.Update?
    ensures var s1, p := Step(s, begin), Waiting(s, begin);
            && p.snapshot.status == Draft
            && ((forall ls | AllDisciplined(s1, ls) && AllAuthentic(ls) :: KeepsStatus(Run(s1, ls), begin.ticket, p))
                <==> begin.req.expected <= s.db.rows[begin.key].version)
  {
    var s1, p := Step(s, begin), Waiting(s, begin);
    BeginIsAccepted(s, begin);
    EditsAreOfDrafts(s.db.rows[begin.key], begin.req);
    hide Step, Prepare, Waiting, KeepsStatus;
    if begin.req.expected <= s.db.rows[begin.key].version {
      forall ls ensures KeepsStatus(Run(s1, ls), begin.ticket, p) {
        RunKeeps(s1, ls);
        ObservedIsExact(Run(s1, ls), begin.ticket, p);
        ExactKeepsStatus(Run(s1, ls), begin.ticket, p);
      }
    } else {
      var ls := DraftsCanLeaveAt(s1, begin.key, begin.req.fields, begin.req.expected);
      LandingBreaksStatus(Run(s1, ls), begin.ticket);
    }
  }

  /** Reviewed rows are kept: an update or transition of either entity replaces a row in the status it was checked
      in, in every future, if and only if the version it names is not newer than the one it was checked against. */
  lemma StatusIsKeptIff(s: State, begin: Label)
    requires WellFormed(s) && Accepted(s, begin)
    ensures var s1, p := Step(s, begin), Waiting(s, begin);
            (forall ls :: KeepsStatus(Run(s1, ls), begin.ticket, p))
            <==> begin.req.expected <= s.db.rows[begin.key].version
  {
    var s1, p := Step(s, begin), Waiting(s, begin);
    BeginIsAccepted(s, begin);
    if begin.req.Update? {
      EditsReplaceOnlyDraftsIff(s, begin);
    } else {
      TransitionsMove(s.db.rows[begin.key], begin.req);
    }
    hide Step, Prepare, KeepsStatus;
    if begin.req.expected <= s.db.rows[begin.key].version {
      forall ls ensures KeepsStatus(Run(s1, ls), begin.ticket, p) {
        RunKeeps(s1, ls);
        ObservedIsExact(Run(s1, ls), begin.ticket, p);
        ExactKeepsStatus(Run(s1, ls), begin.ticket, p);
      }
    } else if begin.req.Transition? {
      var ls := AnyVersionIsReachable(s1, begin.key, begin.req, begin.req.expected);
      LandingBreaksStatus(Run(s1, ls), begin.ticket);
    }
  }

  const CERTIFICATE := Key(CertificateRecord, 1)

  function LateEdit(edited: BusinessFields): Request {
    Update(2, edited, "operator", "r2", 1)
  }

  const PUBLICATION := Transition(1, Valid, "checked", "reviewer", Reviewer, "r3", 2)

  /** A draft is created, an edit naming version 2 is checked against version 1, the draft is published. */
  function PublishedMeanwhile(fields: BusinessFields, edited: BusinessFields): State {
    Run(State(EMPTY, map[], {}, map[]), [
          Create(CERTIFICATE, "CERT-1", fields, "operator", "r1", 0),
          Begin(0, 0, CERTIFICATE, LateEdit(edited)),
          Begin(1, 1, CERTIFICATE, PUBLICATION),
          Commit(1)])
  }

  lemma PublicationLands(s1: State, fields: BusinessFields, edited: BusinessFields) returns (s: State)
    requires WellFormed(s1) && s1.pending == map[]
    requires ValidBusinessFields("CERT-1", edited)
    requires s1.db.rows == map[CERTIFICATE := NewRow(CertificateRecord, "CERT-1", fields, "operator", 0)]
    ensures s == Step(Step(Step(s1, Begin(0, 0, CERTIFICATE, LateEdit(edited))),
                           Begin(1, 1, CERTIFICATE, PUBLICATION)), Commit(1))
    ensures Undoing(s, fields, edited)
  {
    var l2 := Begin(0, 0, CERTIFICATE, LateEdit(edited));
    var l3 := Begin(1, 1, CERTIFICATE, PUBLICATION);
    BeginIsAccepted(s1, l2);
    var s2 := Step(s1, l2);
    PublicationIsAccepted(fields);
    BeginIsAccepted(s2, l3);
    var s3 := Step(s2, l3);
    WaitingCommitLands(s3, 1);
    StepLands(s3, Commit(1), CERTIFICATE);
    s := Step(s3, Commit(1));
  }

  lemma PublicationIsAccepted(fields: BusinessFields)
    ensures var draft := NewRow(CertificateRecord, "CERT-1", fields, "operator", 0);
            && Prepare(draft, PUBLICATION).Ok?
            && Prepare(draft, PUBLICATION).value.status == Valid
            && Prepare(draft, PUBLICATION).value.fields == fields
  {
  }

  /** A published certificate with the edit of its draft still waiting. */
  ghost predicate Undoing(s: State, fields: BusinessFields, edited: BusinessFields) {
    var draft := NewRow(CertificateRecord, "CERT-1", fields, "operator", 0);
    && WellFormed(s)
    && Pends(s, 0)
    && Prepare(draft, LateEdit(edited)).Ok?
    && s.pending[0] == Write(CERTIFICATE, LateEdit(edited), draft, Prepare(draft, LateEdit(edited)).value)
    && Live(s.db, CERTIFICATE)
    && s.db.rows[CERTIFICATE].version == 2
    && s.db.rows[CERTIFICATE].status == Valid
    && s.db.rows[CERTIFICATE].fields == fields
  }

  lemma AfterPublication(fields: BusinessFields, edited: BusinessFields)
    requires ValidBusinessFields("CERT-1", fields) && ValidBusinessFields("CERT-1", edited)
    ensures Undoing(PublishedMeanwhile(fields, edited), fields, edited)
  {
    hide Step;
    RunFour(State(EMPTY, map[], {}, map[]), Create(CERTIFICATE, "CERT-1", fields, "operator", "r1", 0),
            Begin(0, 0, CERTIFICATE, LateEdit(edited)), Begin(1, 1, CERTIFICATE, PUBLICATION), Commit(1));
    var s1 := DraftCreated(fields);
    var s := PublicationLands(s1, fields, edited);
  }

  lemma DraftCreated(fields: BusinessFields) returns (s: State)
    requires ValidBusinessFields("CERT-1", fields)
    ensures s == Step(State(EMPTY, map[], {}, map[]), Create(CERTIFICATE, "CERT-1", fields, "operator", "r1", 0))
    ensures WellFormed(s) && s.pending == map[]
    ensures s.db.rows == map[CERTIFICATE := NewRow(CertificateRecord, "CERT-1", fields, "operator", 0)]
  {
    var s0 := State(EMPTY, map[], {}, map[]);
    var l := Create(CERTIFICATE, "CERT-1", fields, "operator", "r1", 0);
    s := AfterCreate(s0, l);
    StepKeeps(s0, l);
  }

  /** A client that names a version nobody has received yet can undo a publication: its edit lands on the
      published version, and the audit still says draft to draft. */
  lemma UnseenVersionUndoesPublication(fields: BusinessFields, edited: BusinessFields)
    requires ValidBusinessFields("CERT-1", fields) && ValidBusinessFields("CERT-1", edited)
    ensures var published := PublishedMeanwhile(fields, edited);
            var s := Step(published, Commit(0));
            && Live(published.db, CERTIFICATE) && published.db.rows[CERTIFICATE].status == Valid
            && Live(s.db, CERTIFICATE) && s.db.rows[CERTIFICATE].status == Draft
            && s.db.rows[CERTIFICATE].fields == edited
            && |s.db.audits| > 0
            && s.db.audits[|s.db.audits| - 1].before == In(Draft)
  {
    AfterPublication(fields, edited);
    var published := PublishedMeanwhile(fields, edited);
    WaitingCommitLands(published, 0);
    StepLands(published, Commit(0), CERTIFICATE);
  }

  lemma RunFour(s: State, a: Label, b: Label, c: Label, d: Label)
    ensures Run(s, [a, b, c, d]) == Step(Step(Step(Step(s, a), b), c), d)
  {
    RunConcat(s, [a, b, c], [d]);
    RunConcat(s, [a, b], [c]);
    RunConcat(s, [a], [b]);
    RunOne(s, a);
    RunOne(Step(s, a), b);
    RunOne(Step(Step(s, a), b), c);
    RunOne(Step(Step(Step(s, a), b), c), d);
    assert [a, b, c] + [d] == [a, b, c, d];
    assert [a, b] + [c] == [a, b, c];
    assert [a] + [b] == [a, b];
  }
}
