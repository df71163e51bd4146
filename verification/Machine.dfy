/** Concurrent requests as a step machine over the shared tables.

    A request reads a snapshot and runs its checks in one step and commits in another, with any steps of
    other requests between. Every choice the environment makes (which request moves, which transaction
    fails, which id a new record gets) is in the label, so every sequence of labels is a run. */
module Machine {
  import opened Records
  import opened Rules
  import opened Tables

  /** Why a version exists. */
  datatype Cause =
    | Seeded(actor: string, requestId: string)
    | Creation(actor: string, requestId: string)
    | Answered(req: Request)

  /** One version of a record: its row, its cause, and the status its audit claims was there before. */
  datatype Entry = Entry(row: Row, cause: Cause, before: AuditState)

  /** A request between two of its steps. */
  datatype Pending =
    | Write(key: Key, req: Request, snapshot: Row, item: Row)
    | Removal(key: Key, actor: string, requestId: string, snapshot: Row, done: bool)

  /** A version of a record that a client has received in an answer. */
  datatype Sighting = Sighting(client: nat, key: Key, version: nat)

  /** trail and seen are bookkeeping: no step looks at them. */
  datatype State = State(
    db: Database,
    pending: map<nat, Pending>,
    seen: set<Sighting>,
    trail: map<Key, seq<Entry>>)

  datatype Label =
    | Create(key: Key, code: string, fields: BusinessFields, actor: string, requestId: string, now: nat)
    | Read(client: nat, key: Key)
    | Begin(ticket: nat, client: nat, key: Key, req: Request)
    | Commit(ticket: nat)
    | Abort(ticket: nat)
    | BeginDelete(ticket: nat, key: Key, actor: string, requestId: string)
    | Remove(ticket: nat)
    | AuditRemoval(ticket: nat)

  function Trail(s: State, key: Key): seq<Entry> {
    if key in s.trail then s.trail[key] else []
  }

  predicate Pends(s: State, ticket: nat) {
    ticket in s.pending && s.pending[ticket].Write?
  }

  function Outcome(db: Database, p: Pending): Result<Database>
    requires p.Write?
  {
    CommitTx(db, p.key, p.req, p.snapshot, p.item)
  }

  /** The label is a commit whose compare-and-set succeeds. */
  predicate Lands(s: State, l: Label) {
    l.Commit? && Pends(s, l.ticket) && Outcome(s.db, s.pending[l.ticket]).Ok?
  }

  /** The label is a delete that finds its row. */
  predicate Removes(s: State, l: Label) {
    && l.Remove? && l.ticket in s.pending
    && s.pending[l.ticket].Removal? && !s.pending[l.ticket].done
    && Live(s.db, s.pending[l.ticket].key)
  }

  function AfterCreate(s: State, l: Label): State
    requires l.Create?
  {
    var item := NewRow(l.key.entity, l.code, l.fields, l.actor, l.now);
    var tx := CreateTx(s.db, l.key, item, l.actor, l.requestId);
    if !ValidBusinessFields(l.code, l.fields) || tx.Err? then s
    else s.(db := tx.value, trail := s.trail[l.key := [Entry(item, Creation(l.actor, l.requestId), Absent)]])
  }

  /** Get, then the service's checks; a refused request leaves no trace. */
  function AfterBegin(s: State, l: Label): State
    requires l.Begin?
  {
    if l.ticket in s.pending || !Live(s.db, l.key) then s
    else
      var row := s.db.rows[l.key];
      match Prepare(row, l.req)
      case Err(_) => s
      case Ok(item) => s.(pending := s.pending[l.ticket := Write(l.key, l.req, row, item)])
  }

  /** One transaction: it lands, or the version conflicts and the request is over. */
  function AfterCommit(s: State, l: Label): State
    requires l.Commit?
  {
    if !Pends(s, l.ticket) then s
    else
      var p := s.pending[l.ticket];
      var over := s.(pending := s.pending - {l.ticket});
      match Outcome(s.db, p)
      case Err(_) => over
      case Ok(db) =>
        var e := Entry(db.rows[p.key], Answered(p.req), In(p.snapshot.status));
        over.(db := db, trail := s.trail[p.key := Trail(s, p.key) + [e]])
  }

  function AfterBeginDelete(s: State, l: Label): State
    requires l.BeginDelete?
  {
    if l.ticket in s.pending || !Live(s.db, l.key) || s.db.rows[l.key].status != Draft then s
    else s.(pending := s.pending[l.ticket := Removal(l.key, l.actor, l.requestId, s.db.rows[l.key], false)])
  }

  function AfterRemove(s: State, l: Label): State
    requires l.Remove?
  {
    if !(l.ticket in s.pending && s.pending[l.ticket].Removal? && !s.pending[l.ticket].done) then s
    else
      var p := s.pending[l.ticket];
      match DeleteRow(s.db, p.key)
      case Err(_) => s.(pending := s.pending - {l.ticket})
      case Ok(db) => s.(db := db, pending := s.pending[l.ticket := p.(done := true)])
  }

  function AfterAuditRemoval(s: State, l: Label): State
    requires l.AuditRemoval?
  {
    if !(l.ticket in s.pending && s.pending[l.ticket].Removal? && s.pending[l.ticket].done) then s
    else
      var p := s.pending[l.ticket];
      s.(db := AuditDelete(s.db, p.key, p.snapshot, p.actor, p.requestId), pending := s.pending - {l.ticket})
  }

  /** A label that is not possible in s stutters. */
  function Step(s: State, l: Label): State {
    match l
    case Create(_, _, _, _, _, _) => AfterCreate(s, l)
    case Read(client, key) =>
      if Live(s.db, key) then s.(seen := s.seen + {Sighting(client, key, s.db.rows[key].version)}) else s
    case Begin(_, _, _, _) => AfterBegin(s, l)
    case Commit(_) => AfterCommit(s, l)
    case Abort(ticket) => s.(pending := s.pending - {ticket})
    case BeginDelete(_, _, _, _) => AfterBeginDelete(s, l)
    case Remove(_) => AfterRemove(s, l)
    case AuditRemoval(_) => AfterAuditRemoval(s, l)
  }

  function Run(s: State, ls: seq<Label>): State {
    if ls == [] then s else Step(Run(s, ls[..|ls| - 1]), ls[|ls| - 1])
  }

  /** Every request carries an authenticated user's name. */
  predicate Authentic(l: Label) {
    match l
    case Create(_, _, _, actor, _, _) => actor != ""
    case Begin(_, _, _, req) => req.actor != ""
    case _ => true
  }

  /** A client names only versions it has received before. */
  predicate Disciplined(s: State, l: Label) {
    l.Begin? ==> Sighting(l.client, l.key, l.req.expected) in s.seen
  }

  predicate AllAuthentic(ls: seq<Label>) {
    forall i | 0 <= i < |ls| :: Authentic(ls[i])
  }

  predicate AllDisciplined(s: State, ls: seq<Label>) {
    ls != [] ==>
      && AllDisciplined(s, ls[..|ls| - 1])
      && Disciplined(Run(s, ls[..|ls| - 1]), ls[|ls| - 1])
  }

  lemma {:induction false} RunConcat(s: State, a: seq<Label>, b: seq<Label>)
    ensures Run(s, a + b) == Run(Run(s, a), b)
  {
    if b == [] {
      assert a + b == a;
    } else {
      var b' := b[..|b| - 1];
      assert (a + b)[..|a + b| - 1] == a + b';
      RunConcat(s, a, b');
    }
  }

  lemma RunOne(s: State, l: Label)
    ensures Run(s, [l]) == Step(s, l)
  {
  }

  /** The revision and the audit a version leaves behind. */
  function RevisionOf(key: Key, e: Entry): Revision {
    var r := e.row;
    match e.cause
    case Seeded(actor, requestId) =>
      Revision(key, r.version, r.status, r.fields.evidence, actor, requestId, SeedAction,
               match key.entity
               case CertificateRecord => CertificateSeeded
               case ReleaseAuthorization => AuthorizationSeeded,
               r.createdAt)
    case Creation(actor, requestId) =>
      Revision(key, r.version, r.status, r.fields.evidence, actor, requestId, CreateAction,
               CreationReason(key.entity), r.createdAt)
    case Answered(req) =>
      Revision(key, r.version, r.status, r.fields.evidence, req.actor, req.requestId, ActionOf(req),
               ReasonOf(key.entity, req), r.updatedAt)
  }

  function AuditOf(key: Key, e: Entry): Audit
    requires !e.cause.Seeded?
  {
    match e.cause
    case Creation(actor, requestId) =>
      NewAudit(key, actor, requestId, CreateAction, Absent, In(e.row.status), CreationDetail(key.entity))
    case Answered(req) =>
      NewAudit(key, req.actor, req.requestId, ActionOf(req), e.before, In(e.row.status),
               ReasonOf(key.entity, req))
  }

  function RevisionsFrom(key: Key, t: seq<Entry>): (revisions: seq<Revision>)
    ensures |revisions| == |t|
    ensures forall i | 0 <= i < |t| :: revisions[i] == RevisionOf(key, t[i])
  {
    if t == [] then [] else RevisionsFrom(key, t[..|t| - 1]) + [RevisionOf(key, t[|t| - 1])]
  }

  /** Seeded versions have a revision but no audit. */
  function AuditsFrom(key: Key, t: seq<Entry>): seq<Audit> {
    if t == [] then []
    else
      var last := t[|t| - 1];
      AuditsFrom(key, t[..|t| - 1]) + (if last.cause.Seeded? then [] else [AuditOf(key, last)])
  }
}
