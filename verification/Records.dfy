/** The stored entities, the requests that change them and the answers they get.
    Text columns are taken as already trimmed and upper-cased; instants are natural numbers. */
module Records {

  datatype Result<+T> = Ok(value: T) | Err(error: Error)

  datatype Error =
    | NotFound
    | VersionConflict
    | InvalidTransition
    | InvalidInput
    | Forbidden
    | Locked
    | SeparationOfDuty
    | DuplicateCode       // unique index on code
    | DuplicateRevision   // unique index on (record, version)
    | StoreFailure        // any other failure of the database

  datatype Entity = CertificateRecord | ReleaseAuthorization

  /** A table together with a primary key in it. */
  datatype Key = Key(entity: Entity, id: nat)

  /** Status strings; a client may name any text as the target of a transition. */
  datatype Status =
    | Draft | Review | Approved | Restricted | Valid | Expired | Revoked
    | UnknownStatus(text: string)

  datatype Role = Viewer | Operator | Reviewer | Admin | UnknownRole(text: string)

  predicate IsOperatorRole(role: Role) {
    role == Operator || role == Reviewer || role == Admin
  }

  predicate IsReviewerRole(role: Role) {
    role == Reviewer || role == Admin
  }

  datatype BusinessFields = BusinessFields(
    name: string, description: string, facility: string, owner: string, category: string,
    riskLevel: string, metricValue: real, metricUnit: string, effectiveAt: nat,
    evidence: string, relatedCode: string)

  predicate ValidBusinessFields(code: string, fields: BusinessFields) {
    code != "" && fields.name != "" && fields.facility != "" && fields.owner != ""
  }

  /** The columns that only one of the two tables has. */
  datatype Control =
    | CertificateControl(preparedBy: string, verifiedBy: string)
    | AuthorizationControl(submittedBy: string, reviewedBy: string, reviewReason: string)

  datatype Row = Row(
    code: string, status: Status, version: nat, fields: BusinessFields, control: Control,
    createdAt: nat, updatedAt: nat, deleted: bool)

  predicate Fits(entity: Entity, row: Row) {
    match entity
    case CertificateRecord => row.control.CertificateControl?
    case ReleaseAuthorization => row.control.AuthorizationControl?
  }

  /** A request against an existing record, as the service layer receives it.
      now is the clock reading the service takes while it prepares the row. */
  datatype Request =
    | Update(expected: nat, fields: BusinessFields, actor: string, requestId: string, now: nat)
    | Transition(expected: nat, target: Status, reason: string, actor: string, role: Role,
                 requestId: string, now: nat)

  datatype Action = CreateAction | UpdateAction | TransitionAction | DeleteAction | SeedAction

  /** The reason or detail of a log row: words given with a request, or one of the fixed texts. */
  datatype Note =
    | Reason(words: string)
    | CertificatePrepared | CertificateVersionOne | CertificateFieldsUpdated | CertificateDeleted | CertificateSeeded
    | AuthorizationDrafted | AuthorizationVersionOne | AuthorizationFieldsUpdated | AuthorizationDeleted
    | AuthorizationSeeded

  /** The words the source writes for each note. No theorem depends on them: they are here for the reader. */
  function Text(note: Note): string {
    match note
    case Reason(words) => words
    case CertificatePrepared => "certificate prepared"
    case CertificateVersionOne => "certificate version 1 prepared"
    case CertificateFieldsUpdated => "draft certificate fields updated"
    case CertificateDeleted => "soft deleted 证书记录"
    case CertificateSeeded => "initial demonstration certificate"
    case AuthorizationDrafted => "authorization drafted"
    case AuthorizationVersionOne => "authorization version 1 drafted"
    case AuthorizationFieldsUpdated => "draft authorization fields updated"
    case AuthorizationDeleted => "soft deleted 放行授权"
    case AuthorizationSeeded => "initial demonstration authorization"
  }

  datatype Revision = Revision(
    key: Key, version: nat, status: Status, evidence: string, actor: string,
    requestId: string, action: Action, reason: Note, createdAt: nat)

  /** What an audit row says about one side of a change: "", a status, or "deleted". */
  datatype AuditState = Absent | In(status: Status) | Removed

  datatype Audit = Audit(
    key: Key, actor: string, requestId: string, action: Action,
    before: AuditState, after: AuditState, detail: Note)

  datatype Database = Database(rows: map<Key, Row>, revisions: seq<Revision>, audits: seq<Audit>)
}
