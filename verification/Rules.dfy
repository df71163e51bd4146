/** The checks of the certificate service and the row it prepares from a snapshot. */
module CertificateRules {
  import opened Records
  import opened StatusGraph

  function PrepareUpdate(row: Row, req: Request): Result<Row>
    requires row.control.CertificateControl? && req.Update?
  {
    if row.status != Draft then Err(Locked)
    else if !ValidBusinessFields(row.code, req.fields) then Err(InvalidInput)
    else Ok(row.(
            fields := req.fields,
            control := CertificateControl(req.actor, ""),
            version := req.expected + 1,
            updatedAt := req.now))
  }

  function PrepareTransition(row: Row, req: Request): Result<Row>
    requires row.control.CertificateControl? && req.Transition?
  {
    if !CanTransition(CERTIFICATE_RECORD_TRANSITIONS, row.status, req.target) then Err(InvalidTransition)
    else if !IsOperatorRole(req.role) then Err(Forbidden)
    else
      var verifying := req.target == Valid || req.target == Revoked;
      if verifying && !IsReviewerRole(req.role) then Err(Forbidden)
      else if verifying && req.actor == row.control.preparedBy then Err(SeparationOfDuty)
      else Ok(row.(
              status := req.target,
              control := if verifying then row.control.(verifiedBy := req.actor) else row.control,
              version := req.expected + 1,
              updatedAt := req.now))
  }
}

/** The checks of the release authorization service and the row it prepares from a snapshot. */
module AuthorizationRules {
  import opened Records
  import opened StatusGraph

  function PrepareUpdate(row: Row, req: Request): Result<Row>
    requires row.control.AuthorizationControl? && req.Update?
  {
    if row.status != Draft then Err(Locked)
    else if !ValidBusinessFields(row.code, req.fields) then Err(InvalidInput)
    else Ok(row.(fields := req.fields, version := req.expected + 1, updatedAt := req.now))
  }

  predicate Decision(target: Status) {
    target == Approved || target == Restricted || target == Revoked || target == Draft
  }

  function PrepareTransition(row: Row, req: Request): Result<Row>
    requires row.control.AuthorizationControl? && req.Transition?
  {
    if !CanTransition(RELEASE_AUTHORIZATION_TRANSITIONS, row.status, req.target) then Err(InvalidTransition)
    else if !IsOperatorRole(req.role) then Err(Forbidden)
    else
      var submitted := if req.target == Review
                       then AuthorizationControl(req.actor, "", "")
                       else row.control;
      if Decision(req.target) && !IsReviewerRole(req.role) then Err(Forbidden)
      else if Decision(req.target) && submitted.submittedBy != "" && req.actor == submitted.submittedBy
      then Err(SeparationOfDuty)
      else Ok(row.(
              status := req.target,
              control := if Decision(req.target)
                         then submitted.(reviewedBy := req.actor, reviewReason := req.reason)
                         else submitted,
              version := req.expected + 1,
              updatedAt := req.now))
  }
}

/** Both services seen through one door. */
module Rules {
  import opened Records
  import opened StatusGraph
  import C = CertificateRules
  import A = AuthorizationRules

  function NewRow(entity: Entity, code: string, fields: BusinessFields, actor: string, now: nat): Row {
    var control := match entity
                   case CertificateRecord => CertificateControl(actor, "")
                   case ReleaseAuthorization => AuthorizationControl("", "", "");
    Row(code, Draft, 1, fields, control, now, now, false)
  }

  function Prepare(row: Row, req: Request): Result<Row> {
    match (row.control, req)
    case (CertificateControl(_, _), Update(_, _, _, _, _)) => C.PrepareUpdate(row, req)
    case (CertificateControl(_, _), Transition(_, _, _, _, _, _, _)) => C.PrepareTransition(row, req)
    case (AuthorizationControl(_, _, _), Update(_, _, _, _, _)) => A.PrepareUpdate(row, req)
    case (AuthorizationControl(_, _, _), Transition(_, _, _, _, _, _, _)) => A.PrepareTransition(row, req)
  }

  function ActionOf(req: Request): Action {
    if req.Update? then UpdateAction else TransitionAction
  }

  /** The revision and audit reason of a request. */
  function ReasonOf(entity: Entity, req: Request): Note {
    match req
    case Transition(_, _, reason, _, _, _, _) => Reason(reason)
    case Update(_, _, _, _, _) =>
      match entity
      case CertificateRecord => CertificateFieldsUpdated
      case ReleaseAuthorization => AuthorizationFieldsUpdated
  }

  /** What preparing a row never touches, whichever service does it. */
  lemma PrepareKeepsIdentity(row: Row, req: Request)
    requires Prepare(row, req).Ok?
    ensures var item := Prepare(row, req).value;
            && item.code == row.code && item.createdAt == row.createdAt && item.deleted == row.deleted
            && item.version == req.expected + 1
            && item.control.CertificateControl? == row.control.CertificateControl?
  {
  }

  /** Which authorization transitions are accepted, in the words of the duty table: operators submit drafts;
      reviewers other than the submitter approve, restrict, return and revoke. */
  lemma AuthorizationDuties(row: Row, req: Request)
    requires row.control.AuthorizationControl? && req.Transition?
    ensures Prepare(row, req).Ok? <==>
              || (row.status == Draft && req.target == Review && req.role in {Operator, Reviewer, Admin})
              || (req.role in {Reviewer, Admin}
                  && (req.actor != row.control.submittedBy || req.actor == "")
                  && (row.status, req.target) in {
                       (Review, Approved), (Review, Restricted), (Review, Draft),
                       (Approved, Restricted), (Approved, Revoked), (Restricted, Revoked)})
  {
  }

  /** Which certificate transitions are accepted: any operator lets a certificate expire; reviewers other than
      its preparer publish and revoke it. */
  lemma CertificateDuties(row: Row, req: Request)
    requires row.control.CertificateControl? && req.Transition?
    ensures Prepare(row, req).Ok? <==>
              || (row.status == Valid && req.target == Expired && req.role in {Operator, Reviewer, Admin})
              || (req.role in {Reviewer, Admin} && req.actor != row.control.preparedBy
                  && (row.status, req.target) in {(Draft, Valid), (Valid, Revoked), (Expired, Revoked)})
  {
  }

  /** The edges that any operator may take. */
  predicate TakesOperator(control: Control, from: Status, to: Status) {
    match control
    case CertificateControl(_, _) => (from, to) == (Valid, Expired)
    case AuthorizationControl(_, _, _) => (from, to) == (Draft, Review)
  }

  /** The edges that take a reviewer who did not prepare or submit the record. */
  predicate TakesReviewer(control: Control, from: Status, to: Status) {
    match control
    case CertificateControl(_, _) => (from, to) in {(Draft, Valid), (Valid, Revoked), (Expired, Revoked)}
    case AuthorizationControl(_, _, _) =>
      (from, to) in {
        (Review, Approved), (Review, Restricted), (Review, Draft),
        (Approved, Restricted), (Approved, Revoked), (Restricted, Revoked)}
  }

  predicate OwnWork(control: Control, actor: string) {
    match control
    case CertificateControl(preparedBy, _) => actor == preparedBy
    case AuthorizationControl(submittedBy, _, _) => actor == submittedBy != ""
  }

  predicate Blank(code: string, fields: BusinessFields) {
    code == "" || fields.name == "" || fields.facility == "" || fields.owner == ""
  }

  /** The refusals, one condition for each error: no two of them hold together. */
  predicate Refuses(row: Row, req: Request, e: Error) {
    match e
    case Locked => req.Update? && row.status != Draft
    case InvalidInput => req.Update? && row.status == Draft && Blank(row.code, req.fields)
    case InvalidTransition =>
      && req.Transition?
      && !TakesOperator(row.control, row.status, req.target) && !TakesReviewer(row.control, row.status, req.target)
    case Forbidden =>
      && req.Transition?
      && (|| (TakesOperator(row.control, row.status, req.target) && req.role !in {Operator, Reviewer, Admin})
          || (TakesReviewer(row.control, row.status, req.target) && req.role !in {Reviewer, Admin}))
    case SeparationOfDuty =>
      && req.Transition?
      && TakesReviewer(row.control, row.status, req.target) && req.role in {Reviewer, Admin}
      && OwnWork(row.control, req.actor)
    case _ => false
  }

  /** A request is refused with an error exactly when the table says so, and with no other. */
  lemma RefusalTable(row: Row, req: Request, e: Error)
    ensures Prepare(row, req) == Err(e) <==> Refuses(row, req, e)
  {
  }

  /** The people a row names once a request has been answered. */
  predicate Signs(before: Control, req: Request, after: Control) {
    match before
    case CertificateControl(preparedBy, verifiedBy) =>
      if req.Update? then after == CertificateControl(req.actor, "")
      else after == CertificateControl(preparedBy, if req.target == Expired then verifiedBy else req.actor)
    case AuthorizationControl(submittedBy, _, _) =>
      if req.Update? then after == before
      else if req.target == Review then after == AuthorizationControl(req.actor, "", "")
      else after == AuthorizationControl(submittedBy, req.actor, req.reason)
  }

  /** Row after is what an accepted request makes of row before, column by column. */
  predicate Edits(before: Row, req: Request, after: Row) {
    && after.version == req.expected + 1 && after.updatedAt == req.now
    && after.code == before.code && after.createdAt == before.createdAt && after.deleted == before.deleted
    && (if req.Update? then after.status == before.status == Draft && after.fields == req.fields
        else after.status == req.target && after.fields == before.fields)
    && Signs(before.control, req, after.control)
  }

  lemma AcceptedRequestsEdit(row: Row, req: Request)
    requires Prepare(row, req).Ok?
    ensures Edits(row, req, Prepare(row, req).value)
  {
  }
}
