/** The two transition tables and what their shape guarantees. */
module StatusGraph {
  import opened Records

  const CERTIFICATE_RECORD_TRANSITIONS: map<Status, set<Status>> := map[
    Draft := {Valid},
    Valid := {Expired, Revoked},
    Expired := {Revoked},
    Revoked := {}
  ]

  const RELEASE_AUTHORIZATION_TRANSITIONS: map<Status, set<Status>> := map[
    Draft := {Review},
    Review := {Approved, Restricted, Draft},
    Approved := {Restricted, Revoked},
    Restricted := {Revoked},
    Revoked := {}
  ]

  predicate CanTransition(graph: map<Status, set<Status>>, from: Status, to: Status) {
    from in graph && to in graph[from]
  }

  predicate Decided(status: Status) {
    status == Approved || status == Restricted || status == Revoked
  }

  predicate Published(status: Status) {
    status == Valid || status == Expired || status == Revoked
  }

  /** How many further versions a decided authorization or a published certificate can have. */
  function VersionsLeft(status: Status): nat {
    match status
    case Approved | Valid => 2
    case Restricted | Expired => 1
    case _ => 0
  }
}
