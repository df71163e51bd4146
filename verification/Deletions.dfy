/** Deletes check a snapshot like every other request, but write by id alone. */
module Deletions {
  import opened Records
  import opened Rules
  import opened Tables
  import opened Ledger
  import opened Machine
  import opened Invariants
  import opened Rely
  import opened Runs
  import opened Progress

  predicate Accepted(s: State, begin: Label) {
    && begin.BeginDelete? && begin.ticket !in s.pending
    && Live(s.db, begin.key) && s.db.rows[begin.key].status == Draft
  }

  function Waiting(s: State, begin: Label): Pending
    requires Accepted(s, begin)
  {
    Removal(begin.key, begin.actor, begin.requestId, s.db.rows[begin.key], false)
  }

  lemma BeginDeleteWaits(s: State, begin: Label)
    requires WellFormed(s) && Accepted(s, begin)
    ensures Step(s, begin) == s.(pending := s.pending[begin.ticket := Waiting(s, begin)])
    ensures WellFormed(Step(s, begin))
  {
    StepKeeps(s, begin);
  }

  /** The removal waiting under this ticket takes a draft if it goes ahead now. */
  ghost predicate TakesDraft(s: State, ticket: nat, p: Pending)
    requires p.Removal?
  {
    ticket in s.pending && s.pending[ticket] == p && Removes(s, Remove(ticket)) ==>
      p.key in s.db.rows && s.db.rows[p.key].status == Draft
  }

  /** A removal takes exactly the row that was checked, a draft, if and only if the version of the record has not
      moved since; one that follows its check at once always does. */
  lemma RemovalsAreExactIffVersionStands(s: State, begin: Label, ls: seq<Label>)
    requires WellFormed(s) && Accepted(s, begin)
    ensures var s1, p := Step(s, begin), Waiting(s, begin);
            var s2 := Run(s1, ls);
            begin.ticket in s2.pending && s2.pending[begin.ticket] == p && Removes(s2, Remove(begin.ticket)) ==>
              && p.key in s2.db.rows && p.snapshot.status == Draft
              && (s2.db.rows[p.key] == p.snapshot <==> s2.db.rows[p.key].version == p.snapshot.version)
              && s2.db.rows[p.key].version >= p.snapshot.version
    ensures Removes(Step(s, begin), Remove(begin.ticket))
    ensures var rows := Step(Step(s, begin), Remove(begin.ticket)).db.rows;
            begin.key in rows && rows[begin.key] == s.db.rows[begin.key].(deleted := true)
  {
    BeginDeleteWaits(s, begin);
    var s1, p := Step(s, begin), Waiting(s, begin);
    RunEvolves(s1, ls);
    assert RecordEvolves(s1.db, Run(s1, ls).db, p.key);
  }

  /** No delete is safe from the others: after every accepted check, disciplined and authenticated clients can
      bring about that the same removal takes a row that is no longer a draft. */
  lemma DeletesCanTakeReviewedRows(s: State, begin: Label) returns (ls: seq<Label>)
    requires WellFormed(s) && Accepted(s, begin)
    ensures var s1 := Step(s, begin);
            && AllDisciplined(s1, ls) && AllAuthentic(ls)
            && Run(s1, ls).pending == s1.pending
            && !TakesDraft(Run(s1, ls), begin.ticket, Waiting(s, begin))
  {
    hide Step;
    BeginDeleteWaits(s, begin);
    ls := DraftsCanLeave(Step(s, begin), begin.key);
  }

  lemma RemovalGoesAhead(s: State, t: nat, p: Pending)
    requires t in s.pending && s.pending[t] == p && p.Removal? && !p.done && Live(s.db, p.key)
    ensures Step(s, Remove(t))
         == s.(db := s.db.(rows := s.db.rows[p.key := s.db.rows[p.key].(deleted := true)]),
               pending := s.pending[t := p.(done := true)])
  {
  }

  lemma DoneIsAudited(s: State, t: nat, p: Pending)
    requires t in s.pending && s.pending[t] == p && p.Removal? && p.done
    ensures var s' := Step(s, AuditRemoval(t));
            && s'.pending == s.pending - {t} && s'.db.revisions == s.db.revisions && s'.db.rows == s.db.rows
            && |s'.db.audits| == |s.db.audits| + 1 && s'.db.audits[..|s.db.audits|] == s.db.audits
            && AuditsDeletion(s'.db.audits[|s.db.audits|], p.key, p.actor, p.requestId, p.snapshot.status)
  {
    DeletionIsAudited(s.db, p.key, p.snapshot, p.actor, p.requestId);
  }

  /** A delete that nothing interrupts marks its draft deleted, audits it under its caller's name, and is over. */
  lemma DeletesCanBeServed(s: State, begin: Label)
    requires WellFormed(s) && Accepted(s, begin)
    ensures var t := begin.ticket;
            var s' := Step(Step(Step(s, begin), Remove(t)), AuditRemoval(t));
            && s'.pending == s.pending && s'.db.revisions == s.db.revisions
            && s'.db.rows == s.db.rows[begin.key := s.db.rows[begin.key].(deleted := true)]
            && |s'.db.audits| == |s.db.audits| + 1 && s'.db.audits[..|s.db.audits|] == s.db.audits
            && AuditsDeletion(s'.db.audits[|s.db.audits|], begin.key, begin.actor, begin.requestId, Draft)
  {
    hide Step;
    BeginDeleteWaits(s, begin);
    var s1, p := Step(s, begin), Waiting(s, begin);
    RemovalGoesAhead(s1, begin.ticket, p);
    var s2 := Step(s1, Remove(begin.ticket));
    DoneIsAudited(s2, begin.ticket, p.(done := true));
    assert s.pending[begin.ticket := p][begin.ticket := p.(done := true)] - {begin.ticket} == s.pending;
  }

  /** Label i of the run is a delete of the record that was accepted, in these words. */
  predicate Asks(s0: State, ls: seq<Label>, i: nat, key: Key, actor: string, requestId: string)
    requires i < |ls|
  {
    && ls[i].BeginDelete? && ls[i].key == key && ls[i].actor == actor && ls[i].requestId == requestId
    && Accepted(Run(s0, ls[..i]), ls[i])
  }

  ghost predicate IsAsked(s0: State, ls: seq<Label>, p: Pending) {
    p.Removal? ==>
      p.snapshot.status == Draft && exists i | 0 <= i < |ls| :: Asks(s0, ls, i, p.key, p.actor, p.requestId)
  }

  /** The audit names the person and the request of an accepted delete of its record. */
  ghost predicate NamesItsCaller(s0: State, ls: seq<Label>, a: Audit) {
    a.action == DeleteAction ==>
      exists i | 0 <= i < |ls| ::
        && ls[i].BeginDelete? && Asks(s0, ls, i, a.key, ls[i].actor, ls[i].requestId)
        && AuditsDeletion(a, a.key, ls[i].actor, ls[i].requestId, Draft)
  }

  lemma AskedStaysAsked(s0: State, ls: seq<Label>, p: Pending)
    requires ls != [] && IsAsked(s0, ls[..|ls| - 1], p)
    ensures IsAsked(s0, ls, p)
  {
    hide Run, Accepted;
    var front := ls[..|ls| - 1];
    if p.Removal? {
      var i :| 0 <= i < |front| && Asks(s0, front, i, p.key, p.actor, p.requestId);
      assert ls[..i] == front[..i];
      assert Asks(s0, ls, i, p.key, p.actor, p.requestId);
    }
  }

  lemma NamedStaysNamed(s0: State, ls: seq<Label>, a: Audit)
    requires ls != [] && NamesItsCaller(s0, ls[..|ls| - 1], a)
    ensures NamesItsCaller(s0, ls, a)
  {
    hide Run, Accepted, AuditsDeletion;
    var front := ls[..|ls| - 1];
    if a.action == DeleteAction {
      var i :| 0 <= i < |front| && front[i].BeginDelete?
               && Asks(s0, front, i, a.key, front[i].actor, front[i].requestId)
               && AuditsDeletion(a, a.key, front[i].actor, front[i].requestId, Draft);
      assert ls[..i] == front[..i];
      assert Asks(s0, ls, i, a.key, ls[i].actor, ls[i].requestId);
    }
  }

  /** A removal waiting after a step either waited before, in the same words, or was accepted by this step. */
  lemma RemovalsComeFromBegins(s: State, l: Label, t: nat)
    requires t in Step(s, l).pending && Step(s, l).pending[t].Removal?
    ensures var p' := Step(s, l).pending[t];
            || (t in s.pending && s.pending[t].Removal? && s.pending[t].(done := p'.done) == p')
            || (l.BeginDelete? && Accepted(s, l) && p' == Waiting(s, l))
  {
  }

  lemma AskedByPending(s0: State, ls: seq<Label>, mid: State, t: nat)
    requires ls != [] && mid == Run(s0, ls[..|ls| - 1]) && t in Step(mid, ls[|ls| - 1]).pending
    requires t in mid.pending ==> IsAsked(s0, ls[..|ls| - 1], mid.pending[t])
    ensures IsAsked(s0, ls, Step(mid, ls[|ls| - 1]).pending[t])
  {
    hide Step, IsAsked, Accepted, Waiting, Run;
    var l, p := ls[|ls| - 1], Step(mid, ls[|ls| - 1]).pending[t];
    if p.Removal? {
      RemovalsComeFromBegins(mid, l, t);
      if t in mid.pending && mid.pending[t].Removal? && mid.pending[t].(done := p.done) == p {
        AskedStaysAsked(s0, ls, mid.pending[t]);
        SameWords(s0, ls, mid.pending[t], p);
      } else {
        WaitingIsAsked(s0, ls);
      }
    } else {
      OnlyRemovalsAreAsked(s0, ls, p);
    }
  }

  lemma SameWords(s0: State, ls: seq<Label>, p: Pending, p': Pending)
    requires IsAsked(s0, ls, p) && p.Removal? && p'.Removal? && p.(done := p'.done) == p'
    ensures IsAsked(s0, ls, p')
  {
    hide Run, Accepted;
  }

  lemma OnlyRemovalsAreAsked(s0: State, ls: seq<Label>, p: Pending)
    requires p.Write?
    ensures IsAsked(s0, ls, p)
  {
  }

  lemma WaitingIsAsked(s0: State, ls: seq<Label>)
    requires ls != [] && Accepted(Run(s0, ls[..|ls| - 1]), ls[|ls| - 1])
    ensures IsAsked(s0, ls, Waiting(Run(s0, ls[..|ls| - 1]), ls[|ls| - 1]))
  {
    hide Run;
    var l := ls[|ls| - 1];
    assert Asks(s0, ls, |ls| - 1, l.key, l.actor, l.requestId);
  }

  /** Whoever a delete audit names asked for that delete when the record was a draft, and under the request id the
      audit shows. */
  lemma {:induction false} DeleteAuditsNameTheirCallers(s0: State, ls: seq<Label>)
    requires Initial(s0)
    ensures forall t | t in Run(s0, ls).pending :: IsAsked(s0, ls, Run(s0, ls).pending[t])
    ensures forall a | a in Run(s0, ls).db.audits :: NamesItsCaller(s0, ls, a)
  {
    if ls != [] {
      var front, l := ls[..|ls| - 1], ls[|ls| - 1];
      var mid, s' := Run(s0, front), Run(s0, ls);
      DeleteAuditsNameTheirCallers(s0, front);
      hide Step;
      assert s' == Step(mid, l);
      hide Run, IsAsked, NamesItsCaller;
      forall t | t in s'.pending ensures IsAsked(s0, ls, s'.pending[t]) {
        AskedByPending(s0, ls, mid, t);
      }
      forall a | a in s'.db.audits ensures NamesItsCaller(s0, ls, a) {
        if a in mid.db.audits {
          NamedStaysNamed(s0, ls, a);
        } else if a.action == DeleteAction {
          NewDeleteAudit(mid, l, a);
          AskedStaysAsked(s0, ls, mid.pending[l.ticket]);
          PendingNames(s0, ls, mid.pending[l.ticket], a);
        } else {
          OthersName(s0, ls, a);
        }
      }
    }
  }

  lemma PendingNames(s0: State, ls: seq<Label>, p: Pending, a: Audit)
    requires p.Removal? && IsAsked(s0, ls, p) && p.key == a.key
    requires AuditsDeletion(a, p.key, p.actor, p.requestId, p.snapshot.status)
    ensures NamesItsCaller(s0, ls, a)
  {
    hide Run, Accepted, AuditsDeletion;
    var i :| 0 <= i < |ls| && Asks(s0, ls, i, p.key, p.actor, p.requestId);
    assert ls[i].BeginDelete? && Asks(s0, ls, i, a.key, ls[i].actor, ls[i].requestId);
  }

  lemma OthersName(s0: State, ls: seq<Label>, a: Audit)
    requires a.action != DeleteAction
    ensures NamesItsCaller(s0, ls, a)
  {
  }

  function DeleteAudits(audits: seq<Audit>, key: Key): nat {
    if audits == [] then 0
    else
      var last := audits[|audits| - 1];
      DeleteAudits(audits[..|audits| - 1], key) + (if last.key == key && last.action == DeleteAction then 1 else 0)
  }

  /** The removals of a record that are done and not audited yet. */
  function Unaudited(s: State, key: Key): set<nat> {
    set t | t in s.pending && s.pending[t].Removal? && s.pending[t].done && s.pending[t].key == key
  }

  predicate AuditsRemovalOf(s: State, l: Label, key: Key) {
    l.AuditRemoval? && l.ticket in Unaudited(s, key)
  }

  ghost predicate AuditedOnce(s: State, key: Key) {
    DeleteAudits(s.db.audits, key) + |Unaudited(s, key)|
    <= if key in s.db.rows && s.db.rows[key].deleted then 1 else 0
  }

  lemma StepDeleteAudits(s: State, l: Label, key: Key)
    ensures DeleteAudits(Step(s, l).db.audits, key)
         == DeleteAudits(s.db.audits, key) + (if AuditsRemovalOf(s, l, key) then 1 else 0)
  {
  }

  lemma StepUnaudited(s: State, l: Label, key: Key)
    ensures var u := Unaudited(s, key);
            Unaudited(Step(s, l), key) <=
            if RemovesFrom(s, l, key) then u + {l.ticket} else if AuditsRemovalOf(s, l, key) then u - {l.ticket} else u
  {
  }

  lemma Fewer(a: set<nat>, b: set<nat>)
    requires a <= b
    ensures |a| <= |b|
  {
    assert b == a + (b - a);
  }

  lemma StepStaysAuditedOnce(s: State, l: Label, key: Key)
    requires WellFormed(s) && AuditedOnce(s, key)
    ensures AuditedOnce(Step(s, l), key)
  {
    var s', u := Step(s, l), Unaudited(s, key);
    StepDeleteAudits(s, l, key);
    StepUnaudited(s, l, key);
    StepGrows(s, l, key);
    if RemovesFrom(s, l, key) {
      StepFrame(s, l, key);
      Fewer(Unaudited(s', key), u + {l.ticket});
    } else if AuditsRemovalOf(s, l, key) {
      Fewer(Unaudited(s', key), u - {l.ticket});
    } else {
      Fewer(Unaudited(s', key), u);
    }
  }

  /** A delete is audited at most once, and only after its row was marked deleted. */
  lemma {:induction false} DeletesAreAuditedOnce(s0: State, ls: seq<Label>, key: Key)
    requires Initial(s0)
    ensures AuditedOnce(Run(s0, ls), key)
  {
    hide Step;
    if ls == [] {
      assert Unaudited(s0, key) == {};
    } else {
      DeletesAreAuditedOnce(s0, ls[..|ls| - 1], key);
      ReachableIsWellFormed(s0, ls[..|ls| - 1]);
      StepStaysAuditedOnce(Run(s0, ls[..|ls| - 1]), ls[|ls| - 1], key);
    }
  }
}
