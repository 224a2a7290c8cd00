/** How Eve events move the platform's view of a session (packages/core/src/eve.ts). */
module EveEvents {
  import opened Prelude

  datatype SessionStatus = Running | WaitingApproval | Waiting | Completed | Failed

  datatype Outcome = OutcomeCompleted | OutcomeFailed | OutcomeCancelled | OutcomeUnknown

  /** The events the projections tell apart, with the part of `data` they read. */
  datatype Fact =
    | SessionStarted
    | TurnStarted
    | InputRequested
    | AuthorizationRequired
    | InteractionOpened
    | TurnPaused
    | InputResolved
    | AuthorizationCompleted
    | InteractionSettled
    | TurnWaiting(onInput: bool)
    | SessionWaiting
    | TurnSettled(turnOutcome: Outcome)
    | TurnCompleted
    | TurnFailed
    | TurnCancelled
    | SessionCompleted
    | SessionFailed
    | SessionEnded(sessionOutcome: Outcome)
    | OtherFact

  /** sessionStatusFromEveEvent: None when the event does not move the projection. */
  function StatusFrom(fact: Fact, current: SessionStatus): Option<SessionStatus> {
    match fact
    case SessionStarted => Some(Running)
    case TurnStarted => Some(Running)
    case InputRequested => Some(WaitingApproval)
    case AuthorizationRequired => Some(WaitingApproval)
    case InteractionOpened => Some(WaitingApproval)
    case TurnPaused => Some(WaitingApproval)
    case InputResolved => if current.WaitingApproval? then Some(Running) else None
    case AuthorizationCompleted => if current.WaitingApproval? then Some(Running) else None
    case InteractionSettled => if current.WaitingApproval? then Some(Running) else None
    case TurnWaiting(onInput) => if onInput then Some(WaitingApproval) else None
    case SessionWaiting => Some(if current.WaitingApproval? then WaitingApproval else Waiting)
    case TurnSettled(_) => Some(Waiting)
    case SessionCompleted => Some(Completed)
    case SessionFailed => Some(Failed)
    case SessionEnded(outcome) =>
      (match outcome case OutcomeCompleted => Some(Completed) case OutcomeFailed => Some(Failed) case _ => None)
    case _ => None
  }

  function After(fact: Fact, current: SessionStatus): SessionStatus {
    var next := StatusFrom(fact, current);
    if next.Some? then next.value else current
  }

  /** The status after a sequence of facts. */
  function Fold(facts: seq<Fact>, current: SessionStatus): SessionStatus {
    if facts == [] then current else Fold(facts[1..], After(facts[0], current))
  }

  lemma {:induction false} FoldConcat(a: seq<Fact>, b: seq<Fact>, current: SessionStatus)
    ensures Fold(a + b, current) == Fold(b, Fold(a, current))
  {
    if a == [] {
      assert a + b == b;
    } else {
      assert (a + b)[1..] == a[1..] + b;
      FoldConcat(a[1..], b, After(a[0], current));
    }
  }

  lemma FoldSnoc(facts: seq<Fact>, fact: Fact, current: SessionStatus)
    ensures Fold(facts + [fact], current) == After(fact, Fold(facts, current))
  {
    FoldConcat(facts, [fact], current);
    assert [fact][1..] == [];
  }

  // ---------------------------------------------------------------------------
  // Where a session ends up, in terms of its facts
  // ---------------------------------------------------------------------------

  predicate Starts(fact: Fact) {
    fact.SessionStarted? || fact.TurnStarted?
  }

  predicate Asks(fact: Fact) {
    || fact.InputRequested? || fact.AuthorizationRequired? || fact.InteractionOpened? || fact.TurnPaused?
    || fact == TurnWaiting(true)
  }

  /** An answer to what was asked. */
  predicate Resumes(fact: Fact) {
    fact.InputResolved? || fact.AuthorizationCompleted? || fact.InteractionSettled?
  }

  predicate Completes(fact: Fact) {
    fact.SessionCompleted? || fact == SessionEnded(OutcomeCompleted)
  }

  predicate Fails(fact: Fact) {
    fact.SessionFailed? || fact == SessionEnded(OutcomeFailed)
  }

  /** A fact that moves a session whatever its status is. */
  predicate Decides(fact: Fact) {
    Starts(fact) || Asks(fact) || Completes(fact) || Fails(fact) || fact.TurnSettled? || fact.SessionWaiting?
  }

  /** A fact that takes back what was asked: an answer, or anything that moves the session on. */
  predicate Releases(fact: Fact) {
    Starts(fact) || Resumes(fact) || Completes(fact) || Fails(fact) || fact.TurnSettled?
  }

  /** Something was asked for, and nothing since has released it. */
  ghost predicate AskedAt(facts: seq<Fact>, i: nat) {
    i < |facts| && Asks(facts[i]) && forall j | i < j < |facts| :: !Releases(facts[j])
  }

  ghost predicate Pending(facts: seq<Fact>) {
    exists i: nat :: AskedAt(facts, i)
  }

  lemma PendingSnoc(facts: seq<Fact>, last: Fact)
    ensures Pending(facts + [last]) <==> Asks(last) || (Pending(facts) && !Releases(last))
  {
    var more := facts + [last];
    if Asks(last) { assert AskedAt(more, |facts|); }
    if !Releases(last) {
      if i: nat :| AskedAt(facts, i) { assert AskedAt(more, i); }
    }
    if i: nat :| AskedAt(more, i) {
      if i < |facts| {
        assert more[|facts|] == last;
        assert forall j | i < j < |facts| :: more[j] == facts[j];
        assert AskedAt(facts, i);
      }
    }
  }

  /** A session awaits approval exactly if something was asked for and not released. */
  lemma {:induction false} AwaitsApprovalIff(facts: seq<Fact>)
    ensures Fold(facts, Running).WaitingApproval? <==> Pending(facts)
  {
    if facts != [] {
      var init, last := facts[..|facts| - 1], facts[|facts| - 1];
      AwaitsApprovalIff(init);
      assert facts == init + [last];
      FoldSnoc(init, last, Running);
      PendingSnoc(init, last);
    }
  }

  /** The last fact that moves a session whatever its status. */
  function LastDeciding(facts: seq<Fact>): (r: Option<nat>)
    ensures r.Some? ==> r.value < |facts| && Decides(facts[r.value])
    ensures forall j | (if r.Some? then r.value else -1) < j < |facts| :: !Decides(facts[j])
  {
    if facts == [] then None
    else if Decides(facts[|facts| - 1]) then Some(|facts| - 1)
    else LastDeciding(facts[..|facts| - 1])
  }

  /**
   Otherwise the last deciding fact tells: a session is completed, failed or waiting exactly if that
   fact completed or failed it, or settled a turn or left it waiting.
   */
  lemma {:induction false} EndsIff(facts: seq<Fact>)
    ensures var status, last := Fold(facts, Running), LastDeciding(facts);
            && (status.Completed? <==> last.Some? && Completes(facts[last.value]))
            && (status.Failed? <==> last.Some? && Fails(facts[last.value]))
            && (status.Waiting? <==>
                  && last.Some? && (facts[last.value].TurnSettled? || facts[last.value].SessionWaiting?)
                  && !Pending(facts[..last.value + 1]))
  {
    if facts != [] {
      var init, last := facts[..|facts| - 1], facts[|facts| - 1];
      EndsIff(init);
      assert facts == init + [last];
      FoldSnoc(init, last, Running);
      AwaitsApprovalIff(init);
      AwaitsApprovalIff(facts);
      if Decides(last) {
        assert facts[..|facts|] == facts;
      } else if LastDeciding(init).Some? {
        assert facts[..LastDeciding(init).value + 1] == init[..LastDeciding(init).value + 1];
      }
    }
  }

  /** Facts are written exactly if one decides, or answers what was asked. */
  predicate Moves(facts: seq<Fact>, current: SessionStatus) {
    facts != [] && (StatusFrom(facts[0], current).Some? || Moves(facts[1..], After(facts[0], current)))
  }

  lemma MovedBy(fact: Fact, current: SessionStatus)
    ensures StatusFrom(fact, current).Some? <==> Decides(fact) || (Resumes(fact) && current.WaitingApproval?)
    ensures StatusFrom(fact, current) == Some(Failed) <==> Fails(fact)
  {
  }
}
