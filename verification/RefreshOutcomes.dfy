/**
 How resolutions, recoveries and refreshes end: each result with its exact causes, over every run, and
 the run that an undisturbed refresh makes.
 */
module RefreshOutcomes {
  import opened Prelude
  import opened CredentialStore
  import opened RefreshProtocol
  import opened RefreshInvariant
  import opened RefreshTheorems

  // ---------------------------------------------------------------------------
  // What a resolution looks at
  // ---------------------------------------------------------------------------

  predicate Resolving(s: State, i: nat) {
    i < |s.tasks| && s.tasks[i].Resolver? && !s.tasks[i].state.Answered?
  }

  /** An active credential in hand, at the clock's reading `now`. */
  datatype InHand = InHand(version: Version, token: string, refreshable: bool, expiresAt: Option<int>, now: int)

  /** It has thirty seconds left at most. */
  predicate Expiring(c: InHand) {
    c.expiresAt.Some? && c.expiresAt.value - c.now <= 30_000
  }

  /**
   The credential that a step of the resolution has in hand: the active one it reads, or the verified
   one it has just stored in place of the one it read.
   */
  function InHandAt(s: State, e: Event, i: nat): Option<InHand>
    requires Resolving(s, i)
  {
    var t := s.tasks[i];
    if !Enabled(s, e) then None else
    match e
    case ResolverRead(j, now) =>
      if j != i || t.key !in s.store.rows then None
      else
        var row := s.store.rows[t.key];
        (match Open(row.sealed, t.key)
         case Some(Active(token, refresh)) =>
           Some(InHand(VersionOf(t.key, row), token, refresh.Some?, row.expiresAt, now))
         case _ => None)
    case ResolverReplace(j, now) =>
      if j != i || !Matches(s.store, t.key, t.state.seen.rotationSeq) then None
      else
        var row := s.store.rows[t.key];
        Some(InHand(Version(t.key, row.incarnation, row.rotationSeq + 1), t.state.active.token,
                    t.state.active.refreshToken.Some?, t.state.expiresAt, now))
    case _ => None
  }

  /** The refresh it waits for has failed with this error. */
  predicate RefreshFailed(s: State, e: Event, i: nat, error: Error)
    requires Resolving(s, i)
  {
    && e == ResolverWake(i) && Enabled(s, e)
    && s.flights[s.tasks[i].state.flight].pc.outcome == Some(error)
  }

  predicate Reads(s: State, e: Event, i: nat)
    requires Resolving(s, i)
  {
    e.ResolverRead? && e.task == i && Enabled(s, e)
  }

  // ---------------------------------------------------------------------------
  // Why it is refused
  // ---------------------------------------------------------------------------

  predicate NeedsSignIn(s: State, e: Event, i: nat)
    requires Resolving(s, i)
  {
    var hand := InHandAt(s, e, i);
    || (Reads(s, e, i) && s.tasks[i].key !in s.store.rows)
    || (hand.Some? && Expiring(hand.value) && !hand.value.refreshable)
    || RefreshFailed(s, e, i, Reauthorize)
  }

  predicate Misconfigured(s: State, e: Event, i: nat)
    requires Resolving(s, i)
  {
    var key := s.tasks[i].key;
    || (Reads(s, e, i) && key in s.store.rows && Open(s.store.rows[key].sealed, key).None?)
    || (e == ResolverVerify(i, Refused) && Enabled(s, e))
    || RefreshFailed(s, e, i, TokenRejected)
  }

  predicate OutOfService(s: State, e: Event, i: nat)
    requires Resolving(s, i)
  {
    var hand := InHandAt(s, e, i);
    || (e == ResolverVerify(i, Unreachable) && Enabled(s, e))
    || (hand.Some? && Expiring(hand.value) && hand.value.refreshable && s.tasks[i].passes >= 3)
    || RefreshFailed(s, e, i, InvalidGrant)
    || RefreshFailed(s, e, i, OtherError)
    || (e.LoseReply? && e.task == i && Enabled(s, e))
  }

  /** On the third pass, another writer came between the read and the replacement. */
  predicate Raced(s: State, e: Event, i: nat)
    requires Resolving(s, i)
  {
    && e.ResolverReplace? && e.task == i && Enabled(s, e) && s.tasks[i].passes >= 3
    && !Matches(s.store, s.tasks[i].key, s.tasks[i].state.seen.rotationSeq)
  }

  predicate Refuses(s: State, e: Event, i: nat, failure: Failure)
    requires Resolving(s, i)
  {
    match failure
    case InteractionRequired => NeedsSignIn(s, e, i)
    case ConfigurationInvalid => Misconfigured(s, e, i)
    case ProviderUnavailable => OutOfService(s, e, i)
    case RetryRequired => Raced(s, e, i)
  }

  predicate Ends(s: State, i: nat, resolution: Resolution) {
    i < |s.tasks| && s.tasks[i].Resolver? && s.tasks[i].state == Answered(resolution)
  }

  /** A step refuses a resolution with a failure exactly for that failure's causes. */
  lemma RefusedIff(s: State, e: Event, i: nat, failure: Failure)
    requires Resolving(s, i) && 1 <= s.tasks[i].passes <= 3
    ensures Ends(Step(s, e), i, Rejected(failure)) <==> Refuses(s, e, i, failure)
  {
    if !IsOwn(e, i) {
      OthersLeave(s, e, i);
      OthersRefuseNothing(s, e, i, failure);
    } else {
      match e
      case ResolverRead(_, now) => ReadEnds(s, now, i, failure);
      case ResolverVerify(_, verdict) => VerifyEnds(s, verdict, i, failure);
      case ResolverReplace(_, now) => ReplaceEnds(s, now, i, failure);
      case ResolverWake(_) => WakeEnds(s, i, failure);
      case LoseReply(_, applied) => LoseEnds(s, applied, i, failure);
    }
  }

  /** A step answers with an envelope exactly if it has a credential in hand that is not expiring. */
  lemma AnsweredIff(s: State, e: Event, i: nat, token: string, v: Version, checkedAt: int)
    requires Resolving(s, i)
    ensures Ends(Step(s, e), i, Envelope(token, v, checkedAt)) <==>
              var hand := InHandAt(s, e, i);
              hand.Some? && !Expiring(hand.value)
              && hand.value.token == token && hand.value.version == v && hand.value.now == checkedAt
  {
    if !IsOwn(e, i) { OthersLeave(s, e, i); }
  }

  predicate IsOwn(e: Event, i: nat) {
    (e.ResolverRead? || e.ResolverVerify? || e.ResolverReplace? || e.ResolverWake? || e.LoseReply?) && e.task == i
  }

  /** An event of one task changes that task alone; what starts is at its beginning. */
  ghost predicate TasksFrame(s: State, e: Event, t: State) {
    && |s.tasks| <= |t.tasks|
    && (forall j | 0 <= j < |s.tasks| && !(IsTaskEvent(e) && e.task == j) :: t.tasks[j] == s.tasks[j])
    && (forall j | |s.tasks| <= j < |t.tasks| :: t.tasks[j].Resolver? ==> t.tasks[j].state.Reading?)
    && (IsTaskEvent(e) && e.task < |s.tasks| && !s.tasks[e.task].Resolver? ==> !t.tasks[e.task].Resolver?)
    && (e.Abandon? && e.task < |s.tasks| ==> t.tasks[e.task].Abandoned?)
  }

  predicate IsTaskEvent(e: Event) {
    || e.ResolverRead? || e.ResolverVerify? || e.ResolverReplace? || e.ResolverWake?
    || e.RecoveryRead? || e.RecoveryDelete? || e.RecoveryWake?
    || e.CallbackExchange? || e.CallbackRecheck? || e.CallbackStore? || e.LoseReply? || e.Abandon?
  }

  lemma TasksFramed(s: State, e: Event)
    ensures TasksFrame(s, e, Step(s, e))
  {
    if !Enabled(s, e) {
    } else if IsFlightEvent(e) {
      FlightTasks(s, e);
    } else if e.ResolverRead? || e.ResolverReplace? {
      JudgeTasks(s, e);
    } else if IsResolverEvent(e) {
      ResolverTasks(s, e);
    } else if IsRecoveryEvent(e) {
      RecoveryTasks(s, e);
    } else if IsCallbackEvent(e) {
      CallbackTasks(s, e);
    } else {
      OtherTasks(s, e);
    }
  }

  lemma FlightTasks(s: State, e: Event)
    requires Enabled(s, e) && IsFlightEvent(e)
    ensures Step(s, e).tasks == s.tasks
  {
  }

  lemma JudgeTasks(s: State, e: Event)
    requires Enabled(s, e) && (e.ResolverRead? || e.ResolverReplace?)
    ensures TasksFrame(s, e, Step(s, e))
  {
    match e
    case ResolverRead(i, now) => assert Step(s, e) == StepRead(s, i, now);
    case ResolverReplace(i, now) => assert Step(s, e) == StepReplace(s, i, now);
  }

  lemma ResolverTasks(s: State, e: Event)
    requires Enabled(s, e) && (e.StartResolve? || e.ResolverVerify? || e.ResolverWake?)
    ensures TasksFrame(s, e, Step(s, e))
  {
    match e
    case StartResolve(owner, c, principal) => assert Step(s, e) == StepStartResolve(s, owner, c, principal);
    case ResolverVerify(i, verdict) => assert Step(s, e) == StepVerify(s, i, verdict);
    case ResolverWake(i) => assert Step(s, e) == StepWake(s, i);
  }

  lemma RecoveryTasks(s: State, e: Event)
    requires Enabled(s, e) && IsRecoveryEvent(e)
    ensures TasksFrame(s, e, Step(s, e))
  {
    match e
    case StartRecovery(owner, answered, attempt) => assert Step(s, e) == StepStartRecovery(s, owner, answered, attempt);
    case RecoveryRead(i) => assert Step(s, e) == StepRecoveryRead(s, i);
    case RecoveryDelete(i) => assert Step(s, e) == StepRecoveryDelete(s, i);
    case RecoveryWake(i) => assert Step(s, e) == StepRecoveryWake(s, i);
  }

  lemma CallbackTasks(s: State, e: Event)
    requires Enabled(s, e) && IsCallbackEvent(e)
    ensures TasksFrame(s, e, Step(s, e))
  {
    match e
    case StartCallback(c, principal, revision) => assert Step(s, e) == StepStartCallback(s, c, principal, revision);
    case CallbackExchange(i, answer) => assert Step(s, e) == StepExchange(s, i, answer);
    case CallbackRecheck(i) => assert Step(s, e) == StepRecheck(s, i);
    case CallbackStore(i) => assert Step(s, e) == StepStore(s, i);
  }

  lemma OtherTasks(s: State, e: Event)
    requires Enabled(s, e) && (e.LoseReply? || e.Abandon? || e.ChangeConfig? || e.SweepStale?)
    ensures TasksFrame(s, e, Step(s, e))
  {
  }

  lemma OthersLeave(s: State, e: Event, i: nat)
    requires i < |s.tasks| && s.tasks[i].Resolver? && !IsOwn(e, i)
    ensures i < |Step(s, e).tasks| && (Step(s, e).tasks[i] == s.tasks[i] || Step(s, e).tasks[i].Abandoned?)
  {
    TasksFramed(s, e);
    if IsTaskEvent(e) && e.task == i && !e.Abandon? { assert !Enabled(s, e); }
  }

  lemma OthersRefuseNothing(s: State, e: Event, i: nat, failure: Failure)
    requires Resolving(s, i) && !IsOwn(e, i)
    ensures !Refuses(s, e, i, failure)
  {
  }

  lemma ReadEnds(s: State, now: int, i: nat, failure: Failure)
    requires Resolving(s, i) && 1 <= s.tasks[i].passes <= 3
    ensures Ends(Step(s, ResolverRead(i, now)), i, Rejected(failure)) <==> Refuses(s, ResolverRead(i, now), i, failure)
  {
  }

  lemma ReplaceEnds(s: State, now: int, i: nat, failure: Failure)
    requires Resolving(s, i) && 1 <= s.tasks[i].passes <= 3
    ensures Ends(Step(s, ResolverReplace(i, now)), i, Rejected(failure))
       <==> Refuses(s, ResolverReplace(i, now), i, failure)
  {
  }

  lemma VerifyEnds(s: State, verdict: Verdict, i: nat, failure: Failure)
    requires Resolving(s, i)
    ensures Ends(Step(s, ResolverVerify(i, verdict)), i, Rejected(failure))
       <==> Refuses(s, ResolverVerify(i, verdict), i, failure)
  {
  }

  lemma LoseEnds(s: State, applied: bool, i: nat, failure: Failure)
    requires Resolving(s, i)
    ensures Ends(Step(s, LoseReply(i, applied)), i, Rejected(failure))
            <==> Refuses(s, LoseReply(i, applied), i, failure)
  {
  }

  lemma WakeEnds(s: State, i: nat, failure: Failure)
    requires Resolving(s, i) && 1 <= s.tasks[i].passes <= 3
    ensures Ends(Step(s, ResolverWake(i)), i, Rejected(failure)) <==> Refuses(s, ResolverWake(i), i, failure)
  {
  }

  /**
   An expiring credential with a refresh token, before the third pass, makes the resolution wait: for
   the flight its instance already has for the key, or for a new one about the version in hand.
   */
  lemma AwaitsIff(s: State, e: Event, i: nat)
    requires Resolving(s, i) && !s.tasks[i].state.Awaiting?
    ensures var t, hand := Step(s, e), InHandAt(s, e, i);
            var k := (s.tasks[i].owner, s.tasks[i].key);
            i < |t.tasks|
            && ((t.tasks[i].Resolver? && t.tasks[i].state.Awaiting?)
                <==> hand.Some? && Expiring(hand.value) && hand.value.refreshable && s.tasks[i].passes < 3)
            && (t.tasks[i].Resolver? && t.tasks[i].state.Awaiting? ==>
                  && k in t.registry && t.tasks[i].state.flight == t.registry[k]
                  && (k in s.registry ==> t.registry == s.registry && t.flights == s.flights)
                  && (k !in s.registry ==>
                        && t.registry[k] == |s.flights| && |t.flights| == |s.flights| + 1
                        && t.flights[|s.flights|].pc.Claiming? && t.flights[|s.flights|].key == s.tasks[i].key
                        && t.flights[|s.flights|].expected == hand.value.version))
  {
    if !IsOwn(e, i) { OthersLeave(s, e, i); }
  }

  // ---------------------------------------------------------------------------
  // Over a run
  // ---------------------------------------------------------------------------

  lemma {:induction false} RunSnoc(s: State, events: seq<Event>, e: Event)
    ensures Run(s, events + [e]) == Step(Run(s, events), e)
    decreases |events|
  {
    if events == [] {
      assert [] + [e] == [e] && [e][1..] == [];
      assert Run(s, [e]) == Run(Step(s, e), []);
    } else {
      assert (events + [e])[1..] == events[1..] + [e];
      RunSnoc(Step(s, events[0]), events[1..], e);
    }
  }

  /** At its `k`-th event the run refuses the resolution. */
  ghost predicate RefusedAt(start: State, events: seq<Event>, k: nat, i: nat, failure: Failure) {
    k < |events| && var s := Run(start, events[..k]); Resolving(s, i) && Refuses(s, events[k], i, failure)
  }

  ghost predicate EverRefused(start: State, events: seq<Event>, i: nat, failure: Failure) {
    exists k: nat :: RefusedAt(start, events, k, i, failure)
  }

  lemma RefusedSnoc(start: State, events: seq<Event>, e: Event, i: nat, failure: Failure)
    ensures EverRefused(start, events + [e], i, failure)
       <==> EverRefused(start, events, i, failure)
            || (Resolving(Run(start, events), i) && Refuses(Run(start, events), e, i, failure))
  {
    var more := events + [e];
    assert more[..|events|] == events;
    if k: nat :| RefusedAt(start, events, k, i, failure) {
      assert more[..k] == events[..k];
      assert RefusedAt(start, more, k, i, failure);
    }
    if Resolving(Run(start, events), i) && Refuses(Run(start, events), e, i, failure) {
      assert RefusedAt(start, more, |events|, i, failure);
    }
    if k: nat :| RefusedAt(start, more, k, i, failure) {
      if k < |events| {
        assert more[..k] == events[..k];
        assert RefusedAt(start, events, k, i, failure);
      }
    }
  }

  lemma AnsweredStays(s: State, e: Event, i: nat)
    requires i < |s.tasks| && s.tasks[i].Resolver? && s.tasks[i].state.Answered?
    ensures i < |Step(s, e).tasks| && (Step(s, e).tasks[i] == s.tasks[i] || Step(s, e).tasks[i].Abandoned?)
  {
    if !IsOwn(e, i) { OthersLeave(s, e, i); }
  }

  lemma NoWayBack(s: State, e: Event, i: nat)
    requires i < |s.tasks| && !s.tasks[i].Resolver?
    ensures i < |Step(s, e).tasks| && !Step(s, e).tasks[i].Resolver?
  {
    TasksFramed(s, e);
  }

  /**
   Over any run, a resolution that was not abandoned is refused with a failure exactly if at some
   point of the run one of that failure's causes was there.
   */
  lemma {:induction false} RefusedExactlyBecause(start: State, events: seq<Event>, i: nat, failure: Failure)
    requires Init(start)
    requires var t := Run(start, events); i < |t.tasks| && t.tasks[i].Resolver?
    ensures Ends(Run(start, events), i, Rejected(failure)) <==> EverRefused(start, events, i, failure)
    decreases |events|
  {
    if events != [] {
      var init, e := events[..|events| - 1], events[|events| - 1];
      var s := Run(start, init);
      assert events == init + [e];
      RunSnoc(start, init, e);
      RefusedSnoc(start, init, e, i, failure);
      InitInv(start);
      RunKeeps(start, init);
      if i >= |s.tasks| {
        NotYet(start, init, i, failure);
        NewTaskReads(s, e, i);
      } else {
        if !s.tasks[i].Resolver? { NoWayBack(s, e, i); }
        RefusedExactlyBecause(start, init, i, failure);
        if Resolving(s, i) {
          assert TaskOkAt(s, i);
          RefusedIff(s, e, i, failure);
        } else {
          AnsweredStays(s, e, i);
        }
      }
    }
  }

  lemma NewTaskReads(s: State, e: Event, i: nat)
    requires |s.tasks| <= i < |Step(s, e).tasks| && Step(s, e).tasks[i].Resolver?
    ensures Step(s, e).tasks[i].state.Reading?
  {
    TasksFramed(s, e);
  }

  lemma TasksGrow(s: State, e: Event)
    ensures |s.tasks| <= |Step(s, e).tasks|
  {
    TasksFramed(s, e);
  }

  lemma {:induction false} NotYet(start: State, events: seq<Event>, i: nat, failure: Failure)
    requires |Run(start, events).tasks| <= i
    ensures !EverRefused(start, events, i, failure)
    decreases |events|
  {
    if events != [] {
      var init, e := events[..|events| - 1], events[|events| - 1];
      assert events == init + [e];
      RunSnoc(start, init, e);
      TasksGrow(Run(start, init), e);
      NotYet(start, init, i, failure);
      RefusedSnoc(start, init, e, i, failure);
    }
  }

  // ---------------------------------------------------------------------------
  // How a recovery ends
  // ---------------------------------------------------------------------------

  predicate Recovering(s: State, i: nat) {
    && i < |s.tasks| && s.tasks[i].Recovery?
    && (s.tasks[i].step.Checking? || s.tasks[i].step.Discarding? || s.tasks[i].step.Joined?)
  }

  /** The row a recovery reads, against the number that was rejected; `seen` is what it opens to. */
  datatype Look = NoRow | Newer | Other | Same(seen: Option<Payload>)

  function LookAt(s: State, e: Event, i: nat): Option<Look>
    requires Recovering(s, i)
  {
    var t := s.tasks[i];
    if !Enabled(s, e) || e != RecoveryRead(i) then None
    else if t.key !in s.store.rows then Some(NoRow)
    else
      var row := s.store.rows[t.key];
      if row.rotationSeq > t.rejected.rotationSeq then Some(Newer)
      else if row.rotationSeq < t.rejected.rotationSeq then Some(Other)
      else Some(Same(Open(row.sealed, t.key)))
  }

  predicate JoinedEnds(s: State, e: Event, i: nat, outcome: Option<Error>)
    requires Recovering(s, i)
  {
    e == RecoveryWake(i) && Enabled(s, e) && s.flights[s.tasks[i].step.flight].pc.outcome == outcome
  }

  /** On attempt 0, the rejected credential is still there, as it opens. */
  predicate StillThere(s: State, e: Event, i: nat, seen: Option<Payload>)
    requires Recovering(s, i)
  {
    s.tasks[i].attempt != 1 && LookAt(s, e, i) == Some(Same(seen))
  }

  predicate Settles(s: State, e: Event, i: nat, step: RecoveryPc)
    requires Recovering(s, i)
  {
    var look := LookAt(s, e, i);
    match step
    case Retry => look == Some(Newer) || JoinedEnds(s, e, i, None)
    case Discarding => s.tasks[i].attempt == 1 && look.Some? && look.value.Same?
    case GiveUp(InteractionRequired) =>
      || look == Some(NoRow)
      || (look.Some? && look.value.Same? && StillThere(s, e, i, look.value.seen)
          && look.value.seen.Some? && look.value.seen.value.refreshToken.None?)
      || (e == RecoveryDelete(i) && Enabled(s, e))
      || JoinedEnds(s, e, i, Some(Reauthorize))
    case GiveUp(RetryRequired) => look == Some(Other)
    case GiveUp(ConfigurationInvalid) => StillThere(s, e, i, None) || JoinedEnds(s, e, i, Some(TokenRejected))
    case GiveUp(ProviderUnavailable) =>
      JoinedEnds(s, e, i, Some(InvalidGrant)) || JoinedEnds(s, e, i, Some(OtherError))
    case _ => false
  }

  predicate StepsTo(s: State, i: nat, step: RecoveryPc) {
    i < |s.tasks| && s.tasks[i].Recovery? && s.tasks[i].step == step
  }

  /**
   A recovery tells its request to retry, gives up, or goes on to delete, exactly for these causes:
   what is stored is newer, or a refresh brought it on; and so forth.
   */
  lemma RecoveryIff(s: State, e: Event, i: nat, step: RecoveryPc)
    requires Recovering(s, i) && step != s.tasks[i].step && !step.Checking? && !step.Joined?
    ensures StepsTo(Step(s, e), i, step) <==> Settles(s, e, i, step)
  {
    if !IsRecoveryEvent(e) || e.StartRecovery? || e.task != i {
      OthersSettleNothing(s, e, i, step);
      OtherRecoveries(s, e, i);
    } else if e.RecoveryRead? {
      RecoveryReads(s, i, step);
    } else {
      RecoveryMoves(s, e, step);
    }
  }

  lemma OthersSettleNothing(s: State, e: Event, i: nat, step: RecoveryPc)
    requires Recovering(s, i) && step != s.tasks[i].step && !step.Checking? && !step.Joined?
    requires !IsRecoveryEvent(e) || e.StartRecovery? || e.task != i
    ensures !Settles(s, e, i, step)
  {
    assert LookAt(s, e, i).None?;
  }

  lemma RecoveryReads(s: State, i: nat, step: RecoveryPc)
    requires Recovering(s, i) && step != s.tasks[i].step && !step.Checking? && !step.Joined?
    ensures StepsTo(Step(s, RecoveryRead(i)), i, step) <==> Settles(s, RecoveryRead(i), i, step)
  {
    if Enabled(s, RecoveryRead(i)) { assert Step(s, RecoveryRead(i)) == StepRecoveryRead(s, i); }
  }

  lemma RecoveryMoves(s: State, e: Event, step: RecoveryPc)
    requires (e.RecoveryDelete? || e.RecoveryWake?) && Recovering(s, e.task)
    requires step != s.tasks[e.task].step && !step.Checking? && !step.Joined?
    ensures StepsTo(Step(s, e), e.task, step) <==> Settles(s, e, e.task, step)
  {
  }

  lemma OtherRecoveries(s: State, e: Event, i: nat)
    requires i < |s.tasks| && s.tasks[i].Recovery? && (!IsRecoveryEvent(e) || e.StartRecovery? || e.task != i)
    ensures i < |Step(s, e).tasks| && (Step(s, e).tasks[i] == s.tasks[i] || Step(s, e).tasks[i].Abandoned?)
  {
    TasksFramed(s, e);
    if IsTaskEvent(e) && e.task == i && Enabled(s, e) { assert e.LoseReply? || e.Abandon?; }
  }

  // ---------------------------------------------------------------------------
  // How a refresh ends
  // ---------------------------------------------------------------------------

  /** The flight waits for another instance's refresh, and sees the row move on, or the lease run out. */
  predicate SeesWinner(s: State, e: Event, i: nat)
    requires FlightAt(s, i)
  {
    var f := s.flights[i];
    && e.FlightPoll? && e.flight == i && !e.timedOut && f.pc.Waiting?
    && f.key in s.store.rows
    && var row := s.store.rows[f.key];
       || row.rotationSeq > f.expected.rotationSeq
       || row.lease.None?
       || row.lease.value.until <= e.now
  }

  /** The error that a flight runs into; inside the `try` it releases its lease before it fails. */
  predicate FailsWith(s: State, e: Event, i: nat, error: Error)
    requires FlightAt(s, i)
  {
    var f := s.flights[i];
    match e
    case FlightClaim(j, _, _, reply) => j == i && f.pc.Claiming? && reply != Delivered && error == OtherError
    case FlightRefresh(j, answer) =>
      && j == i && f.pc.Refreshing?
      && if f.payload.refreshToken.None? then error == Reauthorize
         else if answer.Failed? then error == answer.error
         else answer.verdict.Refused? && error == TokenRejected
    case FlightComplete(j, _, reply) => j == i && f.pc.Completing? && reply != Delivered && error == OtherError
    case FlightPoll(j, _, timedOut) =>
      && j == i && f.pc.Waiting?
      && if timedOut then error == OtherError else f.key !in s.store.rows && error == Reauthorize
    case FlightRelease(j, now, reply) =>
      && j == i && f.pc.Releasing?
      && if reply != Delivered then error == OtherError
         else error == f.pc.error && !(error == InvalidGrant && HasLease(s, f, now))
    case FlightDelete(j, reply) =>
      j == i && f.pc.Deleting? && error == if reply == Delivered then Reauthorize else OtherError
    case _ => false
  }

  /** Its own lease is on the row it read, and has not run out. */
  predicate HasLease(s: State, f: Flight, now: int) {
    && f.key in s.store.rows
    && var row := s.store.rows[f.key];
       && row.rotationSeq == f.expected.rotationSeq
       && row.lease.Some? && row.lease.value.owner == f.owner && row.lease.value.id == f.leaseId
       && row.lease.value.until > now
  }

  /** The flight has claimed, so that what fails is followed by a release. */
  predicate InsideTry(pc: FlightPc) {
    pc.Refreshing? || pc.Completing? || (pc.Waiting? && pc.holdsTry)
  }

  predicate FinishesWith(s: State, e: Event, i: nat, outcome: Option<Error>)
    requires FlightAt(s, i)
  {
    match outcome
    case None => SeesWinner(s, e, i) || Commits(s, e, i)
    case Some(error) => FailsWith(s, e, i, error) && !InsideTry(s.flights[i].pc)
  }

  predicate Commits(s: State, e: Event, i: nat)
    requires FlightAt(s, i)
  {
    e.FlightComplete? && e.flight == i && s.flights[i].pc.Completing? && e.reply == Delivered
    && HasLease(s, s.flights[i], e.now)
  }

  predicate IsAt(s: State, i: nat, pc: FlightPc) {
    FlightAt(s, i) && s.flights[i].pc == pc
  }

  /** The step's result and its causes agree. */
  predicate EndsSo(s: State, e: Event, i: nat, outcome: Option<Error>)
    requires FlightAt(s, i)
  {
    var t := Step(s, e);
    && (IsAt(t, i, Finished(outcome)) <==> FinishesWith(s, e, i, outcome))
    && (outcome.Some? && s.flights[i].pc != Releasing(outcome.value) ==>
          (IsAt(t, i, Releasing(outcome.value)) <==> FailsWith(s, e, i, outcome.value) && InsideTry(s.flights[i].pc)))
  }

  /**
   A flight succeeds exactly by its commit or by seeing another's, or the end of its lease; it fails
   exactly with the error it ran into, after releasing its lease if it had claimed one.
   */
  lemma FlightIff(s: State, e: Event, i: nat, outcome: Option<Error>)
    requires FlightAt(s, i) && !s.flights[i].pc.Finished?
    ensures EndsSo(s, e, i, outcome)
  {
    if !IsFlightEvent(e) || e.flight != i { OthersKeepFlight(s, e, i); }
    else if e.FlightClaim? || e.FlightRefresh? { ClaimsOrRefreshes(s, e, outcome); }
    else if e.FlightComplete? { Completes(s, e, outcome); }
    else if e.FlightRelease? || e.FlightDelete? { GivesUp(s, e, outcome); }
    else if e.FlightPoll? { Polls(s, e, outcome); }
  }

  lemma ClaimsOrRefreshes(s: State, e: Event, outcome: Option<Error>)
    requires (e.FlightClaim? || e.FlightRefresh?) && FlightAt(s, e.flight) && !s.flights[e.flight].pc.Finished?
    ensures EndsSo(s, e, e.flight, outcome)
  {
    if Enabled(s, e) {
      match e
      case FlightClaim(i, now, until, reply) => assert Step(s, e) == StepClaim(s, i, now, until, reply);
      case FlightRefresh(i, answer) => assert Step(s, e) == StepRefresh(s, i, answer);
    }
  }

  lemma Completes(s: State, e: Event, outcome: Option<Error>)
    requires e.FlightComplete? && FlightAt(s, e.flight) && !s.flights[e.flight].pc.Finished?
    ensures EndsSo(s, e, e.flight, outcome)
  {
    if Enabled(s, e) { assert Step(s, e) == StepComplete(s, e.flight, e.now, e.reply); }
  }

  lemma GivesUp(s: State, e: Event, outcome: Option<Error>)
    requires (e.FlightRelease? || e.FlightDelete?) && FlightAt(s, e.flight) && !s.flights[e.flight].pc.Finished?
    ensures EndsSo(s, e, e.flight, outcome)
  {
    if Enabled(s, e) {
      match e
      case FlightRelease(i, now, reply) => assert Step(s, e) == StepRelease(s, i, now, reply);
      case FlightDelete(i, reply) => assert Step(s, e) == StepDelete(s, i, reply);
    }
  }

  lemma Polls(s: State, e: Event, outcome: Option<Error>)
    requires e.FlightPoll? && FlightAt(s, e.flight) && !s.flights[e.flight].pc.Finished?
    ensures EndsSo(s, e, e.flight, outcome)
  {
    if Enabled(s, e) { assert Step(s, e) == StepPoll(s, e.flight, e.now, e.timedOut); }
  }

  // ---------------------------------------------------------------------------
  // How a refresh goes on
  // ---------------------------------------------------------------------------

  /** The row is still what the flight read, and nobody has a live lease on it. */
  predicate Claims(s: State, f: Flight, now: int) {
    && f.key in s.store.rows
    && var row := s.store.rows[f.key];
       && row.rotationSeq == f.expected.rotationSeq
       && (row.lease.None? || row.lease.value.until <= now)
  }

  /** A flight starts to refresh exactly if its claim is granted: a live lease excludes every other. */
  lemma GrantedIff(s: State, e: Event, i: nat)
    requires FlightAt(s, i) && s.flights[i].pc.Claiming?
    ensures FlightAt(Step(s, e), i)
    ensures var t, f := Step(s, e), s.flights[i];
            && (t.flights[i].pc.Refreshing? <==>
                  e.FlightClaim? && e.flight == i && e.reply == Delivered && Claims(s, f, e.now))
            && (t.flights[i].pc.Waiting? <==>
                  e.FlightClaim? && e.flight == i && e.reply == Delivered && !Claims(s, f, e.now))
            && (t.flights[i].pc.Refreshing? ==>
                  HasLease(t, t.flights[i], e.until - 1) && !HasLease(t, t.flights[i], e.until))
            && (e.FlightClaim? && e.flight == i && !Claims(s, f, e.now) ==> t.store.rows == s.store.rows)
  {
    if !IsFlightEvent(e) || e.flight != i {
      OthersKeepFlight(s, e, i);
    } else if e.FlightClaim? {
      assert Step(s, e) == StepClaim(s, i, e.now, e.until, e.reply);
    } else {
      assert !Enabled(s, e);
    }
  }

  /**
   It goes on to store what the provider issued, unless the verifier refuses that: as active if it was
   verified, and as awaiting verification if the verifier could not be reached.
   */
  lemma IssuedIff(s: State, e: Event, i: nat, next: Payload, expiresAt: int)
    requires FlightAt(s, i) && s.flights[i].pc.Refreshing?
    ensures IsAt(Step(s, e), i, Completing(next, expiresAt)) <==>
              && e.FlightRefresh? && e.flight == i && s.flights[i].payload.refreshToken.Some?
              && e.answer.Issued? && !e.answer.verdict.Refused? && e.answer.expiresAt == expiresAt
              && next.token == e.answer.token && next.refreshToken == e.answer.refreshToken
              && (next.Active? <==> e.answer.verdict.Accepted?)
  {
    if !IsFlightEvent(e) || e.flight != i {
      OthersKeepFlight(s, e, i);
    } else if e.FlightRefresh? {
      assert Step(s, e) == StepRefresh(s, i, e.answer);
    } else {
      assert !Enabled(s, e) || e.FlightForget?;
    }
  }

  /** A commit stores that, at the next number, and frees the lease; a lost completion changes no row. */
  lemma CommitStores(s: State, i: nat, now: int, reply: Reply)
    requires FlightAt(s, i) && s.flights[i].pc.Completing?
    ensures var t, f := Step(s, FlightComplete(i, now, reply)), s.flights[i];
            t.store.rows
            == if reply != LostBefore && HasLease(s, f, now) then
                 var row := s.store.rows[f.key];
                 s.store.rows[f.key := Row(Sealed(f.key, f.pc.next), Some(f.pc.expiresAt), row.rotationSeq + 1, None,
                                           row.incarnation)]
               else s.store.rows
  {
    assert Step(s, FlightComplete(i, now, reply)) == StepComplete(s, i, now, reply);
  }

  /** A release gives the lease back; only after an invalid grant, and only if there was one, a delete follows. */
  lemma ReleaseGivesBack(s: State, i: nat, now: int, reply: Reply)
    requires FlightAt(s, i) && s.flights[i].pc.Releasing?
    ensures var t, f := Step(s, FlightRelease(i, now, reply)), s.flights[i];
            && t.store.rows
               == (if reply != LostBefore && HasLease(s, f, now) then
                     s.store.rows[f.key := s.store.rows[f.key].(lease := None)]
                   else s.store.rows)
            && FlightAt(t, i)
            && (t.flights[i].pc.Deleting? <==> reply == Delivered && f.pc.error == InvalidGrant && HasLease(s, f, now))
  {
    assert Step(s, FlightRelease(i, now, reply)) == StepRelease(s, i, now, reply);
  }

  // ---------------------------------------------------------------------------
  // Sign-ins, configuration changes and ledgers
  // ---------------------------------------------------------------------------

  predicate InPhase(s: State, i: nat, phase: CallbackPc) {
    i < |s.tasks| && s.tasks[i].Callback? && s.tasks[i].phase == phase
  }

  /** The connection still has the revision that the callback started with. */
  predicate Unchanged(s: State, key: Key) {
    key.connection in s.revisions && s.revisions[key.connection] == key.revision
  }

  /**
   A callback goes on with what the provider issued unless the verifier refuses that, and comes to
   store it only if the connection's configuration has not changed meanwhile.
   */
  lemma CallbackGoesOnIff(s: State, i: nat, answer: ProviderReply, payload: Payload, expiresAt: int)
    requires i < |s.tasks| && s.tasks[i].Callback?
    ensures s.tasks[i].phase.Exchanging? ==>
              (InPhase(Step(s, CallbackExchange(i, answer)), i, Rechecking(payload, expiresAt)) <==>
                 && answer.Issued? && !answer.verdict.Refused? && answer.expiresAt == expiresAt
                 && payload.token == answer.token && payload.refreshToken == answer.refreshToken
                 && (payload.Active? <==> answer.verdict.Accepted?))
    ensures s.tasks[i].phase == Rechecking(payload, expiresAt) ==>
              (InPhase(Step(s, CallbackRecheck(i)), i, Storing(payload, expiresAt)) <==> Unchanged(s, s.tasks[i].key))
  {
    if s.tasks[i].phase.Exchanging? { assert Step(s, CallbackExchange(i, answer)) == StepExchange(s, i, answer); }
    if s.tasks[i].phase.Rechecking? { assert Step(s, CallbackRecheck(i)) == StepRecheck(s, i); }
  }

  /** Whoever finds a finished flight in its instance's registry next starts a new one once it is forgotten. */
  lemma ForgottenIsGone(s: State, i: nat)
    requires Inv(s) && FlightAt(s, i) && s.flights[i].pc.Finished?
    ensures var t, k := Step(s, FlightForget(i)), (s.flights[i].owner, s.flights[i].key);
            && (k in t.registry ==> t.registry[k] != i)
            && (forall other | other != k :: other in t.registry <==> other in s.registry)
            && (forall other <- t.registry :: t.registry[other] == s.registry[other])
  {
    assert Step(s, FlightForget(i)) == StepForget(s, i);
  }

  /** After a configuration change nothing that was stored before is answered any more. */
  lemma ChangeNeedsNewSignIn(s: State, connection: string, principal: string, owner: nat, now: int)
    requires connection in s.revisions && Key(connection, s.revisions[connection] + 1, principal) !in s.store.rows
    ensures var n := |s.tasks|;
            var t := Step(Step(Step(s, ChangeConfig(connection)), StartResolve(owner, connection, principal)),
                          ResolverRead(n, now));
            Ends(t, n, Rejected(InteractionRequired))
  {
    var n, key := |s.tasks|, Key(connection, s.revisions[connection] + 1, principal);
    var a := Step(s, ChangeConfig(connection));
    assert a == s.(revisions := s.revisions[connection := key.revision]);
    var b := Step(a, StartResolve(owner, connection, principal));
    assert b == a.(tasks := s.tasks + [Resolver(owner, key, 1, 0, Reading)]);
    ReadEnds(b, now, n, InteractionRequired);
  }

  /** The event has the provider issue the token for that key. */
  predicate IssuesFor(s: State, e: Event, g: Grant) {
    Enabled(s, e) &&
    match e
    case FlightRefresh(i, Issued(token, _, _, _)) =>
      s.flights[i].payload.refreshToken.Some?
      && g == Grant(token, s.flights[i].key.connection, s.flights[i].key.revision)
    case CallbackExchange(i, Issued(token, _, _, _)) =>
      g == Grant(token, s.tasks[i].key.connection, s.tasks[i].key.revision)
    case _ => false
  }

  /** The event has the verifier accept the token for that key. */
  predicate AcceptsFor(s: State, e: Event, g: Grant) {
    || (IssuesFor(s, e, g) && e.answer.verdict.Accepted?)
    || (e.ResolverVerify? && Enabled(s, e) && e.verdict.Accepted?
        && var task := s.tasks[e.task];
           g == Grant(task.state.candidate.token, task.key.connection, task.key.revision))
  }

  /** The ledgers hold exactly what was issued, and what was accepted. */
  lemma LedgersIff(s: State, e: Event, g: Grant)
    ensures g in Step(s, e).minted <==> g in s.minted || IssuesFor(s, e, g)
    ensures g in Step(s, e).verified <==> g in s.verified || AcceptsFor(s, e, g)
  {
    if !Enabled(s, e) {
    } else if IsFlightEvent(e) {
      FlightLedgers(s, e, g);
    } else if e.ResolverRead? || e.ResolverReplace? {
      JudgeLedgers(s, e, g);
    } else {
      OtherLedgers(s, e, g);
    }
  }

  lemma FlightLedgers(s: State, e: Event, g: Grant)
    requires Enabled(s, e) && IsFlightEvent(e)
    ensures g in Step(s, e).minted <==> g in s.minted || IssuesFor(s, e, g)
    ensures g in Step(s, e).verified <==> g in s.verified || AcceptsFor(s, e, g)
  {
    if e.FlightRefresh? { assert Step(s, e) == StepRefresh(s, e.flight, e.answer); }
  }

  lemma JudgeLedgers(s: State, e: Event, g: Grant)
    requires Enabled(s, e) && (e.ResolverRead? || e.ResolverReplace?)
    ensures g in Step(s, e).minted <==> g in s.minted
    ensures g in Step(s, e).verified <==> g in s.verified
  {
    match e
    case ResolverRead(i, now) => assert Step(s, e) == StepRead(s, i, now);
    case ResolverReplace(i, now) => assert Step(s, e) == StepReplace(s, i, now);
  }

  lemma OtherLedgers(s: State, e: Event, g: Grant)
    requires Enabled(s, e) && !IsFlightEvent(e) && !e.ResolverRead? && !e.ResolverReplace?
    ensures g in Step(s, e).minted <==> g in s.minted || IssuesFor(s, e, g)
    ensures g in Step(s, e).verified <==> g in s.verified || AcceptsFor(s, e, g)
  {
    match e
    case CallbackExchange(i, answer) => assert Step(s, e) == StepExchange(s, i, answer);
    case RecoveryRead(i) => assert Step(s, e) == StepRecoveryRead(s, i);
    case _ =>
  }
}
