/** What the refresh protocol guarantees over every run. */
module RefreshTheorems {
  import opened Prelude
  import opened CredentialStore
  import opened RefreshProtocol
  import opened RefreshInvariant

  lemma InitInv(s: State)
    requires Init(s)
    ensures Inv(s)
  {
    forall i: nat ensures FlightOkAt(s, i) && TaskOkAt(s, i) && Registered(s, i) && CommitOk(s, i) { }
    forall k ensures EntryOk(s, k) { }
    forall i: nat, j: nat ensures CommitsGrow(s, i, j) { }
  }

  // ---------------------------------------------------------------------------
  // Versions
  // ---------------------------------------------------------------------------

  /** What one row may turn into. */
  ghost predicate RowGrown(first: Row, last: Row) {
    && first.incarnation <= last.incarnation
    && (first.incarnation == last.incarnation ==>
          && first.rotationSeq <= last.rotationSeq
          && (first.sealed != last.sealed || first.expiresAt != last.expiresAt
              ==> first.rotationSeq < last.rotationSeq))
  }

  /**
   Along every run a row that is still the same incarnation has a sequence number that did not
   shrink, and one that grew if its payload or expiry changed; a row inserted anew is a later
   incarnation.
   */
  lemma VersionsGrow(s: State, events: seq<Event>, k: Key)
    requires Inv(s) && k in s.store.rows && k in Run(s, events).store.rows
    ensures RowGrown(s.store.rows[k], Run(s, events).store.rows[k])
  {
    RunKeeps(s, events);
    FollowingRowGrown(s.store, Run(s, events).store, k);
  }

  lemma FollowingRowGrown(s: Store, t: Store, k: Key)
    requires StoreInv(s) && StoreInv(t) && Extends(s, t) && k in s.rows && k in t.rows
    ensures RowGrown(s.rows[k], t.rows[k])
  {
    var v := VersionOf(k, s.rows[k]);
    assert RowOk(s, k) && RowOk(t, k) && VersionOk(s, v);
    assert Grown(s, t, k) && Carried(s, t, v);
  }

  /** Every refresh result is committed over a version of its own, each newer than the last. */
  lemma OneCommitPerVersion(start: State, events: seq<Event>, i: nat, j: nat)
    requires Init(start)
    requires i < j < |Run(start, events).commits|
    ensures var c := Run(start, events).commits;
            c[i].version.key == c[j].version.key ==> Older(c[i].version, c[j].version)
  {
    InitInv(start);
    RunKeeps(start, events);
    assert CommitsGrow(Run(start, events), i, j);
  }

  // ---------------------------------------------------------------------------
  // Fencing
  // ---------------------------------------------------------------------------

  /**
   A commit happens only in a completion step, by a flight whose own lease is on the row, over
   the very version it claimed; the row then holds the refreshed payload one sequence number up.
   */
  lemma CommitNeedsLease(s: State, e: Event)
    requires Inv(s) && Step(s, e).commits != s.commits
    ensures e.FlightComplete? && FlightAt(s, e.flight)
    ensures var f := s.flights[e.flight];
            && OnRow(s.store, f) && f.pc.Completing?
            && var v := Version(f.key, f.claimed, f.expected.rotationSeq);
               && Current(s.store, v)
               && Step(s, e).commits == s.commits + [Commit(e.flight, v)]
               && Current(Step(s, e).store, v.(rotationSeq := v.rotationSeq + 1))
               && Step(s, e).store.rows[f.key].sealed == Sealed(f.key, f.pc.next)
  {
    OnlyCompletionCommits(s, e);
    assert FlightOkAt(s, e.flight);
  }

  /** No commit, no flight touched, no row gone. */
  ghost predicate Quiet(s: State, t: State) {
    && t.commits == s.commits
    && s.flights <= t.flights
    && s.store.rows.Keys <= t.store.rows.Keys
  }

  lemma ResolverQuiet(s: State, e: Event)
    requires IsResolverEvent(e)
    ensures Quiet(s, Step(s, e))
  {
    if Enabled(s, e) {
      match e
      case StartResolve(owner, c, principal) =>
      case ResolverRead(i, now) => assert Step(s, e) == StepRead(s, i, now);
      case ResolverVerify(i, verdict) =>
      case ResolverReplace(i, now) => assert Step(s, e) == StepReplace(s, i, now);
      case ResolverWake(i) =>
    }
  }

  lemma RecoveryQuiet(s: State, e: Event)
    requires IsRecoveryEvent(e) && !e.RecoveryDelete?
    ensures Quiet(s, Step(s, e))
  {
  }

  lemma CallbackQuiet(s: State, e: Event)
    requires IsCallbackEvent(e)
    ensures Quiet(s, Step(s, e))
  {
  }

  /** A flight's step touches no other flight; only a completion commits, only a deletion removes. */
  predicate Framed(s: State, e: Event, t: State)
    requires IsFlightEvent(e)
  {
    && |t.flights| == |s.flights|
    && (forall i | 0 <= i < |s.flights| && i != e.flight :: t.flights[i] == s.flights[i])
    && (!e.FlightComplete? ==> t.commits == s.commits)
    && (!e.FlightDelete? ==> s.store.rows.Keys <= t.store.rows.Keys)
  }

  lemma FlightFrame(s: State, e: Event)
    requires IsFlightEvent(e)
    ensures Framed(s, e, Step(s, e))
  {
    if Enabled(s, e) {
      if e.FlightClaim? || e.FlightComplete? { LeaseFrame(s, e); }
      else if e.FlightRelease? || e.FlightDelete? { GiveUpFrame(s, e); }
      else {
        match e
        case FlightRefresh(i, answer) => assert Step(s, e) == StepRefresh(s, i, answer);
        case FlightPoll(i, now, timedOut) => assert Step(s, e) == StepPoll(s, i, now, timedOut);
        case FlightForget(i) => assert Step(s, e) == StepForget(s, i);
      }
    }
  }

  lemma LeaseFrame(s: State, e: Event)
    requires Enabled(s, e) && (e.FlightClaim? || e.FlightComplete?)
    ensures Framed(s, e, Step(s, e))
  {
    match e
    case FlightClaim(i, now, until, reply) => assert Step(s, e) == StepClaim(s, i, now, until, reply);
    case FlightComplete(i, now, reply) => assert Step(s, e) == StepComplete(s, i, now, reply);
  }

  lemma GiveUpFrame(s: State, e: Event)
    requires Enabled(s, e) && (e.FlightRelease? || e.FlightDelete?)
    ensures Framed(s, e, Step(s, e))
  {
    match e
    case FlightRelease(i, now, reply) => assert Step(s, e) == StepRelease(s, i, now, reply);
    case FlightDelete(i, reply) => assert Step(s, e) == StepDelete(s, i, reply);
  }

  lemma OnlyCompletionCommits(s: State, e: Event)
    ensures Step(s, e).commits != s.commits ==> Enabled(s, e) && e.FlightComplete?
  {
    if IsFlightEvent(e) { FlightFrame(s, e); }
    else if IsResolverEvent(e) { ResolverQuiet(s, e); }
    else if IsCallbackEvent(e) { CallbackQuiet(s, e); }
    else if IsRecoveryEvent(e) && !e.RecoveryDelete? { RecoveryQuiet(s, e); }
  }

  /** Steps of other flights and of tasks leave a flight as it is. */
  lemma OthersKeepFlight(s: State, e: Event, i: nat)
    requires i < |s.flights|
    requires !IsFlightEvent(e) || e.flight != i
    ensures i < |Step(s, e).flights| && Step(s, e).flights[i] == s.flights[i]
  {
    if IsFlightEvent(e) { FlightFrame(s, e); }
    else if IsResolverEvent(e) { ResolverQuiet(s, e); }
    else if IsCallbackEvent(e) { CallbackQuiet(s, e); }
    else if IsRecoveryEvent(e) && !e.RecoveryDelete? { RecoveryQuiet(s, e); }
  }

  /** The flight once won a lease that is no longer on the row, or is over. */
  predicate TakenOver(s: State, i: nat) {
    && i < |s.flights|
    && var f := s.flights[i];
       f.pc.Finished? || (Leased(f.pc) && !f.pc.Deleting? && !OnRow(s.store, f))
  }

  lemma TakenOverStep(s: State, e: Event, i: nat)
    requires Inv(s) && TakenOver(s, i)
    ensures TakenOver(Step(s, e), i)
    ensures s.commits <= Step(s, e).commits
    ensures forall j | |s.commits| <= j < |Step(s, e).commits| :: Step(s, e).commits[j].flight != i
  {
    StepKeeps(s, e);
    assert FlightOkAt(s, i);
    if Step(s, e).commits != s.commits { CommitNeedsLease(s, e); }
    if IsFlightEvent(e) && e.flight == i {
      TakenOverOwnStep(s, e);
    } else {
      OthersKeepFlight(s, e, i);
      assert Grown(s.store, Step(s, e).store, s.flights[i].key);
    }
  }

  /** Its own next step finds the lease gone, whichever step that is. */
  lemma TakenOverOwnStep(s: State, e: Event)
    requires IsFlightEvent(e) && TakenOver(s, e.flight)
    ensures TakenOver(Step(s, e), e.flight)
  {
  }

  /**
   A process whose lease was taken over never commits, and never reaches the deletion that
   an invalid_grant answer leads to, however the run goes on.
   */
  lemma {:induction false} TakenOverNeverCommits(s: State, events: seq<Event>, i: nat)
    requires Inv(s) && TakenOver(s, i)
    ensures TakenOver(Run(s, events), i)
    ensures !Run(s, events).flights[i].pc.Deleting?
    ensures s.commits <= Run(s, events).commits
    ensures forall j | |s.commits| <= j < |Run(s, events).commits| :: Run(s, events).commits[j].flight != i
    decreases |events|
  {
    if events != [] {
      StepKeeps(s, events[0]);
      TakenOverStep(s, events[0], i);
      TakenOverNeverCommits(Step(s, events[0]), events[1..], i);
    }
  }

  /** One instance never has two unfinished refreshes of one key. */
  lemma SingleFlight(start: State, events: seq<Event>, i: nat, j: nat)
    requires Init(start)
    requires var s := Run(start, events);
             && i < |s.flights| && j < |s.flights| && s.flights[i].owner == s.flights[j].owner
             && s.flights[i].key == s.flights[j].key && !s.flights[i].pc.Finished? && !s.flights[j].pc.Finished?
    ensures i == j
  {
    InitInv(start);
    RunKeeps(start, events);
    assert Registered(Run(start, events), i) && Registered(Run(start, events), j);
  }

  // ---------------------------------------------------------------------------
  // Resolution
  // ---------------------------------------------------------------------------

  /** Every resolution makes at most three passes and waits for at most two refreshes. */
  lemma ResolutionBounded(start: State, events: seq<Event>, i: nat)
    requires Init(start) && TaskAt(Run(start, events), i) && Run(start, events).tasks[i].Resolver?
    ensures Run(start, events).tasks[i].passes <= 3
    ensures Run(start, events).tasks[i].awaits <= 2
  {
    InitInv(start);
    RunKeeps(start, events);
    assert TaskOkAt(Run(start, events), i);
  }

  /**
   An envelope carries the active token of the very version it names; that token was issued and
   verified under the security revision the resolver was given, and had more than 30 seconds left
   when it was checked.  Callbacks and configuration changes are among the events.
   */
  lemma ResolutionSound(start: State, events: seq<Event>, i: nat, token: string, v: Version, checkedAt: int)
    requires Init(start) && TaskAt(Run(start, events), i)
    requires var t := Run(start, events).tasks[i];
             t.Resolver? && t.state == Answered(Envelope(token, v, checkedAt))
    ensures var s := Run(start, events);
            var key := s.tasks[i].key;
            && v.key == key && v in s.store.history
            && Open(s.store.history[v].sealed, key).Some?
            && Open(s.store.history[v].sealed, key).value.Active?
            && Open(s.store.history[v].sealed, key).value.token == token
            && Grant(token, key.connection, key.revision) in s.minted * s.verified
            && (s.store.history[v].expiresAt.Some? ==> s.store.history[v].expiresAt.value > checkedAt + 30_000)
  {
    InitInv(start);
    RunKeeps(start, events);
    assert TaskOkAt(Run(start, events), i);
  }

  // ---------------------------------------------------------------------------
  // A rejected credential
  // ---------------------------------------------------------------------------

  /**
   Who may remove a row.  A recovery removes one only on its second attempt and only at the
   rejected sequence number, and so does its call whose reply is lost; a flight removes one only at
   the sequence number it read.  The sweep removes rows of older revisions.
   */
  lemma WhoRemoves(s: State, e: Event, k: Key)
    requires Inv(s) && k in s.store.rows && k !in Step(s, e).store.rows
    ensures Enabled(s, e)
    ensures match e
            case RecoveryDelete(i) => DiscardsAt(s, k, i)
            case LoseReply(i, applied) => applied && s.tasks[i].Recovery? && DiscardsAt(s, k, i)
            case FlightDelete(i, _) => s.flights[i].key == k && RemovesAt(s, k, s.flights[i].expected)
            case SweepStale(c, _) => c in s.revisions && k.connection == c && k.revision < s.revisions[c]
            case _ => false
  {
    if IsFlightEvent(e) { FlightFrame(s, e); }
    else if IsResolverEvent(e) { ResolverQuiet(s, e); }
    else if IsCallbackEvent(e) { CallbackQuiet(s, e); }
    else if IsRecoveryEvent(e) && !e.RecoveryDelete? { RecoveryQuiet(s, e); }
    if e.RecoveryDelete? || e.LoseReply? {
      assert TaskOkAt(s, e.task);
      if s.tasks[e.task].Recovery? { SameNumberIsLater(s, s.tasks[e.task].rejected); }
    } else if e.FlightDelete? {
      assert FlightOkAt(s, e.flight);
      SameNumberIsLater(s, s.flights[e.flight].expected);
    }
  }

  ghost predicate DiscardsAt(s: State, k: Key, i: nat)
    requires k in s.store.rows && TaskAt(s, i) && s.tasks[i].Recovery?
  {
    s.tasks[i].attempt == 1 && s.tasks[i].key == k && RemovesAt(s, k, s.tasks[i].rejected)
  }

  /** The row removed has `v`'s sequence number; if it is another one, it was stored later. */
  ghost predicate RemovesAt(s: State, k: Key, v: Version)
    requires k in s.store.rows
  {
    && v.key == k
    && s.store.rows[k].rotationSeq == v.rotationSeq
    && (!Current(s.store, v) ==> v.incarnation < s.store.rows[k].incarnation)
  }

  lemma SameNumberIsLater(s: State, v: Version)
    requires Inv(s) && v in s.store.history && Matches(s.store, v.key, v.rotationSeq)
    ensures !Current(s.store, v) ==> v.incarnation < s.store.rows[v.key].incarnation
  {
    assert VersionOk(s.store, v);
  }

  /** The key has a row at every point of the run. */
  ghost predicate PresentThroughout(s: State, events: seq<Event>, k: Key)
    decreases |events|
  {
    && k in s.store.rows
    && (events != [] ==> PresentThroughout(Step(s, events[0]), events[1..], k))
  }

  /** The row a call leaves is of the incarnation it found. */
  predicate SameIncarnation(s: Store, t: Store, k: Key) {
    k in s.rows && k in t.rows ==> t.rows[k].incarnation == s.rows[k].incarnation
  }

  lemma StepIncarnation(s: State, e: Event, k: Key)
    ensures SameIncarnation(s.store, Step(s, e).store, k)
  {
    if IsFlightEvent(e) { FlightIncarnation(s, e, k); }
    else if IsResolverEvent(e) { ResolverIncarnation(s, e, k); }
    else if IsRecoveryEvent(e) { RecoveryIncarnation(s, e, k); }
  }

  lemma FlightIncarnation(s: State, e: Event, k: Key)
    requires IsFlightEvent(e)
    ensures SameIncarnation(s.store, Step(s, e).store, k)
  {
  }

  lemma ResolverIncarnation(s: State, e: Event, k: Key)
    requires IsResolverEvent(e)
    ensures SameIncarnation(s.store, Step(s, e).store, k)
  {
    if Enabled(s, e) {
      match e
      case StartResolve(owner, c, principal) =>
      case ResolverRead(i, now) => assert Step(s, e) == StepRead(s, i, now);
      case ResolverVerify(i, verdict) =>
      case ResolverReplace(i, now) => assert Step(s, e) == StepReplace(s, i, now);
      case ResolverWake(i) =>
    }
  }

  lemma RecoveryIncarnation(s: State, e: Event, k: Key)
    requires IsRecoveryEvent(e)
    ensures SameIncarnation(s.store, Step(s, e).store, k)
  {
  }

  lemma {:induction false} PresentKeepsIncarnation(s: State, events: seq<Event>, k: Key)
    requires PresentThroughout(s, events, k)
    ensures k in Run(s, events).store.rows
    ensures Run(s, events).store.rows[k].incarnation == s.store.rows[k].incarnation
    decreases |events|
  {
    if events != [] {
      StepIncarnation(s, events[0], k);
      PresentKeepsIncarnation(Step(s, events[0]), events[1..], k);
    }
  }

  /** A version that is current at both ends of a run was current throughout. */
  lemma {:induction false} CurrentWasPresent(s: State, events: seq<Event>, v: Version)
    requires Inv(s) && v in s.store.history && Current(Run(s, events).store, v)
    ensures PresentThroughout(s, events, v.key)
    decreases |events|
  {
    RunKeeps(s, events);
    assert Carried(s.store, Run(s, events).store, v);
    if events != [] {
      StepKeeps(s, events[0]);
      assert Carried(s.store, Step(s, events[0]).store, v);
      CurrentWasPresent(Step(s, events[0]), events[1..], v);
    }
  }

  /**
   When a row has the sequence number of a version that was current before, it still is that version
   exactly if the key was never without a row since.
   */
  lemma SameNumberIff(s: State, events: seq<Event>, v: Version)
    requires Inv(s) && v in s.store.history && Current(s.store, v)
    requires Matches(Run(s, events).store, v.key, v.rotationSeq)
    ensures Current(Run(s, events).store, v) <==> PresentThroughout(s, events, v.key)
  {
    if PresentThroughout(s, events, v.key) { PresentKeepsIncarnation(s, events, v.key); }
    if Current(Run(s, events).store, v) { CurrentWasPresent(s, events, v); }
  }

  /**
   The version that an event's delete is about: the rejected one of a recovery, whether its reply
   arrives or not, or the one a flight had claimed when the provider called its grant invalid.
   */
  function AimedAt(s: State, e: Event): Option<Version> {
    if !Enabled(s, e) then None else
    match e
    case RecoveryDelete(i) => Some(s.tasks[i].rejected)
    case LoseReply(i, _) => if s.tasks[i].Recovery? then Some(s.tasks[i].rejected) else None
    case FlightDelete(i, _) => Some(s.flights[i].expected)
    case _ => None
  }

  /**
   What a second attempt at recovery deletes is the rejected credential exactly if the key was never
   without a row since that credential was current; else it is a newer one. So it is for the delete
   after an invalid grant, which comes after the lease was given back, and its claimed version.
   */
  lemma DiscardsRejectedIff(s: State, events: seq<Event>, v: Version, e: Event)
    requires Inv(s) && v in s.store.history && Current(s.store, v)
    requires var t := Run(s, events);
             AimedAt(t, e) == Some(v) && v.key in t.store.rows && v.key !in Step(t, e).store.rows
    ensures var t := Run(s, events);
            && t.store.rows[v.key].rotationSeq == v.rotationSeq
            && (Current(t.store, v) <==> PresentThroughout(s, events, v.key))
            && (!PresentThroughout(s, events, v.key) ==> v.incarnation < t.store.rows[v.key].incarnation)
  {
    RunKeeps(s, events);
    WhoRemoves(Run(s, events), e, v.key);
    SameNumberIff(s, events, v);
  }

  /** Once a second attempt has settled, the rejected version is not stored, then or ever after. */
  lemma RejectedStaysGone(start: State, before: seq<Event>, after: seq<Event>, i: nat)
    requires Init(start) && TaskAt(Run(start, before), i)
    requires var t := Run(start, before).tasks[i];
             && t.Recovery? && t.attempt == 1 && t.key == t.rejected.key
             && (t.step.Retry? || t.step.GiveUp?)
    ensures !Current(Run(Run(start, before), after).store, Run(start, before).tasks[i].rejected)
  {
    InitInv(start);
    var s := Run(start, before);
    RunKeeps(start, before);
    RunKeeps(s, after);
    assert TaskOkAt(s, i);
    assert Carried(s.store, Run(s, after).store, s.tasks[i].rejected);
  }
}
