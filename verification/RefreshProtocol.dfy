/**
 The OIDC credential protocol of packages/agent-auth/src/oidc.ts as a step system.

 A state holds the shared store, the connections' security revisions, and any number of
 refresh flights and tasks run by any number of Eveland instances.  One event is what one
 of them does between two `await`s, so a run is an arbitrary sequence of events: every
 interleaving.  Whatever the outside decides (clocks, identity provider answers, a store
 reply that gets lost) is a field of the event and is never constrained.
 */
module RefreshProtocol {
  import opened Prelude
  import opened CredentialStore

  const MAX_RESOLUTION_ATTEMPTS: nat := 3
  const EXPIRY_MARGIN_MS: int := 30_000

  /** The identity provider issued (or the verifier accepted) `token` under that revision's configuration. */
  datatype Grant = Grant(token: string, connection: string, revision: nat)

  datatype Failure = InteractionRequired | ConfigurationInvalid | ProviderUnavailable | RetryRequired

  datatype Error = Reauthorize | TokenRejected | InvalidGrant | OtherError

  /** What the access token verifier says. */
  datatype Verdict = Accepted | Refused | Unreachable

  datatype ProviderReply =
    | Failed(error: Error)
    | Issued(token: string, refreshToken: Option<string>, expiresAt: int, verdict: Verdict)

  /** The reply of a store call: delivered, or lost before or after the statement ran. */
  datatype Reply = Delivered | LostBefore | LostAfter

  datatype FlightPc =
    | Claiming
    | Refreshing
    | Completing(next: Payload, expiresAt: int)
    | Releasing(error: Error)
    | Deleting
    | Waiting(holdsTry: bool)
    | Finished(outcome: Option<Error>)

  /** `expected` is the version that was read; `claimed` the incarnation the lease was taken on. */
  datatype Flight = Flight(owner: nat, key: Key, expected: Version, payload: Payload,
                           leaseId: nat, claimed: nat, pc: FlightPc)

  datatype Resolution =
    | Envelope(token: string, version: Version, checkedAt: int)
    | Rejected(failure: Failure)

  datatype ResolverPc =
    | Reading
    | Verifying(seen: Version, candidate: Payload, expiresAt: Option<int>)
    | Replacing(seen: Version, active: Payload, expiresAt: Option<int>)
    | Awaiting(flight: nat)
    | Answered(resolution: Resolution)

  datatype RecoveryPc =
    | Checking
    | Discarding
    | Joined(flight: nat)
    | Retry
    | GiveUp(failure: Failure)

  datatype CallbackPc =
    | Exchanging
    | Rechecking(payload: Payload, expiresAt: int)
    | Storing(payload: Payload, expiresAt: int)
    | Closed

  datatype Task =
    | Resolver(owner: nat, key: Key, passes: nat, awaits: nat, state: ResolverPc)
    | Recovery(owner: nat, key: Key, rejected: Version, attempt: nat, step: RecoveryPc)
    | Callback(key: Key, phase: CallbackPc)
    | Abandoned

  datatype Commit = Commit(flight: nat, version: Version)

  datatype State = State(
    store: Store,
    revisions: map<string, nat>,
    minted: set<Grant>,
    verified: set<Grant>,
    flights: seq<Flight>,
    registry: map<(nat, Key), nat>,
    tasks: seq<Task>,
    commits: seq<Commit>)

  datatype Event =
    | FlightClaim(flight: nat, now: int, until: int, reply: Reply)
    | FlightRefresh(flight: nat, answer: ProviderReply)
    | FlightComplete(flight: nat, now: int, reply: Reply)
    | FlightRelease(flight: nat, now: int, reply: Reply)
    | FlightDelete(flight: nat, reply: Reply)
    | FlightPoll(flight: nat, now: int, timedOut: bool)
    | FlightForget(flight: nat)
    | StartResolve(owner: nat, connection: string, principal: string)
    | ResolverRead(task: nat, now: int)
    | ResolverVerify(task: nat, verdict: Verdict)
    | ResolverReplace(task: nat, now: int)
    | ResolverWake(task: nat)
    | StartRecovery(owner: nat, answered: nat, attempt: nat)
    | RecoveryRead(task: nat)
    | RecoveryDelete(task: nat)
    | RecoveryWake(task: nat)
    | StartCallback(connection: string, principal: string, revision: nat)
    | CallbackExchange(task: nat, answer: ProviderReply)
    | CallbackRecheck(task: nat)
    | CallbackStore(task: nat)
    | LoseReply(task: nat, applied: bool)
    | Abandon(task: nat)
    | ChangeConfig(connection: string)
    | SweepStale(connection: string, revision: nat)

  // ---------------------------------------------------------------------------
  // Shared pieces
  // ---------------------------------------------------------------------------

  function GrantFor(key: Key, token: string): Grant {
    Grant(token, key.connection, key.revision)
  }

  /** A token the verifier refuses is an error; one it cannot check stays pending. */
  function Candidate(answer: ProviderReply): (r: Option<Payload>)
    requires answer.Issued?
  {
    match answer.verdict
    case Accepted => Some(Active(answer.token, answer.refreshToken))
    case Unreachable => Some(Pending(answer.token, answer.refreshToken))
    case Refused => None
  }

  /** The ledgers after the identity provider issued a token for `key`. */
  function Record(s: State, key: Key, answer: ProviderReply): State
    requires answer.Issued?
  {
    var g := GrantFor(key, answer.token);
    s.(minted := s.minted + {g}, verified := if answer.verdict.Accepted? then s.verified + {g} else s.verified)
  }

  predicate ExpiringSoon(expiresAt: Option<int>, now: int) {
    expiresAt.Some? && expiresAt.value <= now + EXPIRY_MARGIN_MS
  }

  function SetFlight(s: State, i: nat, pc: FlightPc): State
    requires i < |s.flights|
  {
    s.(flights := s.flights[i := s.flights[i].(pc := pc)])
  }

  function SetTask(s: State, i: nat, t: Task): State
    requires i < |s.tasks|
  {
    s.(tasks := s.tasks[i := t])
  }

  /** getOrStartRefresh: the instance's flight for the key if one is registered, else a new one. */
  function Join(s: State, owner: nat, seen: Version, payload: Payload): (State, nat) {
    var k := (owner, seen.key);
    if k in s.registry then (s, s.registry[k])
    else
      var flight := Flight(owner, seen.key, seen, payload, 0, 0, Claiming);
      (s.(flights := s.flights + [flight], registry := s.registry[k := |s.flights|]), |s.flights|)
  }

  // ---------------------------------------------------------------------------
  // refreshCredential and waitForRefreshWinner
  // ---------------------------------------------------------------------------

  predicate FlightAt(s: State, i: nat) {
    i < |s.flights|
  }

  function StepClaim(s: State, i: nat, now: int, until: int, reply: Reply): State
    requires FlightAt(s, i) && s.flights[i].pc.Claiming?
  {
    var f := s.flights[i];
    if reply.LostBefore? then SetFlight(s, i, Finished(Some(OtherError)))
    else
      var granted := Claimable(s.store, f.key, f.expected.rotationSeq, now);
      var t := s.(store := Claim(s.store, f.key, f.expected.rotationSeq, f.owner, until, now));
      if reply.LostAfter? then SetFlight(t, i, Finished(Some(OtherError)))
      else if !granted then SetFlight(t, i, Waiting(false))
      else t.(flights := t.flights[i := f.(leaseId := s.store.leasesIssued,
                                           claimed := s.store.rows[f.key].incarnation,
                                           pc := Refreshing)])
  }

  function StepRefresh(s: State, i: nat, answer: ProviderReply): State
    requires FlightAt(s, i) && s.flights[i].pc.Refreshing?
  {
    var f := s.flights[i];
    if f.payload.refreshToken.None? then SetFlight(s, i, Releasing(Reauthorize))
    else match answer
      case Failed(error) => SetFlight(s, i, Releasing(error))
      case Issued(_, _, expiresAt, _) =>
        var t := Record(s, f.key, answer);
        match Candidate(answer)
        case None => SetFlight(t, i, Releasing(TokenRejected))
        case Some(next) => SetFlight(t, i, Completing(next, expiresAt))
  }

  function StepComplete(s: State, i: nat, now: int, reply: Reply): State
    requires FlightAt(s, i) && s.flights[i].pc.Completing?
  {
    var f := s.flights[i];
    if reply.LostBefore? then SetFlight(s, i, Releasing(OtherError))
    else
      var holds := Holds(s.store, f.key, f.expected.rotationSeq, f.owner, f.leaseId, now);
      var t := s.(store := Complete(s.store, f.key, f.expected.rotationSeq, f.owner, f.leaseId, now,
                                    Sealed(f.key, f.pc.next), Some(f.pc.expiresAt)),
                  commits := if holds then s.commits + [Commit(i, VersionOf(f.key, s.store.rows[f.key]))]
                      else s.commits);
      if reply.LostAfter? then SetFlight(t, i, Releasing(OtherError))
      else SetFlight(t, i, if holds then Finished(None) else Waiting(true))
  }

  function StepRelease(s: State, i: nat, now: int, reply: Reply): State
    requires FlightAt(s, i) && s.flights[i].pc.Releasing?
  {
    var f := s.flights[i];
    if reply.LostBefore? then SetFlight(s, i, Finished(Some(OtherError)))
    else
      var released := Holds(s.store, f.key, f.expected.rotationSeq, f.owner, f.leaseId, now);
      var t := s.(store := Release(s.store, f.key, f.expected.rotationSeq, f.owner, f.leaseId, now));
      if reply.LostAfter? then SetFlight(t, i, Finished(Some(OtherError)))
      else if f.pc.error.InvalidGrant? && released then SetFlight(t, i, Deleting)
      else SetFlight(t, i, Finished(Some(f.pc.error)))
  }

  function StepDelete(s: State, i: nat, reply: Reply): State
    requires FlightAt(s, i) && s.flights[i].pc.Deleting?
  {
    var f := s.flights[i];
    if reply.LostBefore? then SetFlight(s, i, Finished(Some(OtherError)))
    else
      var t := s.(store := Delete(s.store, f.key, f.expected.rotationSeq));
      SetFlight(t, i, Finished(Some(if reply.LostAfter? then OtherError else Reauthorize)))
  }

  /** One turn of the wait loop; inside refreshCredential's `try` an error goes on to the release. */
  function StepPoll(s: State, i: nat, now: int, timedOut: bool): State
    requires FlightAt(s, i) && s.flights[i].pc.Waiting?
  {
    var f := s.flights[i];
    var fail := (e: Error) => SetFlight(s, i, if f.pc.holdsTry then Releasing(e) else Finished(Some(e)));
    if timedOut then fail(OtherError)
    else if f.key !in s.store.rows then fail(Reauthorize)
    else if s.store.rows[f.key].rotationSeq > f.expected.rotationSeq || LeaseFree(s.store.rows[f.key], now) then
      SetFlight(s, i, Finished(None))
    else s
  }

  function StepForget(s: State, i: nat): State
    requires FlightAt(s, i) && s.flights[i].pc.Finished?
  {
    var k := (s.flights[i].owner, s.flights[i].key);
    if k in s.registry && s.registry[k] == i then s.(registry := s.registry - {k}) else s
  }

  // ---------------------------------------------------------------------------
  // resolveCredential
  // ---------------------------------------------------------------------------

  function StepStartResolve(s: State, owner: nat, connection: string, principal: string): State
    requires connection in s.revisions
  {
    s.(tasks := s.tasks + [Resolver(owner, Key(connection, s.revisions[connection], principal), 1, 0, Reading)])
  }

  function Answer(s: State, i: nat, r: Resolution): State
    requires i < |s.tasks| && s.tasks[i].Resolver?
  {
    SetTask(s, i, s.tasks[i].(state := Answered(r)))
  }

  /** The expiry check on the credential in hand: answer with it, fail, or wait for a refresh. */
  function Judge(s: State, i: nat, seen: Version, payload: Payload, expiresAt: Option<int>, now: int): State
    requires i < |s.tasks| && s.tasks[i].Resolver?
  {
    var t := s.tasks[i];
    if !ExpiringSoon(expiresAt, now) then Answer(s, i, Envelope(payload.token, seen, now))
    else if payload.refreshToken.None? then Answer(s, i, Rejected(InteractionRequired))
    else if t.passes >= MAX_RESOLUTION_ATTEMPTS then Answer(s, i, Rejected(ProviderUnavailable))
    else
      var (joined, flight) := Join(s, t.owner, seen, payload);
      SetTask(joined, i, t.(awaits := t.awaits + 1, state := Awaiting(flight)))
  }

  function StepRead(s: State, i: nat, now: int): State
    requires i < |s.tasks| && s.tasks[i].Resolver? && s.tasks[i].state.Reading?
  {
    var t := s.tasks[i];
    if t.key !in s.store.rows then Answer(s, i, Rejected(InteractionRequired))
    else
      var row := s.store.rows[t.key];
      match Open(row.sealed, t.key)
      case None => Answer(s, i, Rejected(ConfigurationInvalid))
      case Some(payload) =>
        if payload.Pending? then
          SetTask(s, i, t.(state := Verifying(VersionOf(t.key, row), payload, row.expiresAt)))
        else Judge(s, i, VersionOf(t.key, row), payload, row.expiresAt, now)
  }

  function StepVerify(s: State, i: nat, verdict: Verdict): State
    requires i < |s.tasks| && s.tasks[i].Resolver? && s.tasks[i].state.Verifying?
  {
    var t := s.tasks[i];
    var p := t.state.candidate;
    match verdict
    case Refused => Answer(s, i, Rejected(ConfigurationInvalid))
    case Unreachable => Answer(s, i, Rejected(ProviderUnavailable))
    case Accepted =>
      var v := s.(verified := s.verified + {GrantFor(t.key, p.token)});
      SetTask(v, i, t.(state := Replacing(t.state.seen, Active(p.token, p.refreshToken), t.state.expiresAt)))
  }

  function StepReplace(s: State, i: nat, now: int): State
    requires i < |s.tasks| && s.tasks[i].Resolver? && s.tasks[i].state.Replacing?
  {
    var t := s.tasks[i];
    var Replacing(seen, active, expiresAt) := t.state;
    if Matches(s.store, t.key, seen.rotationSeq) then
      var r := s.(store := Replace(s.store, t.key, seen.rotationSeq, Sealed(t.key, active), expiresAt));
      Judge(r, i, VersionOf(t.key, r.store.rows[t.key]), active, expiresAt, now)
    else if t.passes >= MAX_RESOLUTION_ATTEMPTS then Answer(s, i, Rejected(RetryRequired))
    else SetTask(s, i, t.(passes := t.passes + 1, state := Reading))
  }

  function FailureOf(e: Error): Failure {
    match e
    case Reauthorize => InteractionRequired
    case TokenRejected => ConfigurationInvalid
    case _ => ProviderUnavailable
  }

  function StepWake(s: State, i: nat): State
    requires i < |s.tasks| && s.tasks[i].Resolver? && s.tasks[i].state.Awaiting?
    requires FlightAt(s, s.tasks[i].state.flight) && s.flights[s.tasks[i].state.flight].pc.Finished?
  {
    var t := s.tasks[i];
    match s.flights[t.state.flight].pc.outcome
    case None => SetTask(s, i, t.(passes := t.passes + 1, state := Reading))
    case Some(e) => Answer(s, i, Rejected(FailureOf(e)))
  }

  // ---------------------------------------------------------------------------
  // recoverUnauthorized
  // ---------------------------------------------------------------------------

  /** A 401 rejected the envelope that task `answered` returned; the connection is read afresh. */
  predicate CanRecover(s: State, answered: nat, attempt: nat) {
    && answered < |s.tasks|
    && s.tasks[answered].Resolver?
    && s.tasks[answered].state.Answered?
    && s.tasks[answered].state.resolution.Envelope?
    && s.tasks[answered].key.connection in s.revisions
    && attempt <= 1
  }

  function StepStartRecovery(s: State, owner: nat, answered: nat, attempt: nat): State
    requires CanRecover(s, answered, attempt)
  {
    var t := s.tasks[answered];
    var key := t.key.(revision := s.revisions[t.key.connection]);
    s.(tasks := s.tasks + [Recovery(owner, key, t.state.resolution.version, attempt,
                                    if key != t.key then GiveUp(RetryRequired) else Checking)])
  }

  function Settle(s: State, i: nat, step: RecoveryPc): State
    requires i < |s.tasks| && s.tasks[i].Recovery?
  {
    SetTask(s, i, s.tasks[i].(step := step))
  }

  function StepRecoveryRead(s: State, i: nat): State
    requires i < |s.tasks| && s.tasks[i].Recovery? && s.tasks[i].step.Checking?
  {
    var t := s.tasks[i];
    if t.key !in s.store.rows then Settle(s, i, GiveUp(InteractionRequired))
    else
      var row := s.store.rows[t.key];
      if row.rotationSeq > t.rejected.rotationSeq then Settle(s, i, Retry)
      else if row.rotationSeq != t.rejected.rotationSeq then Settle(s, i, GiveUp(RetryRequired))
      else if t.attempt == 1 then Settle(s, i, Discarding)
      else
        match Open(row.sealed, t.key)
        case None => Settle(s, i, GiveUp(ConfigurationInvalid))
        case Some(payload) =>
          if payload.refreshToken.None? then Settle(s, i, GiveUp(InteractionRequired))
          else
            var (joined, flight) := Join(s, t.owner, VersionOf(t.key, row), payload);
            Settle(joined, i, Joined(flight))
  }

  function StepRecoveryDelete(s: State, i: nat): State
    requires i < |s.tasks| && s.tasks[i].Recovery? && s.tasks[i].step.Discarding?
  {
    var t := s.tasks[i];
    Settle(s.(store := Delete(s.store, t.key, t.rejected.rotationSeq)), i, GiveUp(InteractionRequired))
  }

  function StepRecoveryWake(s: State, i: nat): State
    requires i < |s.tasks| && s.tasks[i].Recovery? && s.tasks[i].step.Joined?
    requires FlightAt(s, s.tasks[i].step.flight) && s.flights[s.tasks[i].step.flight].pc.Finished?
  {
    match s.flights[s.tasks[i].step.flight].pc.outcome
    case None => Settle(s, i, Retry)
    case Some(e) => Settle(s, i, GiveUp(FailureOf(e)))
  }

  // ---------------------------------------------------------------------------
  // callback, and the configuration update that races it
  // ---------------------------------------------------------------------------

  function StepStartCallback(s: State, connection: string, principal: string, revision: nat): State {
    if connection in s.revisions && s.revisions[connection] == revision then
      s.(tasks := s.tasks + [Callback(Key(connection, revision, principal), Exchanging)])
    else s
  }

  function StepExchange(s: State, i: nat, answer: ProviderReply): State
    requires i < |s.tasks| && s.tasks[i].Callback? && s.tasks[i].phase.Exchanging?
  {
    var t := s.tasks[i];
    match answer
    case Failed(_) => SetTask(s, i, t.(phase := Closed))
    case Issued(_, _, expiresAt, _) =>
      var r := Record(s, t.key, answer);
      match Candidate(answer)
      case None => SetTask(r, i, t.(phase := Closed))
      case Some(payload) => SetTask(r, i, t.(phase := Rechecking(payload, expiresAt)))
  }

  function StepRecheck(s: State, i: nat): State
    requires i < |s.tasks| && s.tasks[i].Callback? && s.tasks[i].phase.Rechecking?
  {
    var t := s.tasks[i];
    if t.key.connection in s.revisions && s.revisions[t.key.connection] == t.key.revision then
      SetTask(s, i, t.(phase := Storing(t.phase.payload, t.phase.expiresAt)))
    else SetTask(s, i, t.(phase := Closed))
  }

  function StepStore(s: State, i: nat): State
    requires i < |s.tasks| && s.tasks[i].Callback? && s.tasks[i].phase.Storing?
  {
    var t := s.tasks[i];
    SetTask(s.(store := Put(s.store, t.key, Sealed(t.key, t.phase.payload), Some(t.phase.expiresAt))),
            i, t.(phase := Closed))
  }

  // ---------------------------------------------------------------------------
  // Store calls of tasks whose reply is lost
  // ---------------------------------------------------------------------------

  predicate AwaitsStore(s: State, i: nat) {
    && i < |s.tasks|
    && match s.tasks[i]
       case Resolver(_, _, _, _, state) => state.Replacing?
       case Recovery(_, _, _, _, step) => step.Discarding?
       case Callback(_, phase) => phase.Storing?
       case Abandoned => false
  }

  /** The store after the call a task waits for. */
  function Called(store: Store, t: Task): Store {
    match t
    case Resolver(_, key, _, _, Replacing(seen, active, expiresAt)) =>
      Replace(store, key, seen.rotationSeq, Sealed(key, active), expiresAt)
    case Recovery(_, key, rejected, _, Discarding) => Delete(store, key, rejected.rotationSeq)
    case Callback(key, Storing(payload, expiresAt)) => Put(store, key, Sealed(key, payload), Some(expiresAt))
    case _ => store
  }

  /** A resolution answers that the provider is unavailable; a recovery and a callback throw. */
  function StepLose(s: State, i: nat, applied: bool): State
    requires AwaitsStore(s, i)
  {
    var t := s.tasks[i];
    var r := if applied then s.(store := Called(s.store, t)) else s;
    SetTask(r, i, if t.Resolver? then t.(state := Answered(Rejected(ProviderUnavailable))) else Abandoned)
  }

  // ---------------------------------------------------------------------------
  // One step, and runs
  // ---------------------------------------------------------------------------

  predicate TaskAt(s: State, i: nat) {
    i < |s.tasks|
  }

  predicate Enabled(s: State, e: Event) {
    match e
    case FlightClaim(i, _, _, _) => FlightAt(s, i) && s.flights[i].pc.Claiming?
    case FlightRefresh(i, _) => FlightAt(s, i) && s.flights[i].pc.Refreshing?
    case FlightComplete(i, _, _) => FlightAt(s, i) && s.flights[i].pc.Completing?
    case FlightRelease(i, _, _) => FlightAt(s, i) && s.flights[i].pc.Releasing?
    case FlightDelete(i, _) => FlightAt(s, i) && s.flights[i].pc.Deleting?
    case FlightPoll(i, _, _) => FlightAt(s, i) && s.flights[i].pc.Waiting?
    case FlightForget(i) => FlightAt(s, i) && s.flights[i].pc.Finished?
    case StartResolve(_, c, _) => c in s.revisions
    case ResolverRead(i, _) => TaskAt(s, i) && s.tasks[i].Resolver? && s.tasks[i].state.Reading?
    case ResolverVerify(i, _) => TaskAt(s, i) && s.tasks[i].Resolver? && s.tasks[i].state.Verifying?
    case ResolverReplace(i, _) => TaskAt(s, i) && s.tasks[i].Resolver? && s.tasks[i].state.Replacing?
    case ResolverWake(i) =>
      && TaskAt(s, i) && s.tasks[i].Resolver? && s.tasks[i].state.Awaiting?
      && FlightAt(s, s.tasks[i].state.flight) && s.flights[s.tasks[i].state.flight].pc.Finished?
    case StartRecovery(_, answered, attempt) => CanRecover(s, answered, attempt)
    case RecoveryRead(i) => TaskAt(s, i) && s.tasks[i].Recovery? && s.tasks[i].step.Checking?
    case RecoveryDelete(i) => TaskAt(s, i) && s.tasks[i].Recovery? && s.tasks[i].step.Discarding?
    case RecoveryWake(i) =>
      && TaskAt(s, i) && s.tasks[i].Recovery? && s.tasks[i].step.Joined?
      && FlightAt(s, s.tasks[i].step.flight) && s.flights[s.tasks[i].step.flight].pc.Finished?
    case StartCallback(_, _, _) => true
    case CallbackExchange(i, _) => TaskAt(s, i) && s.tasks[i].Callback? && s.tasks[i].phase.Exchanging?
    case CallbackRecheck(i) => TaskAt(s, i) && s.tasks[i].Callback? && s.tasks[i].phase.Rechecking?
    case CallbackStore(i) => TaskAt(s, i) && s.tasks[i].Callback? && s.tasks[i].phase.Storing?
    case LoseReply(i, _) => AwaitsStore(s, i)
    case Abandon(i) => TaskAt(s, i)
    case ChangeConfig(c) => c in s.revisions
    case SweepStale(c, revision) => c in s.revisions && revision <= s.revisions[c]
  }

  /** An event that does not fit the state changes nothing. */
  function Step(s: State, e: Event): State {
    if !Enabled(s, e) then s else
    match e
    case FlightClaim(i, now, until, reply) => StepClaim(s, i, now, until, reply)
    case FlightRefresh(i, answer) => StepRefresh(s, i, answer)
    case FlightComplete(i, now, reply) => StepComplete(s, i, now, reply)
    case FlightRelease(i, now, reply) => StepRelease(s, i, now, reply)
    case FlightDelete(i, reply) => StepDelete(s, i, reply)
    case FlightPoll(i, now, timedOut) => StepPoll(s, i, now, timedOut)
    case FlightForget(i) => StepForget(s, i)
    case StartResolve(owner, c, principal) => StepStartResolve(s, owner, c, principal)
    case ResolverRead(i, now) => StepRead(s, i, now)
    case ResolverVerify(i, verdict) => StepVerify(s, i, verdict)
    case ResolverReplace(i, now) => StepReplace(s, i, now)
    case ResolverWake(i) => StepWake(s, i)
    case StartRecovery(owner, answered, attempt) => StepStartRecovery(s, owner, answered, attempt)
    case RecoveryRead(i) => StepRecoveryRead(s, i)
    case RecoveryDelete(i) => StepRecoveryDelete(s, i)
    case RecoveryWake(i) => StepRecoveryWake(s, i)
    case StartCallback(c, principal, revision) => StepStartCallback(s, c, principal, revision)
    case CallbackExchange(i, answer) => StepExchange(s, i, answer)
    case CallbackRecheck(i) => StepRecheck(s, i)
    case CallbackStore(i) => StepStore(s, i)
    case LoseReply(i, applied) => StepLose(s, i, applied)
    case Abandon(i) => SetTask(s, i, Abandoned)
    case ChangeConfig(c) => s.(revisions := s.revisions[c := s.revisions[c] + 1])
    case SweepStale(c, revision) => s.(store := DeleteStale(s.store, c, revision))
  }

  function Run(s: State, events: seq<Event>): State
    decreases |events|
  {
    if events == [] then s else Run(Step(s, events[0]), events[1..])
  }
}
