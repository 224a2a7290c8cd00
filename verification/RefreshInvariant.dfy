/** The inductive invariant of the refresh protocol, kept by every event of every run. */
module RefreshInvariant {
  import opened Prelude
  import opened CredentialStore
  import opened RefreshProtocol

  /** A payload for `key` holds a token issued under that key's configuration, verified when active. */
  ghost predicate PayloadOk(minted: set<Grant>, verified: set<Grant>, key: Key, p: Payload) {
    && GrantFor(key, p.token) in minted
    && (p.Active? ==> GrantFor(key, p.token) in verified)
  }

  ghost predicate ContentOk(minted: set<Grant>, verified: set<Grant>, v: Version, c: Content) {
    Open(c.sealed, v.key).Some? ==> PayloadOk(minted, verified, v.key, Open(c.sealed, v.key).value)
  }

  ghost predicate HistoryOkAt(s: State, v: Version) {
    v in s.store.history ==> ContentOk(s.minted, s.verified, v, s.store.history[v])
  }

  ghost predicate HistoryOk(s: State) {
    forall v {:trigger HistoryOkAt(s, v)} :: HistoryOkAt(s, v)
  }

  /** Between winning the claim and settling: the flight may still believe that it holds the lease. */
  predicate Leased(pc: FlightPc) {
    pc.Refreshing? || pc.Completing? || pc.Releasing? || pc.Deleting? || (pc.Waiting? && pc.holdsTry)
  }

  /** The flight's own lease sits on the row, wherever the row has got to. */
  predicate OnRow(store: Store, f: Flight) {
    && f.key in store.rows
    && store.rows[f.key].lease.Some?
    && store.rows[f.key].lease.value.id == f.leaseId
  }

  ghost predicate FlightOk(s: State, f: Flight) {
    && f.expected.key == f.key
    && f.expected in s.store.history
    && (f.pc.Completing? ==> PayloadOk(s.minted, s.verified, f.key, f.pc.next))
    && (Leased(f.pc) ==>
          && f.leaseId < s.store.leasesIssued
          && f.claimed < s.store.births
          && (OnRow(s.store, f) ==>
                && s.store.rows[f.key].lease.value.owner == f.owner
                && Current(s.store, Version(f.key, f.claimed, f.expected.rotationSeq))))
  }

  /** A version of `key` with this payload and expiry was stored. */
  ghost predicate Stored(s: State, key: Key, v: Version, p: Payload, expiresAt: Option<int>) {
    && v.key == key
    && v in s.store.history
    && Open(s.store.history[v].sealed, key) == Some(p)
    && s.store.history[v].expiresAt == expiresAt
  }

  /** An envelope carries an active, verified token of the version it names, with time left. */
  ghost predicate EnvelopeOk(s: State, key: Key, token: string, v: Version, checkedAt: int) {
    && v.key == key
    && v in s.store.history
    && var p := Open(s.store.history[v].sealed, key);
       && p.Some? && p.value.Active? && p.value.token == token
       && GrantFor(key, token) in s.minted
       && GrantFor(key, token) in s.verified
       && !ExpiringSoon(s.store.history[v].expiresAt, checkedAt)
  }

  ghost predicate ResolverOk(s: State, t: Task)
    requires t.Resolver?
  {
    && 1 <= t.passes <= MAX_RESOLUTION_ATTEMPTS
    && (if t.state.Awaiting? then t.awaits <= t.passes < MAX_RESOLUTION_ATTEMPTS else t.awaits <= t.passes)
    && t.awaits <= MAX_RESOLUTION_ATTEMPTS - 1
    && (t.state.Reading? || t.state.Verifying? || t.state.Replacing? ==> t.awaits < t.passes)
    && match t.state
       case Reading => true
       case Verifying(seen, p, expiresAt) =>
         p.Pending? && PayloadOk(s.minted, s.verified, t.key, p) && Stored(s, t.key, seen, p, expiresAt)
       case Replacing(seen, p, expiresAt) =>
         p.Active? && PayloadOk(s.minted, s.verified, t.key, p) && seen.key == t.key && seen in s.store.history
       case Awaiting(flight) => flight < |s.flights|
       case Answered(Envelope(token, v, checkedAt)) => EnvelopeOk(s, t.key, token, v, checkedAt)
       case Answered(Rejected(_)) => true
  }

  ghost predicate RecoveryOk(s: State, t: Task)
    requires t.Recovery?
  {
    && t.rejected in s.store.history
    && t.attempt <= 1
    && (t.step.Joined? ==> t.step.flight < |s.flights| && t.attempt == 0)
    && (t.step.Discarding? ==> t.attempt == 1)
    && (t.step.Checking? || t.step.Discarding? ==> t.key == t.rejected.key)
    && (t.attempt == 1 && t.key == t.rejected.key && (t.step.Retry? || t.step.GiveUp?) ==>
          !Current(s.store, t.rejected))
  }

  ghost predicate CallbackOk(s: State, t: Task)
    requires t.Callback?
  {
    match t.phase
    case Rechecking(p, _) => PayloadOk(s.minted, s.verified, t.key, p)
    case Storing(p, _) => PayloadOk(s.minted, s.verified, t.key, p)
    case _ => true
  }

  ghost predicate TaskOk(s: State, t: Task) {
    match t
    case Resolver(_, _, _, _, _) => ResolverOk(s, t)
    case Recovery(_, _, _, _, _) => RecoveryOk(s, t)
    case Callback(_, _) => CallbackOk(s, t)
    case Abandoned => true
  }

  ghost predicate EntryOk(s: State, k: (nat, Key)) {
    k in s.registry ==>
      && s.registry[k] < |s.flights|
      && s.flights[s.registry[k]].owner == k.0 && s.flights[s.registry[k]].key == k.1
  }

  /** An unfinished flight is the registered one of its instance and key. */
  ghost predicate Registered(s: State, i: nat) {
    i < |s.flights| && !s.flights[i].pc.Finished? ==>
      var k := (s.flights[i].owner, s.flights[i].key);
      k in s.registry && s.registry[k] == i
  }

  ghost predicate RegistryOk(s: State) {
    && (forall k {:trigger EntryOk(s, k)} :: EntryOk(s, k))
    && (forall i: nat {:trigger Registered(s, i)} :: Registered(s, i))
  }

  /** A version that was committed over was stored once and is stored no more. */
  ghost predicate CommitOk(s: State, i: nat) {
    i < |s.commits| ==> s.commits[i].version in s.store.history && !Current(s.store, s.commits[i].version)
  }

  /** Along the run, commits on one key are over newer and newer versions. */
  ghost predicate CommitsGrow(s: State, i: nat, j: nat) {
    i < j < |s.commits| && s.commits[i].version.key == s.commits[j].version.key ==>
      Older(s.commits[i].version, s.commits[j].version)
  }

  ghost predicate CommitsOk(s: State) {
    && (forall i: nat {:trigger CommitOk(s, i)} :: CommitOk(s, i))
    && (forall i: nat, j: nat {:trigger CommitsGrow(s, i, j)} :: CommitsGrow(s, i, j))
  }

  ghost predicate FlightOkAt(s: State, i: nat) {
    i < |s.flights| ==> FlightOk(s, s.flights[i])
  }

  ghost predicate TaskOkAt(s: State, i: nat) {
    i < |s.tasks| ==> TaskOk(s, s.tasks[i])
  }

  ghost predicate Inv(s: State) {
    && StoreInv(s.store)
    && HistoryOk(s)
    && (forall i: nat {:trigger FlightOkAt(s, i)} :: FlightOkAt(s, i))
    && (forall i: nat {:trigger TaskOkAt(s, i)} :: TaskOkAt(s, i))
    && RegistryOk(s)
    && CommitsOk(s)
  }

  /** Any store whose rows are sound, and nothing running yet. */
  ghost predicate Init(s: State) {
    && StoreInv(s.store) && HistoryOk(s)
    && s.flights == [] && s.tasks == [] && s.registry == map[] && s.commits == []
  }

  /** What may change between two states of one run. */
  ghost predicate Follows(s: State, t: State) {
    && Extends(s.store, t.store)
    && s.minted <= t.minted && s.verified <= t.verified
    && |s.flights| <= |t.flights|
    && s.commits <= t.commits
  }

  // ---------------------------------------------------------------------------
  // Every local predicate survives whatever the others do
  // ---------------------------------------------------------------------------

  lemma FlightOkKept(s: State, t: State, f: Flight)
    requires Follows(s, t) && FlightOk(s, f)
    ensures FlightOk(t, f)
  {
    assert Carried(s.store, t.store, f.expected);
    assert Grown(s.store, t.store, f.key);
  }

  lemma TaskOkKept(s: State, t: State, task: Task)
    requires Follows(s, t) && TaskOk(s, task)
    ensures TaskOk(t, task)
  {
    match task
    case Resolver(_, _, _, _, Verifying(seen, _, _)) => assert Carried(s.store, t.store, seen);
    case Resolver(_, _, _, _, Replacing(seen, _, _)) => assert Carried(s.store, t.store, seen);
    case Resolver(_, _, _, _, Answered(Envelope(_, v, _))) => assert Carried(s.store, t.store, v);
    case Recovery(_, _, rejected, _, _) => assert Carried(s.store, t.store, rejected);
    case _ =>
  }

  lemma AllFlightsKept(s: State, t: State)
    requires Inv(s) && Follows(s, t) && t.flights == s.flights
    ensures forall i: nat {:trigger FlightOkAt(t, i)} :: FlightOkAt(t, i)
  {
    forall i: nat ensures FlightOkAt(t, i) {
      assert FlightOkAt(s, i);
      if i < |s.flights| { FlightOkKept(s, t, s.flights[i]); }
    }
  }

  lemma AllTasksKept(s: State, t: State)
    requires Inv(s) && Follows(s, t) && t.tasks == s.tasks
    ensures forall i: nat {:trigger TaskOkAt(t, i)} :: TaskOkAt(t, i)
  {
    forall i: nat ensures TaskOkAt(t, i) {
      assert TaskOkAt(s, i);
      if i < |s.tasks| { TaskOkKept(s, t, s.tasks[i]); }
    }
  }

  /** A change of the shared store and ledgers alone. */
  lemma WorldKeeps(s: State, t: State)
    requires Inv(s) && StoreInv(t.store) && HistoryOk(t) && Follows(s, t) && CommitsOk(t)
    requires t.flights == s.flights && t.tasks == s.tasks && t.registry == s.registry
    ensures Inv(t)
  {
    AllFlightsKept(s, t);
    AllTasksKept(s, t);
    forall k ensures EntryOk(t, k) { assert EntryOk(s, k); }
    forall i: nat ensures Registered(t, i) { assert Registered(s, i); }
  }

  lemma SameStoreFollows(s: State, t: State)
    requires t.store == s.store && s.minted <= t.minted && s.verified <= t.verified
    requires |s.flights| <= |t.flights| && s.commits <= t.commits
    ensures Follows(s, t)
  {
    forall v ensures Carried(s.store, t.store, v) { }
    forall k ensures Grown(s.store, t.store, k) { }
  }

  function UpdateFlight(s: State, i: nat, f: Flight): State
    requires i < |s.flights|
  {
    s.(flights := s.flights[i := f])
  }

  /** One flight moves; it may finish but not come back. */
  lemma UpdateFlightKeeps(s: State, i: nat, f: Flight)
    requires Inv(s) && i < |s.flights| && FlightOk(s, f)
    requires f.owner == s.flights[i].owner && f.key == s.flights[i].key
    requires s.flights[i].pc.Finished? ==> f.pc.Finished?
    ensures Inv(UpdateFlight(s, i, f)) && Follows(s, UpdateFlight(s, i, f))
  {
    var u := UpdateFlight(s, i, f);
    SameStoreFollows(s, u);
    LedgersGrow(s, u);
    CommitsKept(s, u);
    AllTasksKept(s, u);
    forall j: nat ensures FlightOkAt(u, j) && Registered(u, j) {
      assert FlightOkAt(s, j) && Registered(s, j) && Registered(s, i);
      if j < |s.flights| { FlightOkKept(s, u, if j == i then f else s.flights[j]); }
    }
    forall k ensures EntryOk(u, k) { assert EntryOk(s, k); }
  }

  /** A change of the shared state, then a move of one flight. */
  lemma WorldThenFlight(s: State, t: State, i: nat, f: Flight)
    requires Inv(s) && StoreInv(t.store) && HistoryOk(t) && Follows(s, t) && CommitsOk(t)
    requires t.flights == s.flights && t.tasks == s.tasks && t.registry == s.registry
    requires i < |s.flights| && FlightOk(t, f)
    requires f.owner == s.flights[i].owner && f.key == s.flights[i].key && !s.flights[i].pc.Finished?
    ensures Inv(UpdateFlight(t, i, f)) && Follows(s, UpdateFlight(t, i, f))
  {
    WorldKeeps(s, t);
    UpdateFlightKeeps(t, i, f);
    FollowsTransitive(s, t, UpdateFlight(t, i, f));
  }

  /** A change of the shared state, then a move of one task. */
  lemma WorldThenTask(s: State, t: State, i: nat, task: Task)
    requires Inv(s) && StoreInv(t.store) && HistoryOk(t) && Follows(s, t) && CommitsOk(t)
    requires t.flights == s.flights && t.tasks == s.tasks && t.registry == s.registry
    requires i < |s.tasks| && TaskOk(t, task)
    ensures Inv(SetTask(t, i, task)) && Follows(s, SetTask(t, i, task))
  {
    WorldKeeps(s, t);
    SetTaskKeeps(t, i, task);
    FollowsTransitive(s, t, SetTask(t, i, task));
  }

  lemma FollowsTransitive(s: State, t: State, u: State)
    requires StoreInv(s.store) && StoreInv(t.store) && StoreInv(u.store) && Follows(s, t) && Follows(t, u)
    ensures Follows(s, u)
  {
    ExtendsTransitive(s.store, t.store, u.store);
  }

  lemma CommitsKept(s: State, t: State)
    requires CommitsOk(s) && Extends(s.store, t.store) && t.commits == s.commits
    ensures CommitsOk(t)
  {
    forall i: nat ensures CommitOk(t, i) {
      assert CommitOk(s, i);
      if i < |s.commits| { assert Carried(s.store, t.store, s.commits[i].version); }
    }
    forall i: nat, j: nat ensures CommitsGrow(t, i, j) { assert CommitsGrow(s, i, j); }
  }

  /** Writing a sound payload keeps the history sound. */
  lemma WriteSound(s: State, t: State, key: Key, row: Row)
    requires HistoryOk(s)
    requires s.minted <= t.minted && s.verified <= t.verified
    requires t.store.history == s.store.history[VersionOf(key, row) := Content(row.sealed, row.expiresAt)]
    requires ContentOk(t.minted, t.verified, VersionOf(key, row), Content(row.sealed, row.expiresAt))
    ensures HistoryOk(t)
  {
    forall v ensures HistoryOkAt(t, v) { assert HistoryOkAt(s, v); }
  }

  lemma LedgersGrow(s: State, t: State)
    requires HistoryOk(s) && s.minted <= t.minted && s.verified <= t.verified
    requires t.store.history == s.store.history
    ensures HistoryOk(t)
  {
    forall v ensures HistoryOkAt(t, v) { assert HistoryOkAt(s, v); }
  }

  // ---------------------------------------------------------------------------
  // Event by event
  // ---------------------------------------------------------------------------

  lemma ClaimStep(s: State, i: nat, now: int, until: int, reply: Reply)
    requires Inv(s) && Enabled(s, FlightClaim(i, now, until, reply))
    ensures var t := StepClaim(s, i, now, until, reply); Inv(t) && Follows(s, t)
  {
    var f := s.flights[i];
    assert FlightOkAt(s, i);
    var t := s.(store := if reply.LostBefore? then s.store
                         else Claim(s.store, f.key, f.expected.rotationSeq, f.owner, until, now));
    var g := StepClaim(s, i, now, until, reply).flights[i];
    ClaimExtends(s.store, f.key, f.expected.rotationSeq, f.owner, until, now);
    LedgersGrow(s, t);
    CommitsKept(s, t);
    FlightOkKept(s, t, f);
    assert RowOk(s.store, f.key);
    if f.key in s.store.rows { assert VersionOk(s.store, VersionOf(f.key, s.store.rows[f.key])); }
    WorldThenFlight(s, t, i, g);
    assert StepClaim(s, i, now, until, reply) == UpdateFlight(t, i, g);
  }

  lemma RefreshStep(s: State, i: nat, answer: ProviderReply)
    requires Inv(s) && Enabled(s, FlightRefresh(i, answer))
    ensures var t := StepRefresh(s, i, answer); Inv(t) && Follows(s, t)
  {
    var f := s.flights[i];
    assert FlightOkAt(s, i);
    var u := StepRefresh(s, i, answer);
    var t := s.(minted := u.minted, verified := u.verified);
    SameStoreFollows(s, t);
    LedgersGrow(s, t);
    CommitsKept(s, t);
    FlightOkKept(s, t, f);
    WorldThenFlight(s, t, i, u.flights[i]);
    assert u == UpdateFlight(t, i, u.flights[i]);
  }

  lemma CompleteStep(s: State, i: nat, now: int, reply: Reply)
    requires Inv(s) && Enabled(s, FlightComplete(i, now, reply))
    ensures var t := StepComplete(s, i, now, reply); Inv(t) && Follows(s, t)
  {
    var f := s.flights[i];
    assert FlightOkAt(s, i);
    var u := StepComplete(s, i, now, reply);
    var t := s.(store := u.store, commits := u.commits);
    if !reply.LostBefore? && Holds(s.store, f.key, f.expected.rotationSeq, f.owner, f.leaseId, now) {
      CommitKeeps(s, t, i, f);
    } else {
      SameStoreFollows(s, t);
      LedgersGrow(s, t);
      CommitsKept(s, t);
    }
    FlightOkKept(s, t, f);
    WorldThenFlight(s, t, i, u.flights[i]);
    assert u == UpdateFlight(t, i, u.flights[i]);
  }

  /** The store half of a commit: the payload is sound and the version committed over is gone. */
  lemma CommitKeeps(s: State, t: State, i: nat, f: Flight)
    requires Inv(s) && FlightOk(s, f) && f.pc.Completing? && f.key in s.store.rows
    requires t == s.(store := Write(s.store, f.key, Rotated(s.store.rows[f.key], Sealed(f.key, f.pc.next),
             Some(f.pc.expiresAt))),
                     commits := s.commits + [Commit(i, VersionOf(f.key, s.store.rows[f.key]))])
    ensures StoreInv(t.store) && HistoryOk(t) && Follows(s, t) && CommitsOk(t)
  {
    var row := s.store.rows[f.key];
    var sealed := Sealed(f.key, f.pc.next);
    RotateExtends(s.store, f.key, sealed, Some(f.pc.expiresAt));
    WriteSound(s, t, f.key, Rotated(row, sealed, Some(f.pc.expiresAt)));
    assert RowOk(s.store, f.key);
    assert Carried(s.store, t.store, VersionOf(f.key, row));
    forall j: nat ensures CommitOk(t, j) {
      assert CommitOk(s, j);
      if j < |s.commits| { assert Carried(s.store, t.store, s.commits[j].version); }
    }
    forall j: nat, k: nat ensures CommitsGrow(t, j, k) {
      assert CommitsGrow(s, j, k) && CommitOk(s, j);
      if j < |s.commits| { assert VersionOk(s.store, s.commits[j].version); }
    }
  }

  lemma ReleaseStep(s: State, i: nat, now: int, reply: Reply)
    requires Inv(s) && Enabled(s, FlightRelease(i, now, reply))
    ensures var t := StepRelease(s, i, now, reply); Inv(t) && Follows(s, t)
  {
    var f := s.flights[i];
    assert FlightOkAt(s, i);
    var u := StepRelease(s, i, now, reply);
    if reply.LostBefore? {
      UpdateFlightKeeps(s, i, f.(pc := Finished(Some(OtherError))));
    } else {
      var t := s.(store := Release(s.store, f.key, f.expected.rotationSeq, f.owner, f.leaseId, now));
      ReleaseExtends(s.store, f.key, f.expected.rotationSeq, f.owner, f.leaseId, now);
      assert t.store.history == s.store.history;
      LedgersGrow(s, t);
      CommitsKept(s, t);
      FlightOkKept(s, t, f);
      assert FlightOk(t, u.flights[i]);
      WorldThenFlight(s, t, i, u.flights[i]);
      assert u == UpdateFlight(t, i, u.flights[i]);
    }
  }

  lemma DeleteStep(s: State, i: nat, reply: Reply)
    requires Inv(s) && Enabled(s, FlightDelete(i, reply))
    ensures var t := StepDelete(s, i, reply); Inv(t) && Follows(s, t)
  {
    var f := s.flights[i];
    assert FlightOkAt(s, i);
    var u := StepDelete(s, i, reply);
    var t := s.(store := u.store);
    DeleteExtends(s.store, f.key, f.expected.rotationSeq);
    LedgersGrow(s, t);
    CommitsKept(s, t);
    FlightOkKept(s, t, f);
    WorldThenFlight(s, t, i, u.flights[i]);
    assert u == UpdateFlight(t, i, u.flights[i]);
  }

  lemma PollStep(s: State, i: nat, now: int, timedOut: bool)
    requires Inv(s) && Enabled(s, FlightPoll(i, now, timedOut))
    ensures var t := StepPoll(s, i, now, timedOut); Inv(t) && Follows(s, t)
  {
    var u := StepPoll(s, i, now, timedOut);
    assert FlightOkAt(s, i);
    UpdateFlightKeeps(s, i, u.flights[i]);
    assert u == UpdateFlight(s, i, u.flights[i]);
  }

  lemma ForgetStep(s: State, i: nat)
    requires Inv(s) && Enabled(s, FlightForget(i))
    ensures Inv(StepForget(s, i)) && Follows(s, StepForget(s, i))
  {
    var t := StepForget(s, i);
    SameStoreFollows(s, t);
    LedgersGrow(s, t);
    CommitsKept(s, t);
    AllFlightsKept(s, t);
    AllTasksKept(s, t);
    forall k ensures EntryOk(t, k) { assert EntryOk(s, k); }
    forall j: nat ensures Registered(t, j) { assert Registered(s, j); }
  }

  /** A flight that a task joins is the registered one, and a new one starts sound. */
  lemma JoinKeeps(s: State, owner: nat, seen: Version, payload: Payload)
    requires Inv(s) && seen in s.store.history
    ensures var (t, flight) := Join(s, owner, seen, payload);
            Inv(t) && Follows(s, t) && flight < |t.flights| && t.tasks == s.tasks && t.store == s.store
  {
    var (t, _) := Join(s, owner, seen, payload);
    SameStoreFollows(s, t);
    LedgersGrow(s, t);
    CommitsKept(s, t);
    AllTasksKept(s, t);
    assert EntryOk(s, (owner, seen.key));
    forall k ensures EntryOk(t, k) { assert EntryOk(s, k); }
    forall j: nat ensures FlightOkAt(t, j) && Registered(t, j) {
      assert FlightOkAt(s, j) && Registered(s, j);
      if j < |s.flights| { FlightOkKept(s, t, s.flights[j]); }
    }
  }

  lemma SetTaskKeeps(s: State, i: nat, task: Task)
    requires Inv(s) && i < |s.tasks| && TaskOk(s, task)
    ensures Inv(SetTask(s, i, task)) && Follows(s, SetTask(s, i, task))
  {
    var u := SetTask(s, i, task);
    SameStoreFollows(s, u);
    WorldUnchanged(s, u);
    forall j: nat ensures TaskOkAt(u, j) {
      assert TaskOkAt(s, j);
      if j < |s.tasks| { TaskOkKept(s, u, if j == i then task else s.tasks[j]); }
    }
  }

  lemma AddTaskKeeps(s: State, task: Task)
    requires Inv(s) && TaskOk(s, task)
    ensures var u := s.(tasks := s.tasks + [task]); Inv(u) && Follows(s, u)
  {
    var u := s.(tasks := s.tasks + [task]);
    SameStoreFollows(s, u);
    WorldUnchanged(s, u);
    forall j: nat ensures TaskOkAt(u, j) {
      assert TaskOkAt(s, j);
      if j <= |s.tasks| { TaskOkKept(s, u, if j == |s.tasks| then task else s.tasks[j]); }
    }
  }

  lemma WorldUnchanged(s: State, t: State)
    requires Inv(s) && t == s.(tasks := t.tasks) && Follows(s, t)
    ensures HistoryOk(t) && CommitsOk(t) && RegistryOk(t)
    ensures forall i: nat {:trigger FlightOkAt(t, i)} :: FlightOkAt(t, i)
  {
    LedgersGrow(s, t);
    CommitsKept(s, t);
    AllFlightsKept(s, t);
    forall k ensures EntryOk(t, k) { assert EntryOk(s, k); }
    forall j: nat ensures Registered(t, j) { assert Registered(s, j); }
  }

  lemma JudgeKeeps(s: State, i: nat, seen: Version, payload: Payload, expiresAt: Option<int>, now: int)
    requires Inv(s) && i < |s.tasks| && s.tasks[i].Resolver? && s.tasks[i].awaits < s.tasks[i].passes
    requires payload.Active? && Stored(s, s.tasks[i].key, seen, payload, expiresAt)
    ensures var t := Judge(s, i, seen, payload, expiresAt, now); Inv(t) && Follows(s, t)
  {
    var task := s.tasks[i];
    assert TaskOkAt(s, i);
    assert HistoryOkAt(s, seen);
    if !ExpiringSoon(expiresAt, now) {
      SetTaskKeeps(s, i, task.(state := Answered(Envelope(payload.token, seen, now))));
    } else if payload.refreshToken.None? {
      SetTaskKeeps(s, i, task.(state := Answered(Rejected(InteractionRequired))));
    } else if task.passes >= MAX_RESOLUTION_ATTEMPTS {
      SetTaskKeeps(s, i, task.(state := Answered(Rejected(ProviderUnavailable))));
    } else {
      JoinKeeps(s, task.owner, seen, payload);
      var (joined, flight) := Join(s, task.owner, seen, payload);
      SetTaskKeeps(joined, i, task.(awaits := task.awaits + 1, state := Awaiting(flight)));
    }
  }

  lemma ReadStep(s: State, i: nat, now: int)
    requires Inv(s) && Enabled(s, ResolverRead(i, now))
    ensures var t := StepRead(s, i, now); Inv(t) && Follows(s, t)
  {
    var task := s.tasks[i];
    assert TaskOkAt(s, i);
    if task.key in s.store.rows {
      var row := s.store.rows[task.key];
      var v := VersionOf(task.key, row);
      assert RowOk(s.store, task.key) && HistoryOkAt(s, v);
      match Open(row.sealed, task.key)
      case None => SetTaskKeeps(s, i, task.(state := Answered(Rejected(ConfigurationInvalid))));
      case Some(payload) =>
        if payload.Pending? {
          SetTaskKeeps(s, i, task.(state := Verifying(v, payload, row.expiresAt)));
        } else {
          JudgeKeeps(s, i, v, payload, row.expiresAt, now);
        }
    } else {
      SetTaskKeeps(s, i, task.(state := Answered(Rejected(InteractionRequired))));
    }
  }

  lemma VerifyStep(s: State, i: nat, verdict: Verdict)
    requires Inv(s) && Enabled(s, ResolverVerify(i, verdict))
    ensures var t := StepVerify(s, i, verdict); Inv(t) && Follows(s, t)
  {
    var u := StepVerify(s, i, verdict);
    var t := s.(verified := u.verified);
    assert TaskOkAt(s, i);
    SameStoreFollows(s, t);
    LedgersGrow(s, t);
    CommitsKept(s, t);
    TaskOkKept(s, t, s.tasks[i]);
    WorldThenTask(s, t, i, u.tasks[i]);
    assert u == SetTask(t, i, u.tasks[i]);
  }

  lemma ReplaceStep(s: State, i: nat, now: int)
    requires Inv(s) && Enabled(s, ResolverReplace(i, now))
    ensures var t := StepReplace(s, i, now); Inv(t) && Follows(s, t)
  {
    var task := s.tasks[i];
    assert TaskOkAt(s, i);
    var Replacing(seen, active, expiresAt) := task.state;
    if Matches(s.store, task.key, seen.rotationSeq) {
      var row := Rotated(s.store.rows[task.key], Sealed(task.key, active), expiresAt);
      var r := s.(store := Write(s.store, task.key, row));
      RotateExtends(s.store, task.key, Sealed(task.key, active), expiresAt);
      WriteSound(s, r, task.key, row);
      CommitsKept(s, r);
      WorldKeeps(s, r);
      TaskOkKept(s, r, task);
      JudgeKeeps(r, i, VersionOf(task.key, row), active, expiresAt, now);
      FollowsTransitive(s, r, StepReplace(s, i, now));
    } else if task.passes >= MAX_RESOLUTION_ATTEMPTS {
      SetTaskKeeps(s, i, task.(state := Answered(Rejected(RetryRequired))));
    } else {
      SetTaskKeeps(s, i, task.(passes := task.passes + 1, state := Reading));
    }
  }

  lemma WakeStep(s: State, i: nat)
    requires Inv(s) && Enabled(s, ResolverWake(i))
    ensures Inv(StepWake(s, i)) && Follows(s, StepWake(s, i))
  {
    var task := s.tasks[i];
    assert TaskOkAt(s, i);
    match s.flights[task.state.flight].pc.outcome
    case None => SetTaskKeeps(s, i, task.(passes := task.passes + 1, state := Reading));
    case Some(e) => SetTaskKeeps(s, i, task.(state := Answered(Rejected(FailureOf(e)))));
  }

  lemma StartRecoveryStep(s: State, owner: nat, answered: nat, attempt: nat)
    requires Inv(s) && CanRecover(s, answered, attempt)
    ensures var t := StepStartRecovery(s, owner, answered, attempt); Inv(t) && Follows(s, t)
  {
    var task := s.tasks[answered];
    assert TaskOkAt(s, answered);
    var key := task.key.(revision := s.revisions[task.key.connection]);
    AddTaskKeeps(s, Recovery(owner, key, task.state.resolution.version, attempt,
                             if key != task.key then GiveUp(RetryRequired) else Checking));
  }

  lemma RecoveryReadStep(s: State, i: nat)
    requires Inv(s) && Enabled(s, RecoveryRead(i))
    ensures Inv(StepRecoveryRead(s, i)) && Follows(s, StepRecoveryRead(s, i))
  {
    var task := s.tasks[i];
    assert TaskOkAt(s, i);
    var t := StepRecoveryRead(s, i);
    if t.tasks[i].step.Joined? {
      assert RowOk(s.store, task.key);
      RecoveryJoins(s, i, VersionOf(task.key, s.store.rows[task.key]),
          Open(s.store.rows[task.key].sealed, task.key).value);
    } else {
      SetTaskKeeps(s, i, t.tasks[i]);
      assert t == SetTask(s, i, t.tasks[i]);
    }
  }

  /** A first recovery attempt waits for a refresh. */
  lemma RecoveryJoins(s: State, i: nat, seen: Version, payload: Payload)
    requires Inv(s) && Enabled(s, RecoveryRead(i)) && s.tasks[i].attempt == 0 && seen in s.store.history
    ensures var (joined, flight) := Join(s, s.tasks[i].owner, seen, payload);
            Inv(Settle(joined, i, Joined(flight))) && Follows(s, Settle(joined, i, Joined(flight)))
  {
    var task := s.tasks[i];
    assert TaskOkAt(s, i);
    JoinKeeps(s, task.owner, seen, payload);
    var (joined, flight) := Join(s, task.owner, seen, payload);
    TaskOkKept(s, joined, task);
    SetTaskKeeps(joined, i, task.(step := Joined(flight)));
    FollowsTransitive(s, joined, Settle(joined, i, Joined(flight)));
  }

  lemma RecoveryDeleteStep(s: State, i: nat)
    requires Inv(s) && Enabled(s, RecoveryDelete(i))
    ensures Inv(StepRecoveryDelete(s, i)) && Follows(s, StepRecoveryDelete(s, i))
  {
    var task := s.tasks[i];
    assert TaskOkAt(s, i);
    var u := StepRecoveryDelete(s, i);
    var t := s.(store := u.store);
    DeleteExtends(s.store, task.key, task.rejected.rotationSeq);
    LedgersGrow(s, t);
    CommitsKept(s, t);
    TaskOkKept(s, t, task);
    WorldThenTask(s, t, i, u.tasks[i]);
    assert u == SetTask(t, i, u.tasks[i]);
  }

  lemma RecoveryWakeStep(s: State, i: nat)
    requires Inv(s) && Enabled(s, RecoveryWake(i))
    ensures Inv(StepRecoveryWake(s, i)) && Follows(s, StepRecoveryWake(s, i))
  {
    assert TaskOkAt(s, i);
    SetTaskKeeps(s, i, StepRecoveryWake(s, i).tasks[i]);
  }

  lemma ExchangeStep(s: State, i: nat, answer: ProviderReply)
    requires Inv(s) && Enabled(s, CallbackExchange(i, answer))
    ensures Inv(StepExchange(s, i, answer)) && Follows(s, StepExchange(s, i, answer))
  {
    var u := StepExchange(s, i, answer);
    var t := s.(minted := u.minted, verified := u.verified);
    assert TaskOkAt(s, i);
    SameStoreFollows(s, t);
    LedgersGrow(s, t);
    CommitsKept(s, t);
    WorldThenTask(s, t, i, u.tasks[i]);
    assert u == SetTask(t, i, u.tasks[i]);
  }

  lemma StoreStep(s: State, i: nat)
    requires Inv(s) && Enabled(s, CallbackStore(i))
    ensures Inv(StepStore(s, i)) && Follows(s, StepStore(s, i))
  {
    var task := s.tasks[i];
    assert TaskOkAt(s, i);
    var u := StepStore(s, i);
    var t := s.(store := u.store);
    PutSound(s, t, task.key, task.phase.payload, task.phase.expiresAt);
    CommitsKept(s, t);
    assert TaskOk(t, u.tasks[i]);
    WorldThenTask(s, t, i, u.tasks[i]);
    assert u == SetTask(t, i, u.tasks[i]);
  }

  /** The store half of a callback. */
  lemma PutSound(s: State, t: State, key: Key, p: Payload, expiresAt: int)
    requires StoreInv(s.store) && HistoryOk(s) && PayloadOk(s.minted, s.verified, key, p)
    requires t == s.(store := Put(s.store, key, Sealed(key, p), Some(expiresAt)))
    ensures StoreInv(t.store) && HistoryOk(t) && Follows(s, t)
  {
    PutExtends(s.store, key, Sealed(key, p), Some(expiresAt));
    WriteSound(s, t, key, t.store.rows[key]);
  }

  lemma AppliedKeeps(s: State, i: nat, u: Task)
    requires Inv(s) && AwaitsStore(s, i)
    requires u == if s.tasks[i].Resolver? then s.tasks[i].(state := Answered(Rejected(ProviderUnavailable)))
             else Abandoned
    ensures var t := s.(store := Called(s.store, s.tasks[i]));
            Inv(SetTask(t, i, u)) && Follows(s, SetTask(t, i, u))
  {
    var task := s.tasks[i];
    assert TaskOkAt(s, i);
    var t := s.(store := Called(s.store, task));
    CallSound(s, t, i);
    CommitsKept(s, t);
    TaskOkKept(s, t, task);
    assert TaskOk(t, u);
    WorldThenTask(s, t, i, u);
  }

  /** The store half of a task's call. */
  lemma CallSound(s: State, t: State, i: nat)
    requires Inv(s) && AwaitsStore(s, i) && t == s.(store := Called(s.store, s.tasks[i]))
    ensures StoreInv(t.store) && HistoryOk(t) && Follows(s, t)
  {
    var task := s.tasks[i];
    assert TaskOkAt(s, i);
    match task {
      case Resolver(_, key, _, _, Replacing(seen, active, expiresAt)) =>
        if Matches(s.store, key, seen.rotationSeq) {
          RotateExtends(s.store, key, Sealed(key, active), expiresAt);
          WriteSound(s, t, key, Rotated(s.store.rows[key], Sealed(key, active), expiresAt));
        } else {
          SameStoreFollows(s, t);
        }
      case Recovery(_, key, rejected, _, _) =>
        DeleteExtends(s.store, key, rejected.rotationSeq);
        LedgersGrow(s, t);
      case Callback(key, Storing(payload, expiresAt)) =>
        PutSound(s, t, key, payload, expiresAt);
    }
  }

  lemma LoseStep(s: State, i: nat, applied: bool)
    requires Inv(s) && Enabled(s, LoseReply(i, applied))
    ensures Inv(StepLose(s, i, applied)) && Follows(s, StepLose(s, i, applied))
  {
    var u := StepLose(s, i, applied).tasks[i];
    assert TaskOkAt(s, i);
    if applied { AppliedKeeps(s, i, u); } else { SetTaskKeeps(s, i, u); }
  }

  lemma SweepStep(s: State, connection: string, revision: nat)
    requires Inv(s)
    ensures var t := s.(store := DeleteStale(s.store, connection, revision)); Inv(t) && Follows(s, t)
  {
    var t := s.(store := DeleteStale(s.store, connection, revision));
    DeleteStaleExtends(s.store, connection, revision);
    LedgersGrow(s, t);
    CommitsKept(s, t);
    WorldKeeps(s, t);
  }

  lemma ChangeConfigStep(s: State, connection: string)
    requires Inv(s) && connection in s.revisions
    ensures var t := s.(revisions := s.revisions[connection := s.revisions[connection] + 1]); Inv(t) && Follows(s, t)
  {
    var t := s.(revisions := s.revisions[connection := s.revisions[connection] + 1]);
    SameStoreFollows(s, t);
    LedgersGrow(s, t);
    CommitsKept(s, t);
    WorldKeeps(s, t);
  }

  lemma FlightEventKeeps(s: State, e: Event)
    requires Inv(s) && Enabled(s, e)
    requires IsFlightEvent(e)
    ensures Inv(Step(s, e)) && Follows(s, Step(s, e))
  {
    match e
    case FlightClaim(i, now, until, reply) => ClaimStep(s, i, now, until, reply);
    case FlightRefresh(i, answer) => RefreshStep(s, i, answer);
    case FlightComplete(i, now, reply) => CompleteStep(s, i, now, reply);
    case FlightRelease(i, now, reply) => ReleaseStep(s, i, now, reply);
    case FlightDelete(i, reply) => DeleteStep(s, i, reply);
    case FlightPoll(i, now, timedOut) => PollStep(s, i, now, timedOut);
    case FlightForget(i) => ForgetStep(s, i);
  }

  lemma ResolverEventKeeps(s: State, e: Event)
    requires Inv(s) && Enabled(s, e)
    requires IsResolverEvent(e)
    ensures Inv(Step(s, e)) && Follows(s, Step(s, e))
  {
    match e
    case StartResolve(owner, c, principal) =>
      AddTaskKeeps(s, Resolver(owner, Key(c, s.revisions[c], principal), 1, 0, Reading));
    case ResolverRead(i, now) => ReadStep(s, i, now);
    case ResolverVerify(i, verdict) => VerifyStep(s, i, verdict);
    case ResolverReplace(i, now) => ReplaceStep(s, i, now);
    case ResolverWake(i) => WakeStep(s, i);
  }

  lemma RecoveryEventKeeps(s: State, e: Event)
    requires Inv(s) && Enabled(s, e)
    requires IsRecoveryEvent(e)
    ensures Inv(Step(s, e)) && Follows(s, Step(s, e))
  {
    match e
    case StartRecovery(owner, answered, attempt) => StartRecoveryStep(s, owner, answered, attempt);
    case RecoveryRead(i) => RecoveryReadStep(s, i);
    case RecoveryDelete(i) => RecoveryDeleteStep(s, i);
    case RecoveryWake(i) => RecoveryWakeStep(s, i);
  }

  lemma CallbackEventKeeps(s: State, e: Event)
    requires Inv(s) && Enabled(s, e)
    requires IsCallbackEvent(e)
    ensures Inv(Step(s, e)) && Follows(s, Step(s, e))
  {
    match e
    case StartCallback(c, principal, revision) =>
      if c in s.revisions && s.revisions[c] == revision {
        AddTaskKeeps(s, Callback(Key(c, revision, principal), Exchanging));
      }
    case CallbackExchange(i, answer) => ExchangeStep(s, i, answer);
    case CallbackRecheck(i) =>
      assert TaskOkAt(s, i);
      SetTaskKeeps(s, i, StepRecheck(s, i).tasks[i]);
    case CallbackStore(i) => StoreStep(s, i);
  }

  predicate IsFlightEvent(e: Event) {
    || e.FlightClaim? || e.FlightRefresh? || e.FlightComplete? || e.FlightRelease? || e.FlightDelete?
    || e.FlightPoll? || e.FlightForget?
  }

  predicate IsResolverEvent(e: Event) {
    e.StartResolve? || e.ResolverRead? || e.ResolverVerify? || e.ResolverReplace? || e.ResolverWake?
  }

  predicate IsRecoveryEvent(e: Event) {
    e.StartRecovery? || e.RecoveryRead? || e.RecoveryDelete? || e.RecoveryWake?
  }

  predicate IsCallbackEvent(e: Event) {
    e.StartCallback? || e.CallbackExchange? || e.CallbackRecheck? || e.CallbackStore?
  }

  /** Every event keeps the invariant, and its state follows the one before. */
  lemma StepKeeps(s: State, e: Event)
    requires Inv(s)
    ensures Inv(Step(s, e)) && Follows(s, Step(s, e))
  {
    if !Enabled(s, e) { SameStoreFollows(s, s); }
    else if IsFlightEvent(e) { FlightEventKeeps(s, e); }
    else if IsResolverEvent(e) { ResolverEventKeeps(s, e); }
    else if IsRecoveryEvent(e) { RecoveryEventKeeps(s, e); }
    else if IsCallbackEvent(e) { CallbackEventKeeps(s, e); }
    else {
      match e
      case LoseReply(i, applied) => LoseStep(s, i, applied);
      case Abandon(i) => SetTaskKeeps(s, i, Abandoned);
      case ChangeConfig(c) => ChangeConfigStep(s, c);
      case SweepStale(c, revision) => SweepStep(s, c, revision);
    }
  }

  /** The whole run: the invariant holds at its end, and its end follows its start. */
  lemma {:induction false} RunKeeps(s: State, events: seq<Event>)
    requires Inv(s)
    ensures Inv(Run(s, events)) && Follows(s, Run(s, events))
    decreases |events|
  {
    if events == [] {
      SameStoreFollows(s, s);
    } else {
      StepKeeps(s, events[0]);
      RunKeeps(Step(s, events[0]), events[1..]);
      FollowsTransitive(s, Step(s, events[0]), Run(s, events));
    }
  }
}
