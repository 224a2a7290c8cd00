/** The runs that undisturbed resolutions make: a refresh, and the verification of a pending credential. */
module RefreshProgress {
  import opened Prelude
  import opened CredentialStore
  import opened RefreshProtocol

  // ---------------------------------------------------------------------------
  // Runs of a few events
  // ---------------------------------------------------------------------------

  lemma {:induction false} RunConcat(s: State, a: seq<Event>, b: seq<Event>)
    ensures Run(s, a + b) == Run(Run(s, a), b)
    decreases |a|
  {
    if a == [] {
      assert a + b == b;
    } else {
      assert (a + b)[1..] == a[1..] + b;
      RunConcat(Step(s, a[0]), a[1..], b);
    }
  }

  lemma RunTwo(s: State, a: Event, b: Event)
    ensures Run(s, [a, b]) == Step(Step(s, a), b)
  {
    assert [a, b][1..] == [b] && [b][1..] == [];
    assert Run(s, [a, b]) == Run(Step(s, a), [b]);
  }

  lemma RunThree(s: State, a: Event, b: Event, c: Event)
    ensures Run(s, [a, b, c]) == Step(Step(Step(s, a), b), c)
  {
    assert [a, b, c][1..] == [b, c];
    RunTwo(Step(s, a), b, c);
  }

  lemma RunFour(s: State, a: Event, b: Event, c: Event, d: Event)
    ensures Run(s, [a, b, c, d]) == Step(Step(Step(Step(s, a), b), c), d)
  {
    assert [a, b, c, d][1..] == [b, c, d];
    RunThree(Step(s, a), b, c, d);
  }

  /** The key's connection has the key's revision. */
  predicate Configured(s: State, key: Key) {
    key.connection in s.revisions && s.revisions[key.connection] == key.revision
  }

  /** The provider issues a token that the verifier accepts. */
  predicate Verified(answer: ProviderReply) {
    answer.Issued? && answer.verdict.Accepted?
  }

  /** The row that holds what the provider issued. */
  function RowFor(key: Key, answer: ProviderReply, rotation: nat, incarnation: nat): Row
    requires answer.Issued?
  {
    Row(Sealed(key, Active(answer.token, answer.refreshToken)), Some(answer.expiresAt), rotation, None, incarnation)
  }

  predicate Holding(s: State, key: Key, row: Row) {
    key in s.store.rows && s.store.rows[key] == row
  }

  // ---------------------------------------------------------------------------
  // One refresh
  // ---------------------------------------------------------------------------

  /** The claim at `t1` lasts until `until`; the completion is at `t2`. */
  function RefreshAt(f: nat, t1: int, until: int, answer: ProviderReply, t2: int): seq<Event> {
    [FlightClaim(f, t1, until, Delivered), FlightRefresh(f, answer), FlightComplete(f, t2, Delivered)]
  }

  /** No lease, or one that has run out. */
  predicate Free(row: Row, now: int) {
    row.lease.Some? ==> row.lease.value.until <= now
  }

  /** A flight about to claim the row that its version was read from. */
  predicate AboutToClaim(s: State, key: Key, f: nat, row: Row) {
    && FlightAt(s, f) && Holding(s, key, row)
    && s.flights[f].pc.Claiming? && s.flights[f].key == key
    && s.flights[f].expected == VersionOf(key, row) && s.flights[f].payload.refreshToken.Some?
  }

  /** The refresh claims the free row, is answered, and commits while its lease lasts. */
  lemma RefreshCommits(s: State, key: Key, f: nat, row: Row, t1: int, until: int, answer: ProviderReply, t2: int)
    requires AboutToClaim(s, key, f, row) && Free(row, t1) && Verified(answer) && t2 < until
    ensures var t := Run(s, RefreshAt(f, t1, until, answer, t2));
            && Holding(t, key, RowFor(key, answer, row.rotationSeq + 1, row.incarnation))
            && t.tasks == s.tasks && t.registry == s.registry && t.revisions == s.revisions
            && |t.flights| == |s.flights| && t.flights[f].pc == Finished(None)
            && t.store.births == s.store.births
            && (forall k | k != key :: k in t.store.rows <==> k in s.store.rows)
            && (forall k <- s.store.rows | k != key :: t.store.rows[k] == s.store.rows[k])
  {
    RunThree(s, FlightClaim(f, t1, until, Delivered), FlightRefresh(f, answer), FlightComplete(f, t2, Delivered));
    var a := Step(s, FlightClaim(f, t1, until, Delivered));
    assert a == StepClaim(s, f, t1, until, Delivered);
    assert a.flights[f].pc.Refreshing?;
    ClaimedCommits(a, key, f, row, until, answer, t2);
  }

  lemma ClaimedCommits(a: State, key: Key, f: nat, row: Row, until: int, answer: ProviderReply, t2: int)
    requires FlightAt(a, f) && a.flights[f].pc.Refreshing? && a.flights[f].key == key
    requires a.flights[f].expected == VersionOf(key, row) && a.flights[f].payload.refreshToken.Some?
    requires Verified(answer) && t2 < until
    requires Holding(a, key, row.(lease := Some(Lease(a.flights[f].owner, a.flights[f].leaseId, until))))
    ensures var t := Step(Step(a, FlightRefresh(f, answer)), FlightComplete(f, t2, Delivered));
            && Holding(t, key, RowFor(key, answer, row.rotationSeq + 1, row.incarnation))
            && t.tasks == a.tasks && t.registry == a.registry && t.revisions == a.revisions
            && |t.flights| == |a.flights| && t.flights[f].pc == Finished(None)
            && t.store.births == a.store.births
            && (forall k | k != key :: k in t.store.rows <==> k in a.store.rows)
            && (forall k <- a.store.rows | k != key :: t.store.rows[k] == a.store.rows[k])
  {
    var b := Step(a, FlightRefresh(f, answer));
    assert b == StepRefresh(a, f, answer);
    assert b.flights[f].pc == Completing(Active(answer.token, answer.refreshToken), answer.expiresAt);
    assert Step(b, FlightComplete(f, t2, Delivered)) == StepComplete(b, f, t2, Delivered);
  }

  // ---------------------------------------------------------------------------
  // A resolution that refreshes
  // ---------------------------------------------------------------------------

  predicate Expires(expiresAt: Option<int>, now: int) {
    expiresAt.Some? && expiresAt.value - now <= 30_000
  }

  /** An active, expiring credential with a refresh token, which nobody is refreshing. */
  predicate Refreshable(s: State, owner: nat, key: Key, row: Row, now: int) {
    && Configured(s, key) && Holding(s, key, row) && (owner, key) !in s.registry
    && (match Open(row.sealed, key) case Some(Active(_, refresh)) => refresh.Some? case _ => false)
    && Expires(row.expiresAt, now)
  }

  function Resolution(owner: nat, key: Key, n: nat, f: nat, now: int, t1: int, until: int, answer: ProviderReply,
                      t2: int, later: int): seq<Event>
  {
    [StartResolve(owner, key.connection, key.principal), ResolverRead(n, now)]
    + (RefreshAt(f, t1, until, answer, t2) + [ResolverWake(n), ResolverRead(n, later)])
  }

  /**
   From every state with a credential that is expiring, can be refreshed and has no live lease, an
   undisturbed resolution whose provider issues a verified token with time left stores that token,
   one sequence number up, and answers with it.
   */
  lemma RefreshAnswers(s: State, owner: nat, key: Key, row: Row, now: int, t1: int, until: int,
        answer: ProviderReply, t2: int, later: int)
    requires Refreshable(s, owner, key, row, now) && Free(row, t1) && t2 < until
    requires Verified(answer) && answer.expiresAt - later > 30_000
    ensures var n, f := |s.tasks|, |s.flights|;
            var t := Run(s, Resolution(owner, key, n, f, now, t1, until, answer, t2, later));
            && Holding(t, key, RowFor(key, answer, row.rotationSeq + 1, row.incarnation))
            && n < |t.tasks| && t.tasks[n].Resolver?
            && t.tasks[n].state
               == Answered(Envelope(answer.token, Version(key, row.incarnation, row.rotationSeq + 1), later))
  {
    var n, f := |s.tasks|, |s.flights|;
    var start, refresh := [StartResolve(owner, key.connection, key.principal), ResolverRead(n, now)],
                          RefreshAt(f, t1, until, answer, t2);
    var wake := [ResolverWake(n), ResolverRead(n, later)];
    RunConcat(s, start, refresh + wake);
    JoinsNew(s, owner, key, row, now);
    var a := Run(s, start);
    RunConcat(a, refresh, wake);
    RefreshCommits(a, key, f, row, t1, until, answer, t2);
    var b := Run(a, refresh);
    WakesAndAnswers(b, owner, key, n, f, RowFor(key, answer, row.rotationSeq + 1, row.incarnation), answer, later);
  }

  lemma JoinsNew(s: State, owner: nat, key: Key, row: Row, now: int)
    requires Refreshable(s, owner, key, row, now)
    ensures var n := |s.tasks|;
            var events := [StartResolve(owner, key.connection, key.principal), ResolverRead(n, now)];
            Joined(s, Run(s, events), owner, key, row)
  {
    var n := |s.tasks|;
    var start, read := StartResolve(owner, key.connection, key.principal), ResolverRead(n, now);
    StartsReading(s, owner, key);
    ReadsAndJoins(s, owner, key, row, now);
    RunVia(s, start, With(s, owner, key), read, Step(With(s, owner, key), read));
  }

  /** The resolution awaits a new flight, about to claim the row. */
  predicate Joined(s: State, t: State, owner: nat, key: Key, row: Row) {
    && AboutToClaim(t, key, |s.flights|, row)
    && t.tasks == s.tasks + [Resolver(owner, key, 1, 1, Awaiting(|s.flights|))]
  }

  lemma RunVia(s: State, a: Event, t: State, b: Event, u: State)
    requires Step(s, a) == t && Step(t, b) == u
    ensures Run(s, [a, b]) == u
  {
    RunTwo(s, a, b);
  }

  /** The state with a resolution of the key about to read. */
  function With(s: State, owner: nat, key: Key): State {
    s.(tasks := s.tasks + [Resolver(owner, key, 1, 0, Reading)])
  }

  lemma StartsReading(s: State, owner: nat, key: Key)
    requires Configured(s, key)
    ensures Step(s, StartResolve(owner, key.connection, key.principal)) == With(s, owner, key)
  {
    assert Step(s, StartResolve(owner, key.connection, key.principal))
        == StepStartResolve(s, owner, key.connection, key.principal);
  }

  lemma ReadsAndJoins(s: State, owner: nat, key: Key, row: Row, now: int)
    requires Refreshable(s, owner, key, row, now)
    ensures Joined(s, Step(With(s, owner, key), ResolverRead(|s.tasks|, now)), owner, key, row)
  {
    var n := |s.tasks|;
    var t := Step(With(s, owner, key), ResolverRead(n, now));
    assert t == StepRead(With(s, owner, key), n, now);
    assert t.store == s.store;
  }

  lemma WakesAndAnswers(s: State, owner: nat, key: Key, n: nat, f: nat, row: Row, answer: ProviderReply, later: int)
    requires n < |s.tasks| && s.tasks[n] == Resolver(owner, key, 1, 1, Awaiting(f))
    requires FlightAt(s, f) && s.flights[f].pc == Finished(None) && Holding(s, key, row)
    requires Verified(answer) && answer.expiresAt - later > 30_000
    requires row.sealed == Sealed(key, Active(answer.token, answer.refreshToken))
             && row.expiresAt == Some(answer.expiresAt)
    ensures var t := Run(s, [ResolverWake(n), ResolverRead(n, later)]);
            && Holding(t, key, row) && n < |t.tasks| && t.tasks[n].Resolver?
            && t.tasks[n].state == Answered(Envelope(answer.token, VersionOf(key, row), later))
  {
    RunTwo(s, ResolverWake(n), ResolverRead(n, later));
    var a := Step(s, ResolverWake(n));
    assert a == s.(tasks := s.tasks[n := Resolver(owner, key, 2, 1, Reading)]);
    assert Step(a, ResolverRead(n, later)) == StepRead(a, n, later);
  }

  // ---------------------------------------------------------------------------
  // A resolution that verifies
  // ---------------------------------------------------------------------------

  /**
   An undisturbed resolution of a credential that still awaits verification, whose verifier accepts it
   while it has time left, stores it as active, one sequence number up, and answers with it.
   */
  lemma VerificationAnswers(s: State, owner: nat, key: Key, row: Row, token: string, refresh: Option<string>,
        now: int, later: int)
    requires Configured(s, key) && Holding(s, key, row) && row.sealed == Sealed(key, Pending(token, refresh))
    requires !Expires(row.expiresAt, later)
    ensures var n := |s.tasks|;
            var t := Run(s, [StartResolve(owner, key.connection, key.principal), ResolverRead(n, now)]
                            + [ResolverVerify(n, Accepted), ResolverReplace(n, later)]);
            var sealed := Sealed(key, Active(token, refresh));
            var stored := Row(sealed, row.expiresAt, row.rotationSeq + 1, None, row.incarnation);
            && Holding(t, key, stored)
            && n < |t.tasks| && t.tasks[n].Resolver?
            && t.tasks[n].state == Answered(Envelope(token, VersionOf(key, stored), later))
  {
    var n, v := |s.tasks|, VersionOf(key, row);
    var first := [StartResolve(owner, key.connection, key.principal), ResolverRead(n, now)];
    RunConcat(s, first, [ResolverVerify(n, Accepted), ResolverReplace(n, later)]);
    RunTwo(s, first[0], first[1]);
    StartsReading(s, owner, key);
    var b := Step(With(s, owner, key), ResolverRead(n, now));
    assert b == StepRead(With(s, owner, key), n, now);
    var verifying := Verifying(v, Pending(token, refresh), row.expiresAt);
    assert b == s.(tasks := s.tasks + [Resolver(owner, key, 1, 0, verifying)]);
    VerifiedAnswers(b, owner, key, n, row, token, refresh, later);
  }

  lemma VerifiedAnswers(s: State, owner: nat, key: Key, n: nat, row: Row, token: string, refresh: Option<string>,
        later: int)
    requires n < |s.tasks| && Holding(s, key, row) && !Expires(row.expiresAt, later)
    requires s.tasks[n]
          == Resolver(owner, key, 1, 0, Verifying(VersionOf(key, row), Pending(token, refresh), row.expiresAt))
    ensures var t := Run(s, [ResolverVerify(n, Accepted), ResolverReplace(n, later)]);
            var sealed := Sealed(key, Active(token, refresh));
            var stored := Row(sealed, row.expiresAt, row.rotationSeq + 1, None, row.incarnation);
            && Holding(t, key, stored) && n < |t.tasks| && t.tasks[n].Resolver?
            && t.tasks[n].state == Answered(Envelope(token, VersionOf(key, stored), later))
  {
    RunTwo(s, ResolverVerify(n, Accepted), ResolverReplace(n, later));
    var a := Step(s, ResolverVerify(n, Accepted));
    assert a.store == s.store
        && a.tasks[n].state == Replacing(VersionOf(key, row), Active(token, refresh), row.expiresAt);
    assert Step(a, ResolverReplace(n, later)) == StepReplace(a, n, later);
  }
}
