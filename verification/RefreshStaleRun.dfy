/**
 Sequence numbers restart: a run that two ordinary requests make, at whose end the recovery of one
 deletes a credential that was stored after the rejected one.
 */
module RefreshStaleRun {
  import opened Prelude
  import opened CredentialStore
  import opened RefreshProtocol
  import opened RefreshInvariant
  import opened RefreshTheorems
  import opened RefreshProgress

  /** The provider issues a verified token with a refresh token and time left. */
  predicate Good(answer: ProviderReply) {
    answer.Issued? && answer.verdict.Accepted? && answer.refreshToken.Some? && answer.expiresAt > EXPIRY_MARGIN_MS
  }

  // ---------------------------------------------------------------------------
  // Signing in
  // ---------------------------------------------------------------------------

  /** The four events of a sign-in by callback task `i`. */
  function SignIn(key: Key, i: nat, answer: ProviderReply): seq<Event> {
    [StartCallback(key.connection, key.principal, key.revision),
     CallbackExchange(i, answer), CallbackRecheck(i), CallbackStore(i)]
  }

  predicate SignedIn(s: State, t: State, key: Key, answer: ProviderReply) {
    && answer.Issued?
    && t.store == Put(s.store, key, Sealed(key, Active(answer.token, answer.refreshToken)), Some(answer.expiresAt))
    && t.tasks == s.tasks + [Callback(key, Closed)]
    && t.revisions == s.revisions && t.flights == s.flights && t.registry == s.registry
  }

  lemma SignInStores(s: State, key: Key, answer: ProviderReply)
    requires Configured(s, key) && Good(answer)
    ensures SignedIn(s, Run(s, SignIn(key, |s.tasks|, answer)), key, answer)
  {
    var i := |s.tasks|;
    RunFour(s, StartCallback(key.connection, key.principal, key.revision),
            CallbackExchange(i, answer), CallbackRecheck(i), CallbackStore(i));
    var a := Step(s, StartCallback(key.connection, key.principal, key.revision));
    assert a == s.(tasks := s.tasks + [Callback(key, Exchanging)]);
    SignInTail(s, a, key, answer);
  }

  lemma SignInTail(s: State, a: State, key: Key, answer: ProviderReply)
    requires Configured(s, key) && Good(answer)
    requires a == s.(tasks := s.tasks + [Callback(key, Exchanging)])
    ensures var i := |s.tasks|;
            SignedIn(s, Step(Step(Step(a, CallbackExchange(i, answer)), CallbackRecheck(i)), CallbackStore(i)), key,
                answer)
  {
    var i := |s.tasks|;
    var payload := Active(answer.token, answer.refreshToken);
    var b := Step(a, CallbackExchange(i, answer));
    assert b.tasks == s.tasks + [Callback(key, Rechecking(payload, answer.expiresAt))];
    var c := Step(b, CallbackRecheck(i));
    assert c.tasks == s.tasks + [Callback(key, Storing(payload, answer.expiresAt))];
    assert Step(c, CallbackStore(i)).tasks == s.tasks + [Callback(key, Closed)];
  }

  // ---------------------------------------------------------------------------
  // Two requests side by side
  // ---------------------------------------------------------------------------

  /** Both resolve the stored credential; tasks `n` and `n + 1`. */
  function BothResolve(key: Key, n: nat): seq<Event> {
    [StartResolve(0, key.connection, key.principal), ResolverRead(n, 0),
     StartResolve(0, key.connection, key.principal), ResolverRead(n + 1, 0)]
  }

  function Resolved(key: Key, row: Row, token: string): Task {
    Resolver(0, key, 1, 0, Answered(Envelope(token, VersionOf(key, row), 0)))
  }

  lemma OneResolves(s: State, key: Key, answer: ProviderReply, row: Row)
    requires Configured(s, key) && Good(answer) && Holding(s, key, row)
    requires row.sealed == Sealed(key, Active(answer.token, answer.refreshToken))
             && row.expiresAt == Some(answer.expiresAt)
    ensures Step(Step(s, StartResolve(0, key.connection, key.principal)), ResolverRead(|s.tasks|, 0))
         == s.(tasks := s.tasks + [Resolved(key, row, answer.token)])
  {
    var a := Step(s, StartResolve(0, key.connection, key.principal));
    assert a == s.(tasks := s.tasks + [Resolver(0, key, 1, 0, Reading)]);
    assert Step(a, ResolverRead(|s.tasks|, 0)) == StepRead(a, |s.tasks|, 0);
  }

  lemma TwoResolve(s: State, key: Key, answer: ProviderReply, row: Row)
    requires Configured(s, key) && Good(answer) && Holding(s, key, row)
    requires row.sealed == Sealed(key, Active(answer.token, answer.refreshToken))
             && row.expiresAt == Some(answer.expiresAt)
    ensures Run(s, BothResolve(key, |s.tasks|))
         == s.(tasks := s.tasks + [Resolved(key, row, answer.token), Resolved(key, row, answer.token)])
  {
    var n := |s.tasks|;
    var start := StartResolve(0, key.connection, key.principal);
    RunFour(s, start, ResolverRead(n, 0), start, ResolverRead(n + 1, 0));
    OneResolves(s, key, answer, row);
    var t := s.(tasks := s.tasks + [Resolved(key, row, answer.token)]);
    OneResolves(t, key, answer, row);
    assert t.tasks + [Resolved(key, row, answer.token)]
        == s.tasks + [Resolved(key, row, answer.token), Resolved(key, row, answer.token)];
  }

  /** A 401 each: both start to recover from what tasks `i` and `i + 1` answered. */
  function BothRecover(i: nat, attempt: nat): seq<Event> {
    [StartRecovery(0, i, attempt), StartRecovery(0, i + 1, attempt)]
  }

  lemma OneRecovers(s: State, key: Key, i: nat, v: Version, token: string, attempt: nat)
    requires Configured(s, key) && attempt <= 1 && i < |s.tasks|
    requires s.tasks[i] == Resolver(0, key, 1, 0, Answered(Envelope(token, v, 0)))
    ensures Step(s, StartRecovery(0, i, attempt)) == s.(tasks := s.tasks + [Recovery(0, key, v, attempt, Checking)])
  {
  }

  lemma TwoRecover(s: State, key: Key, i: nat, v: Version, token: string, attempt: nat)
    requires Configured(s, key) && attempt <= 1 && i + 1 < |s.tasks|
    requires forall j | i <= j <= i + 1 :: s.tasks[j] == Resolver(0, key, 1, 0, Answered(Envelope(token, v, 0)))
    ensures Run(s, BothRecover(i, attempt))
         == s.(tasks := s.tasks + [Recovery(0, key, v, attempt, Checking), Recovery(0, key, v, attempt, Checking)])
  {
    RunTwo(s, StartRecovery(0, i, attempt), StartRecovery(0, i + 1, attempt));
    var r := Recovery(0, key, v, attempt, Checking);
    OneRecovers(s, key, i, v, token, attempt);
    OneRecovers(s.(tasks := s.tasks + [r]), key, i + 1, v, token, attempt);
    assert (s.tasks + [r]) + [r] == s.tasks + [r, r];
  }

  /** Attempt 0 of both: the first starts a refresh, the second joins it. */
  lemma TwoJoin(s: State, key: Key, i: nat, row: Row, payload: Payload)
    requires i + 1 < |s.tasks| && Holding(s, key, row) && (0, key) !in s.registry
    requires row.sealed == Sealed(key, payload) && payload.refreshToken.Some?
    requires forall j | i <= j <= i + 1 :: s.tasks[j] == Recovery(0, key, VersionOf(key, row), 0, Checking)
    ensures var flight := Flight(0, key, VersionOf(key, row), payload, 0, 0, Claiming);
            var joined := Recovery(0, key, VersionOf(key, row), 0, Joined(|s.flights|));
            Run(s, [RecoveryRead(i), RecoveryRead(i + 1)])
            == s.(flights := s.flights + [flight], registry := s.registry[(0, key) := |s.flights|],
                  tasks := s.tasks[i := joined][i + 1 := joined])
  {
    RunTwo(s, RecoveryRead(i), RecoveryRead(i + 1));
    var joined := Recovery(0, key, VersionOf(key, row), 0, Joined(|s.flights|));
    var flight := Flight(0, key, VersionOf(key, row), payload, 0, 0, Claiming);
    var a := Step(s, RecoveryRead(i));
    assert a == s.(flights := s.flights + [flight], registry := s.registry[(0, key) := |s.flights|],
                   tasks := s.tasks[i := joined]);
    assert Step(a, RecoveryRead(i + 1)) == a.(tasks := a.tasks[i + 1 := joined]);
  }

  function Refresh(f: nat, answer: ProviderReply): seq<Event> {
    RefreshAt(f, 0, 1, answer, 0)
  }

  lemma OneWakes(s: State, i: nat, f: nat)
    requires i < |s.tasks| && FlightAt(s, f) && s.flights[f].pc == Finished(None)
    requires s.tasks[i].Recovery? && s.tasks[i].step == Joined(f)
    ensures Step(s, RecoveryWake(i)) == s.(tasks := s.tasks[i := s.tasks[i].(step := Retry)])
  {
  }

  /** The refresh wakes both recoveries, which tell their requests to retry. */
  lemma TwoWake(s: State, i: nat, f: nat)
    requires i + 1 < |s.tasks| && FlightAt(s, f) && s.flights[f].pc == Finished(None)
    requires forall j | i <= j <= i + 1 :: s.tasks[j].Recovery? && s.tasks[j].step == Joined(f)
    ensures Run(s, [RecoveryWake(i), RecoveryWake(i + 1)])
         == s.(tasks := s.tasks[i := s.tasks[i].(step := Retry)][i + 1 := s.tasks[i + 1].(step := Retry)])
  {
    RunTwo(s, RecoveryWake(i), RecoveryWake(i + 1));
    OneWakes(s, i, f);
    OneWakes(s.(tasks := s.tasks[i := s.tasks[i].(step := Retry)]), i + 1, f);
  }

  /** A second attempt finds its version's number stored and deletes the row. */
  lemma Discards(s: State, key: Key, i: nat, row: Row, v: Version)
    requires i < |s.tasks| && s.tasks[i] == Recovery(0, key, v, 1, Checking)
    requires Holding(s, key, row) && row.rotationSeq == v.rotationSeq
    ensures var a := Step(s, RecoveryRead(i));
            && a == s.(tasks := s.tasks[i := Recovery(0, key, v, 1, Discarding)])
            && Enabled(a, RecoveryDelete(i))
            && Step(a, RecoveryDelete(i))
               == s.(store := Delete(s.store, key, v.rotationSeq),
                     tasks := s.tasks[i := Recovery(0, key, v, 1, GiveUp(InteractionRequired))])
  {
    var a := Step(s, RecoveryRead(i));
    assert a == s.(tasks := s.tasks[i := Recovery(0, key, v, 1, Discarding)]);
    assert a.tasks[i := Recovery(0, key, v, 1, GiveUp(InteractionRequired))]
        == s.tasks[i := Recovery(0, key, v, 1, GiveUp(InteractionRequired))];
  }

  // ---------------------------------------------------------------------------
  // The run
  // ---------------------------------------------------------------------------

  /** No credential yet. */
  function Empty(key: Key): State {
    State(Store(map[], 0, 0, map[]), map[key.connection := key.revision], {}, {}, [], map[], [], [])
  }

  lemma EmptyIsInitial(key: Key)
    ensures Init(Empty(key))
  {
    var s := Empty(key);
    forall k ensures RowOk(s.store, k) { }
    forall v ensures VersionOk(s.store, v) && HistoryOkAt(s, v) { }
  }

  /** The user signs in; two requests resolve, are rejected, and share one refresh. */
  function FirstRound(key: Key, first: ProviderReply, refreshed: ProviderReply): seq<Event> {
    SignIn(key, 0, first) + (BothResolve(key, 1) + (BothRecover(1, 0)
    + ([RecoveryRead(3), RecoveryRead(4)] + (Refresh(0, refreshed) + [RecoveryWake(3), RecoveryWake(4)]))))
  }

  /** Both resolve again and are rejected again; the first one's recovery deletes the credential. */
  function SecondRound(key: Key): seq<Event> {
    BothResolve(key, 5) + (BothRecover(5, 1) + [RecoveryRead(7), RecoveryDelete(7)])
  }

  /** The user signs in twice, and the second request's recovery looks at what is stored. */
  function ThirdRound(key: Key, again: ProviderReply, newer: ProviderReply): seq<Event> {
    SignIn(key, 9, again) + (SignIn(key, 10, newer) + [RecoveryRead(8)])
  }

  predicate AfterFirst(s: State, key: Key, refreshed: ProviderReply) {
    && Configured(s, key) && Good(refreshed) && |s.tasks| == 5
    && Holding(s, key, RowFor(key, refreshed, 1, 0)) && s.store.births == 1
  }

  lemma FirstRoundState(key: Key, first: ProviderReply, refreshed: ProviderReply)
    requires Good(first) && Good(refreshed)
    ensures AfterFirst(Run(Empty(key), FirstRound(key, first, refreshed)), key, refreshed)
  {
    var s0 := Empty(key);
    var wakes, looks := [RecoveryWake(3), RecoveryWake(4)], [RecoveryRead(3), RecoveryRead(4)];
    var after := looks + (Refresh(0, refreshed) + wakes);
    RunConcat(s0, SignIn(key, 0, first), BothResolve(key, 1) + (BothRecover(1, 0) + after));
    SignInStores(s0, key, first);
    var s1 := Run(s0, SignIn(key, 0, first));
    var row := RowFor(key, first, 0, 0);
    assert Holding(s1, key, row) && s1.store.births == 1;
    RunConcat(s1, BothResolve(key, 1), BothRecover(1, 0) + after);
    TwoResolve(s1, key, first, row);
    var s2 := Run(s1, BothResolve(key, 1));
    RunConcat(s2, BothRecover(1, 0), after);
    TwoRecover(s2, key, 1, VersionOf(key, row), first.token, 0);
    var s3 := Run(s2, BothRecover(1, 0));
    FirstRecovered(s3, key, row, first, refreshed);
  }

  lemma FirstRecovered(s: State, key: Key, row: Row, first: ProviderReply, refreshed: ProviderReply)
    requires Configured(s, key) && Good(first) && Good(refreshed) && |s.tasks| == 5 && s.flights == []
             && s.registry == map[]
    requires row == RowFor(key, first, 0, 0) && Holding(s, key, row) && s.store.births == 1
    requires forall j | 3 <= j <= 4 :: s.tasks[j] == Recovery(0, key, VersionOf(key, row), 0, Checking)
    ensures AfterFirst(Run(s, [RecoveryRead(3), RecoveryRead(4)]
                              + (Refresh(0, refreshed) + [RecoveryWake(3), RecoveryWake(4)])), key, refreshed)
  {
    var wakes, looks := [RecoveryWake(3), RecoveryWake(4)], [RecoveryRead(3), RecoveryRead(4)];
    RunConcat(s, looks, Refresh(0, refreshed) + wakes);
    RunConcat(Run(s, looks), Refresh(0, refreshed), wakes);
    TwoJoin(s, key, 3, row, Active(first.token, first.refreshToken));
    SharedRefresh(Run(s, looks), key, row, refreshed);
  }

  /** Tasks 3 and 4 await flight 0, which is about to claim the row. */
  predicate Shared(s: State, key: Key, row: Row) {
    && Configured(s, key) && |s.tasks| == 5 && |s.flights| == 1 && Holding(s, key, row) && s.store.births == 1
    && s.flights[0].pc.Claiming? && s.flights[0].owner == 0 && s.flights[0].key == key
    && s.flights[0].expected == VersionOf(key, row) && s.flights[0].payload.refreshToken.Some?
    && forall j | 3 <= j <= 4 :: s.tasks[j].Recovery? && s.tasks[j].step == Joined(0)
  }

  lemma SharedRefresh(s: State, key: Key, row: Row, refreshed: ProviderReply)
    requires Shared(s, key, row) && row.lease.None? && row.rotationSeq == row.incarnation == 0 && Good(refreshed)
    ensures AfterFirst(Run(Run(s, Refresh(0, refreshed)), [RecoveryWake(3), RecoveryWake(4)]), key, refreshed)
  {
    RefreshCommits(s, key, 0, row, 0, 1, refreshed, 0);
    TwoWake(Run(s, Refresh(0, refreshed)), 3, 0);
  }

  predicate AfterSecond(s: State, key: Key, v: Version) {
    && Configured(s, key) && |s.tasks| == 9 && key !in s.store.rows && s.store.births == 1
    && s.tasks[8] == Recovery(0, key, v, 1, Checking)
  }

  lemma SecondRoundState(s: State, key: Key, refreshed: ProviderReply)
    requires AfterFirst(s, key, refreshed)
    ensures AfterSecond(Run(s, SecondRound(key)), key, Version(key, 0, 1))
  {
    var row, v := RowFor(key, refreshed, 1, 0), Version(key, 0, 1);
    var last := [RecoveryRead(7), RecoveryDelete(7)];
    RunConcat(s, BothResolve(key, 5), BothRecover(5, 1) + last);
    TwoResolve(s, key, refreshed, row);
    var t := Run(s, BothResolve(key, 5));
    RunConcat(t, BothRecover(5, 1), last);
    TwoRecover(t, key, 5, v, refreshed.token, 1);
    var u := Run(t, BothRecover(5, 1));
    RunTwo(u, RecoveryRead(7), RecoveryDelete(7));
    Discards(u, key, 7, row, v);
  }

  /** Two sign-ins after a deletion: number 1 is stored again. */
  predicate SignedInTwice(s: State, key: Key, v: Version, newer: ProviderReply) {
    && |s.tasks| > 8 && s.tasks[8] == Recovery(0, key, v, 1, Checking)
    && newer.Issued? && Holding(s, key, RowFor(key, newer, 1, 1))
  }

  lemma SignsInTwice(s: State, key: Key, v: Version, again: ProviderReply, newer: ProviderReply)
    requires AfterSecond(s, key, v) && Good(again) && Good(newer)
    ensures SignedInTwice(Run(Run(s, SignIn(key, 9, again)), SignIn(key, 10, newer)), key, v, newer)
  {
    SignInStores(s, key, again);
    SignInStores(Run(s, SignIn(key, 9, again)), key, newer);
  }

  lemma ThirdRoundState(s: State, key: Key, v: Version, again: ProviderReply, newer: ProviderReply)
    requires AfterSecond(s, key, v) && v.rotationSeq == 1 && Good(again) && Good(newer)
    ensures var t := Run(s, ThirdRound(key, again, newer));
            && Enabled(t, RecoveryDelete(8)) && t.tasks[8].rejected == v
            && Holding(t, key, RowFor(key, newer, 1, 1))
            && key !in Step(t, RecoveryDelete(8)).store.rows
  {
    var t := Run(s, SignIn(key, 9, again));
    var u := Run(t, SignIn(key, 10, newer));
    RunConcat(s, SignIn(key, 9, again), SignIn(key, 10, newer) + [RecoveryRead(8)]);
    RunConcat(t, SignIn(key, 10, newer), [RecoveryRead(8)]);
    SignsInTwice(s, key, v, again, newer);
    LastLook(u, key, v, newer);
    RunOne(u, RecoveryRead(8));
  }

  lemma RunOne(s: State, e: Event)
    ensures Run(s, [e]) == Step(s, e)
  {
    assert [e][1..] == [];
    assert Run(s, [e]) == Run(Step(s, e), []);
  }

  lemma LastLook(s: State, key: Key, v: Version, newer: ProviderReply)
    requires SignedInTwice(s, key, v, newer) && v.rotationSeq == 1
    ensures var t := Step(s, RecoveryRead(8));
            && Enabled(t, RecoveryDelete(8)) && t.tasks[8].Recovery? && t.tasks[8].rejected == v
            && Holding(t, key, RowFor(key, newer, 1, 1))
            && key !in Step(t, RecoveryDelete(8)).store.rows
  {
    Discards(s, key, 8, RowFor(key, newer, 1, 1), v);
  }

  function StaleRun(key: Key, first: ProviderReply, refreshed: ProviderReply, again: ProviderReply,
        newer: ProviderReply)
    : seq<Event>
  {
    FirstRound(key, first, refreshed) + (SecondRound(key) + ThirdRound(key, again, newer))
  }

  /**
   A stale 401 can destroy a newer credential: the first request deletes the rejected one at number
   1; the user signs in twice, so that number 1 is stored again; and the second request, rejected
   with the first, deletes that.
   */
  lemma StaleRejectionDestroysNewer(key: Key, first: ProviderReply, refreshed: ProviderReply, again: ProviderReply,
        newer: ProviderReply)
    requires Good(first) && Good(refreshed) && Good(again) && Good(newer)
    ensures Init(Empty(key))
    ensures var s := Run(Empty(key), StaleRun(key, first, refreshed, again, newer));
            && Enabled(s, RecoveryDelete(8)) && s.tasks[8].rejected == Version(key, 0, 1)
            && Holding(s, key, RowFor(key, newer, 1, 1))
            && key !in Step(s, RecoveryDelete(8)).store.rows
  {
    EmptyIsInitial(key);
    var s := Empty(key);
    RunConcat(s, FirstRound(key, first, refreshed), SecondRound(key) + ThirdRound(key, again, newer));
    FirstRoundState(key, first, refreshed);
    var t := Run(s, FirstRound(key, first, refreshed));
    RunConcat(t, SecondRound(key), ThirdRound(key, again, newer));
    SecondRoundState(t, key, refreshed);
    ThirdRoundState(Run(t, SecondRound(key)), key, Version(key, 0, 1), again, newer);
  }
}
