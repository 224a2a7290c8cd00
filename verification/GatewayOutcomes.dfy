/** How requests of the gateway end: what an undisturbed one reaches, and why any other is turned away. */
module GatewayOutcomes {
  import opened Prelude
  import opened Routing
  import opened GatewayRouting

  // ---------------------------------------------------------------------------
  // What serves
  // ---------------------------------------------------------------------------

  predicate Served(targets: seq<Target>, view: View, deploymentId: string) {
    || (exists t <- targets :: t.deploymentId == deploymentId && Serving(t.status, view.allowStopped))
    || (deploymentId in view.deployments && Serving(view.deployments[deploymentId], view.allowStopped))
  }

  /** The pinned deployment serves; or, without a pin, some target is eligible. */
  predicate AnyServes(targets: seq<Target>, view: View, pin: Option<Binding>) {
    match pin
    case Some(b) => Served(targets, view, b.deploymentId)
    case None => exists t <- targets :: Eligible(t, view.allowStopped)
  }

  /** All targets are eligible, but their weights are no valid route. */
  predicate Misconfigured(targets: seq<Target>, view: View, pin: Option<Binding>) {
    pin.None? && targets != [] && (forall t <- targets :: Eligible(t, view.allowStopped)) && !ValidTargets(targets)
  }

  lemma ResolveIs(targets: seq<Target>, view: View, pin: Option<Binding>)
    requires 0 <= view.bucket < BASIS_POINTS
    ensures var r := Resolve(targets, view.deployments, pin, view.bucket, view.allowStopped);
            && (r.Nothing? <==> !AnyServes(targets, view, pin))
            && (r.Threw? <==> Misconfigured(targets, view, pin))
            && (r.Found? && pin.Some? ==>
                  && r.target.deploymentId == pin.value.deploymentId
                  && (r.target in targets || r.target.variantName == pin.value.variantName))
            && (r.Found? && pin.None? ==> r.target in targets && Eligible(r.target, view.allowStopped))
  {
    match pin
    case Some(b) => BoundGoesThere(targets, view.deployments, b, view.bucket, view.allowStopped);
    case None => UnboundFindsEligible(targets, view.deployments, view.bucket, view.allowStopped);
  }

  /** A draining deployment keeps the sessions and operations it has, and gets no new ones. */
  lemma DrainingKeepsItsOwn(t: Target, view: View, b: Binding)
    requires 0 <= view.bucket < BASIS_POINTS && t.status.Draining? && t.deploymentId == b.deploymentId
    ensures Resolve([t], view.deployments, Some(b), view.bucket, view.allowStopped) == Found(t)
    ensures Resolve([t], view.deployments, None, view.bucket, view.allowStopped) == Nothing
  {
    ResolveIs([t], view, None);
    assert [t][0] == t;
  }

  /** A stopped deployment gets requests exactly if it may be woken for them, whether bound to it or not. */
  lemma StoppedIsWoken(t: Target, view: View, b: Binding)
    requires 0 <= view.bucket < BASIS_POINTS && t.status.Stopped? && t.deploymentId == b.deploymentId
    requires t.weight == BASIS_POINTS && b.deploymentId !in view.deployments
    ensures var bound := Resolve([t], view.deployments, Some(b), view.bucket, view.allowStopped);
            var unbound := Resolve([t], view.deployments, None, view.bucket, view.allowStopped);
            && bound == (if view.allowStopped then Found(t) else Nothing)
            && unbound == (if view.allowStopped then Found(t) else Nothing)
  {
    ResolveIs([t], view, None);
    ResolveIs([t], view, Some(b));
    assert [t][0] == t && [t][..0] == [] && WeightSum([t]) == BASIS_POINTS;
  }

  // ---------------------------------------------------------------------------
  // Undisturbed requests
  // ---------------------------------------------------------------------------

  lemma {:induction false} RunSnoc(s: State, events: seq<Event>, e: Event)
    ensures Run(s, events + [e]) == Step(Run(s, events), e)
    decreases |events|
  {
    if events == [] {
      assert [] + [e] == [e] && [e][1..] == [];
      assert Run(s, [e]) == Run(Step(s, e), []);
    } else {
      assert (events + [e])[1..] == events[1..] + [e];
      RunSnoc(Step(s, events[0]), events[1..], e);
    }
  }

  predicate Supported(view: View) {
    0 <= view.bucket < BASIS_POINTS && view.supported
  }

  /** A keyed create and what it asks of the repository, one after the other. */
  function LookUp(i: nat, route: Route, op: string, playground: bool): seq<Event> {
    [Arrive(route, Initial(Some(op)), playground), FindOperation(i, true), TouchOperation(i), FindSession(i, true)]
  }

  function Settle(i: nat, view: View): seq<Event> {
    [ResolveTarget(i, view), BindOperation(i), ResolveClaimed(i, view), Activate(i, true)]
  }

  lemma FourSteps(s: State, a: Event, b: Event, c: Event, d: Event)
    ensures Run(s, [a, b, c, d]) == Step(Step(Step(Step(s, a), b), c), d)
  {
    RunSnoc(s, [], a);
    RunSnoc(s, [a], b);
    RunSnoc(s, [a, b], c);
    RunSnoc(s, [a, b, c], d);
    assert [] + [a] == [a] && [a] + [b] == [a, b] && [a, b] + [c] == [a, b, c] && [a, b, c] + [d] == [a, b, c, d];
  }

  lemma {:induction false} RunConcat(s: State, a: seq<Event>, b: seq<Event>)
    ensures Run(s, a + b) == Run(Run(s, a), b)
    decreases |b|
  {
    if b == [] {
      assert a + b == a;
    } else {
      var init, last := b[..|b| - 1], b[|b| - 1];
      assert a + b == (a + init) + [last] && b == init + [last];
      RunConcat(s, a, init);
      RunSnoc(s, a + init, last);
      RunSnoc(Run(s, a), init, last);
    }
  }

  function RowOf(s: State, key: (string, string)): Option<RowBinding> {
    if key in s.operations then Some(s.operations[key]) else None
  }

  function PinTo(row: Option<RowBinding>): Option<Binding> {
    if row.Some? then Some(Binding(row.value.deploymentId, row.value.variantName)) else None
  }

  /** The row that a create which chose this target stores; only a route with several targets is an experiment. */
  predicate RowFor(row: RowBinding, route: Route, target: Target) {
    && row.routeId == route.id && row.deploymentId == target.deploymentId && row.variantName == target.variantName
    && row.experimentId == if |route.targets| >= 2 then Some((route.id, route.policyRevision)) else None
  }

  /** The row says what an eligible target of the route says. */
  predicate Chooses(row: RowBinding, route: Route, view: View) {
    exists target <- route.targets :: Eligible(target, view.allowStopped) && RowFor(row, route, target)
  }

  /** The state with one request more. */
  function With(s: State, r: Request): State {
    s.(requests := s.requests + [r])
  }

  lemma MoveLast(s: State, r: Request, next: Request)
    ensures SetRequest(With(s, r), |s.requests|, next) == With(s, next)
  {
    assert (s.requests + [r])[|s.requests| := next] == s.requests + [next];
  }

  lemma LooksUp(s: State, route: Route, op: string, playground: bool)
    ensures Run(s, LookUp(|s.requests|, route, op, playground))
         == With(s, Request(route, Initial(Some(op)), playground, Ready(RowOf(s, (route.projectId, op)), None), None,
                            false, None))
  {
    var i, row := |s.requests|, RowOf(s, (route.projectId, op));
    FourSteps(s, Arrive(route, Initial(Some(op)), playground), FindOperation(i, true), TouchOperation(i),
              FindSession(i, true));
    var r := Request(route, Initial(Some(op)), playground, Arrived, None, false, None);
    assert Step(s, Arrive(route, Initial(Some(op)), playground)) == With(s, r);
    OperationFound(s, r, row);
    var found := r.(phase := OperationResolved(row));
    MoveLast(s, found, found.(phase := Ready(row, None)));
  }

  lemma OperationFound(s: State, r: Request, row: Option<RowBinding>)
    requires r.phase.Arrived? && OperationKeyOf(r).Some? && row == RowOf(s, OperationKeyOf(r).value)
    ensures Step(Step(With(s, r), FindOperation(|s.requests|, true)), TouchOperation(|s.requests|))
         == With(s, r.(phase := OperationResolved(row)))
  {
    var i, found := |s.requests|, r.(phase := OperationResolved(row));
    if row.Some? {
      var touching := r.(phase := TouchingOperation);
      MoveLast(s, r, touching);
      assert Step(With(s, r), FindOperation(i, true)) == With(s, touching);
      MoveLast(s, touching, found);
    } else {
      MoveLast(s, r, found);
      assert Step(With(s, r), FindOperation(i, true)) == With(s, found);
    }
  }

  /** What becomes of the request, of the row and of everything else. */
  ghost predicate Claimed(s: State, t: State, i: nat, key: (string, string)) {
    && key in t.operations && At(t, i)
    && t.requests[i].reached == Some(t.operations[key].deploymentId)
    && t.requests[i].phase.Upstream? && t.requests[i].phase.operation == Some(t.operations[key])
    && t.sessions == s.sessions
    && (forall k <- s.operations :: k in t.operations && t.operations[k] == s.operations[k])
    && (forall k <- t.operations :: k in s.operations || k == key)
  }

  /** A request with the row it looked up, or without one, resolves, claims if it must, and is activated. */
  lemma Settles(s: State, i: nat, view: View)
    requires At(s, i) && s.requests[i].phase.Ready? && OperationKeyOf(s.requests[i]).Some? && Supported(view)
    requires var key, r := OperationKeyOf(s.requests[i]).value, s.requests[i];
             && r.phase.session.None? && r.phase.operation == RowOf(s, key)
             && AnyServes(r.route.targets, view, PinTo(RowOf(s, key)))
             && !Misconfigured(r.route.targets, view, PinTo(RowOf(s, key)))
    ensures var key, r, t := OperationKeyOf(s.requests[i]).value, s.requests[i], Run(s, Settle(i, view));
            && Claimed(s, t, i, key)
            && (key !in s.operations ==> Chooses(t.operations[key], r.route, view))
  {
    FourSteps(s, ResolveTarget(i, view), BindOperation(i), ResolveClaimed(i, view), Activate(i, true));
    if OperationKeyOf(s.requests[i]).value in s.operations {
      SettlesPinned(s, i, view);
    } else {
      SettlesNew(s, i, view);
    }
  }

  lemma SettlesPinned(s: State, i: nat, view: View)
    requires At(s, i) && s.requests[i].phase.Ready? && OperationKeyOf(s.requests[i]).Some? && Supported(view)
    requires var key, r := OperationKeyOf(s.requests[i]).value, s.requests[i];
             && r.phase.session.None? && key in s.operations && r.phase.operation == Some(s.operations[key])
             && Served(r.route.targets, view, s.operations[key].deploymentId)
    ensures var u := Step(Step(Step(s, ResolveTarget(i, view)), BindOperation(i)), ResolveClaimed(i, view));
            Claimed(s, Step(u, Activate(i, true)), i, OperationKeyOf(s.requests[i]).value)
  {
    var row := s.operations[OperationKeyOf(s.requests[i]).value];
    ResolveIs(s.requests[i].route.targets, view, Some(AsBinding(row)));
    var a := Step(s, ResolveTarget(i, view));
    assert a == Goto(s, i, a.requests[i].phase) && a.requests[i].phase.Activating?;
    assert Step(Step(a, BindOperation(i)), ResolveClaimed(i, view)) == a;
  }

  lemma SettlesNew(s: State, i: nat, view: View)
    requires At(s, i) && s.requests[i].phase.Ready? && OperationKeyOf(s.requests[i]).Some? && Supported(view)
    requires var key, r := OperationKeyOf(s.requests[i]).value, s.requests[i];
             && r.phase == Ready(None, None) && key !in s.operations
             && AnyServes(r.route.targets, view, None) && !Misconfigured(r.route.targets, view, None)
    ensures var u := Step(Step(Step(s, ResolveTarget(i, view)), BindOperation(i)), ResolveClaimed(i, view));
            var key, r, t := OperationKeyOf(s.requests[i]).value, s.requests[i], Step(u, Activate(i, true));
            && Claimed(s, t, i, key)
            && Chooses(t.operations[key], r.route, view)
  {
    ResolveIs(s.requests[i].route.targets, view, None);
    var a := Step(s, ResolveTarget(i, view));
    assert a == Goto(s, i, a.requests[i].phase) && a.requests[i].phase.Claiming?;
    BindsNew(a, i);
    var b := Step(a, BindOperation(i));
    assert Step(b, ResolveClaimed(i, view)) == b;
  }

  lemma BindsNew(s: State, i: nat)
    requires At(s, i) && s.requests[i].phase.Claiming? && OperationKeyOf(s.requests[i]).Some?
    requires OperationKeyOf(s.requests[i]).value !in s.operations
    ensures var t, r := Step(s, BindOperation(i)), s.requests[i];
            var key, target := OperationKeyOf(r).value, r.phase.target;
            && key in t.operations && RowFor(t.operations[key], s.requests[i].route, target)
            && t == Goto(s.(operations := s.operations[key := t.operations[key]]), i,
                         Activating(target, Some(t.operations[key])))
  {
    assert Step(s, BindOperation(i)) == StepBindOperation(s, i);
  }

  /**
   Whatever the others have done before, an undisturbed create with an operation key, something
   serving, a supported version and a granted activation stores the key's row if there is none, and
   reaches the row's deployment. So a retry reaches the deployment of the first create.
   */
  lemma CreateReaches(s: State, route: Route, op: string, playground: bool, view: View)
    requires Supported(view)
    requires var pin := PinTo(RowOf(s, (route.projectId, op)));
             AnyServes(route.targets, view, pin) && !Misconfigured(route.targets, view, pin)
    ensures var key, i := (route.projectId, op), |s.requests|;
            var t := Run(s, LookUp(i, route, op, playground) + Settle(i, view));
            && Claimed(s, t, i, key)
            && (key !in s.operations ==> Chooses(t.operations[key], route, view))
  {
    var i := |s.requests|;
    RunConcat(s, LookUp(i, route, op, playground), Settle(i, view));
    LooksUp(s, route, op, playground);
    var u := Run(s, LookUp(i, route, op, playground));
    Settles(u, i, view);
  }

  /** A create that lost the race for its key is activated on the winner's deployment. */
  lemma LoserFollows(s: State, i: nat, view: View)
    requires At(s, i) && s.requests[i].phase.Claiming? && OperationKeyOf(s.requests[i]).Some? && Supported(view)
    requires OperationKeyOf(s.requests[i]).value in s.operations
    requires Served(s.requests[i].route.targets, view, s.operations[OperationKeyOf(s.requests[i]).value].deploymentId)
    ensures var key := OperationKeyOf(s.requests[i]).value;
            var t := Run(s, [BindOperation(i), ResolveClaimed(i, view), Activate(i, true)]);
            Claimed(s, t, i, key) && t.operations == s.operations
  {
    var r := s.requests[i];
    var row := s.operations[OperationKeyOf(r).value];
    ThreeSteps(s, BindOperation(i), ResolveClaimed(i, view), Activate(i, true));
    var bound := Step(s, BindOperation(i));
    if row.deploymentId == r.phase.target.deploymentId {
      assert bound == Goto(s, i, Activating(r.phase.target, Some(row)));
      assert Step(bound, ResolveClaimed(i, view)) == bound;
    } else {
      assert bound == Goto(s, i, Rerouting(row));
      Rerouted(bound, i, view, row);
    }
  }

  lemma ThreeSteps(s: State, a: Event, b: Event, c: Event)
    ensures Run(s, [a, b, c]) == Step(Step(Step(s, a), b), c)
  {
    RunSnoc(s, [], a);
    RunSnoc(s, [a], b);
    RunSnoc(s, [a, b], c);
    assert [] + [a] == [a] && [a] + [b] == [a, b] && [a, b] + [c] == [a, b, c];
  }

  lemma Rerouted(s: State, i: nat, view: View, row: RowBinding)
    requires At(s, i) && s.requests[i].phase == Rerouting(row) && Supported(view)
    requires Served(s.requests[i].route.targets, view, row.deploymentId)
    ensures var t := Step(s, ResolveClaimed(i, view));
            && At(t, i) && t == Goto(s, i, t.requests[i].phase)
            && t.requests[i].phase.Activating? && t.requests[i].phase.operation == Some(row)
            && t.requests[i].phase.target.deploymentId == row.deploymentId
  {
    ResolveIs(s.requests[i].route.targets, view, Some(AsBinding(row)));
  }

  /** The agent's answer to a create binds the session it names, to all that the row says. */
  lemma RespondBinds(s: State, i: nat, session: string)
    requires At(s, i) && s.requests[i].phase.Upstream? && s.requests[i].kind.Initial?
    ensures var r, t := s.requests[i], Step(s, Respond(i, true, Some(session)));
            var k := (r.route.projectId, session);
            && t.requests[i].created == Some(session) && t.requests[i].phase == Ended(200)
            && k in t.sessions && t.sessions[k].deploymentId == r.phase.target.deploymentId
            && (r.phase.operation.Some? && r.phase.operation.value.deploymentId == r.phase.target.deploymentId ==>
                  t.sessions[k] == r.phase.operation.value)
            && (r.phase.operation.None? ==> RowFor(t.sessions[k], r.route, r.phase.target))
            && (forall other | other != k :: other in t.sessions <==> other in s.sessions)
            && (forall other <- s.sessions | other != k :: t.sessions[other] == s.sessions[other])
            && t.operations == s.operations
  {
  }

  function Continue(i: nat, route: Route, session: string, playground: bool, view: View): seq<Event> {
    [Arrive(route, Continuation(session), playground), FindOperation(i, true), FindSession(i, true), TouchSession(i)]
    + [ResolveTarget(i, view), Activate(i, true)]
  }

  lemma SessionFound(s: State, route: Route, session: string, playground: bool)
    requires (route.projectId, session) in s.sessions
    ensures var i, row := |s.requests|, s.sessions[(route.projectId, session)];
            Run(s, [Arrive(route, Continuation(session), playground), FindOperation(i, true), FindSession(i, true),
                    TouchSession(i)])
            == With(s, Request(route, Continuation(session), playground, Ready(None, Some(row)), None, true, None))
  {
    var i, row := |s.requests|, s.sessions[(route.projectId, session)];
    var r := Request(route, Continuation(session), playground, Arrived, None, false, None);
    FourSteps(s, Arrive(route, Continuation(session), playground), FindOperation(i, true), FindSession(i, true),
              TouchSession(i));
    var looked := r.(phase := OperationResolved(None));
    MoveLast(s, r, looked);
    assert Step(With(s, r), FindOperation(i, true)) == With(s, looked);
    SessionTouched(s, looked, row);
  }

  lemma SessionTouched(s: State, r: Request, row: RowBinding)
    requires r.phase == OperationResolved(None) && r.kind.Continuation?
    requires var k := (r.route.projectId, r.kind.session); k in s.sessions && s.sessions[k] == row
    ensures Step(Step(With(s, r), FindSession(|s.requests|, true)), TouchSession(|s.requests|))
         == With(s, r.(phase := Ready(None, Some(row)), sticky := true))
  {
    var i, found := |s.requests|, r.(phase := TouchingSession(None, row), sticky := true);
    MoveLast(s, r, found);
    assert Step(With(s, r), FindSession(i, true)) == With(s, found);
    MoveLast(s, found, found.(phase := Ready(None, Some(row))));
  }

  /** An undisturbed continuation of a bound session reaches the session's deployment while that serves. */
  lemma ContinuationReaches(s: State, route: Route, session: string, playground: bool, view: View)
    requires (route.projectId, session) in s.sessions && Supported(view)
    requires Served(route.targets, view, s.sessions[(route.projectId, session)].deploymentId)
    ensures var i, k := |s.requests|, (route.projectId, session);
            var t := Run(s, Continue(i, route, session, playground, view));
            && At(t, i) && t.requests[i].reached == Some(s.sessions[k].deploymentId)
            && t.requests[i].phase.Upstream? && OwnVariant(t.requests[i], s.sessions[k])
            && t.sessions == s.sessions && t.operations == s.operations
  {
    var i, row := |s.requests|, s.sessions[(route.projectId, session)];
    var first := [Arrive(route, Continuation(session), playground), FindOperation(i, true), FindSession(i, true),
                  TouchSession(i)];
    RunConcat(s, first, [ResolveTarget(i, view), Activate(i, true)]);
    SessionFound(s, route, session, playground);
    PinnedReaches(Run(s, first), i, view, row);
  }

  /** A target that is no longer on the route keeps the variant it was bound under. */
  predicate OwnVariant(r: Request, row: RowBinding)
    requires r.phase.Upstream?
  {
    r.phase.target in r.route.targets || r.phase.target.variantName == row.variantName
  }

  lemma PinnedReaches(u: State, i: nat, view: View, row: RowBinding)
    requires At(u, i) && u.requests[i].phase == Ready(None, Some(row)) && Supported(view)
    requires OperationKeyOf(u.requests[i]).None? && Served(u.requests[i].route.targets, view, row.deploymentId)
    ensures var t := Run(u, [ResolveTarget(i, view), Activate(i, true)]);
            && At(t, i) && t.requests[i].reached == Some(row.deploymentId)
            && t.requests[i].phase.Upstream? && OwnVariant(t.requests[i], row)
            && t.sessions == u.sessions && t.operations == u.operations
  {
    RunSnoc(u, [], ResolveTarget(i, view));
    RunSnoc(u, [ResolveTarget(i, view)], Activate(i, true));
    assert [] + [ResolveTarget(i, view)] == [ResolveTarget(i, view)];
    assert [ResolveTarget(i, view)] + [Activate(i, true)] == [ResolveTarget(i, view), Activate(i, true)];
    ResolveIs(u.requests[i].route.targets, view, Some(Binding(row.deploymentId, row.variantName)));
    var v := Step(u, ResolveTarget(i, view));
    assert v.requests[i].phase.Activating? && v == Goto(u, i, v.requests[i].phase);
  }

  // ---------------------------------------------------------------------------
  // Why a request ends
  // ---------------------------------------------------------------------------

  function SessionKeyOf(r: Request): Option<(string, string)> {
    if r.kind.Continuation? then Some((r.route.projectId, r.kind.session)) else None
  }

  predicate HasOperation(s: State, r: Request) {
    OperationKeyOf(r).Some? && OperationKeyOf(r).value in s.operations
  }

  predicate HasSession(s: State, r: Request) {
    SessionKeyOf(r).Some? && SessionKeyOf(r).value in s.sessions
  }

  /** The step resolves a target for the request: what it is pinned to, and what it sees. */
  function Resolves(s: State, e: Event, i: nat): Option<(Option<Binding>, View)>
    requires At(s, i)
  {
    if !Enabled(s, e) then None else
    match e
    case ResolveTarget(j, view) => if j == i then Some((PinOf(s.requests[i].phase), view)) else None
    case ResolveClaimed(j, view) =>
      if j == i then Some((Some(AsBinding(s.requests[i].phase.claimed)), view)) else None
    case _ => None
  }

  /** Why a step answers the request with this status. */
  predicate Because(s: State, e: Event, i: nat, status: nat)
    requires At(s, i)
  {
    var r, resolves := s.requests[i], Resolves(s, e, i);
    var serves := resolves.Some? && AnyServes(r.route.targets, resolves.value.1, resolves.value.0);
    var misconfigured := resolves.Some? && Misconfigured(r.route.targets, resolves.value.1, resolves.value.0);
    && Enabled(s, e)
    && if status == 503 then (resolves.Some? && !serves) || e == Activate(i, false)
       else if status == 500 then misconfigured
       else if status == 409 then serves && !misconfigured && !resolves.value.1.supported
       else if status == 410 then
         || (e == FindOperation(i, false) && HasOperation(s, r))
         || (e == TouchOperation(i) && !HasOperation(s, r))
         || (e == FindSession(i, false) && HasSession(s, r))
         || (e == TouchSession(i) && !HasSession(s, r))
       else if status == 404 then
         e.FindSession? && e.request == i && r.kind.Continuation? && !HasSession(s, r) && r.playground
       else status == 200 && e.Respond? && e.request == i
  }

  /** A step ends a request with a status exactly for that status's reason. */
  lemma EndsIff(s: State, e: Event, i: nat, status: nat)
    requires At(s, i) && !s.requests[i].phase.Ended?
    ensures At(Step(s, e), i)
    ensures Step(s, e).requests[i].phase == Ended(status) <==> Because(s, e, i, status)
  {
    if !Enabled(s, e) || e.Arrive? || e.request != i {
      StaysOpen(s, e, i);
    } else if e.ResolveTarget? {
      ResolveEnds(s, i, e.view, status);
    } else if e.ResolveClaimed? {
      ClaimedEnds(s, i, e.view, status);
    } else if e.BindOperation? || e.Activate? || e.Respond? {
      EffectEnds(s, e, status);
    } else {
      LookupEnds(s, e, status);
    }
  }

  lemma StaysOpen(s: State, e: Event, i: nat)
    requires At(s, i) && (!Enabled(s, e) || e.Arrive? || e.request != i)
    ensures At(Step(s, e), i) && Step(s, e).requests[i] == s.requests[i]
    ensures forall status :: !Because(s, e, i, status)
  {
  }

  lemma ResolveEnds(s: State, i: nat, view: View, status: nat)
    requires Enabled(s, ResolveTarget(i, view))
    ensures Step(s, ResolveTarget(i, view)).requests[i].phase == Ended(status)
       <==> Because(s, ResolveTarget(i, view), i, status)
  {
    ResolveIs(s.requests[i].route.targets, view, PinOf(s.requests[i].phase));
  }

  lemma ClaimedEnds(s: State, i: nat, view: View, status: nat)
    requires Enabled(s, ResolveClaimed(i, view))
    ensures Step(s, ResolveClaimed(i, view)).requests[i].phase == Ended(status)
       <==> Because(s, ResolveClaimed(i, view), i, status)
  {
    ResolveIs(s.requests[i].route.targets, view, Some(AsBinding(s.requests[i].phase.claimed)));
  }

  lemma EffectEnds(s: State, e: Event, status: nat)
    requires Enabled(s, e) && (e.BindOperation? || e.Activate? || e.Respond?)
    ensures Step(s, e).requests[e.request].phase == Ended(status) <==> Because(s, e, e.request, status)
  {
    assert Resolves(s, e, e.request).None?;
  }

  lemma LookupEnds(s: State, e: Event, status: nat)
    requires Enabled(s, e) && (e.FindOperation? || e.TouchOperation? || e.FindSession? || e.TouchSession?)
    ensures Step(s, e).requests[e.request].phase == Ended(status) <==> Because(s, e, e.request, status)
  {
    assert Resolves(s, e, e.request).None?;
  }

  lemma EndedStays(s: State, e: Event, i: nat)
    requires At(s, i) && s.requests[i].phase.Ended?
    ensures At(Step(s, e), i) && Step(s, e).requests[i] == s.requests[i]
  {
  }

  ghost predicate EndedBy(start: State, events: seq<Event>, k: nat, i: nat, status: nat) {
    k < |events| && At(Run(start, events[..k]), i) && Because(Run(start, events[..k]), events[k], i, status)
  }

  lemma EndedEarlier(start: State, events: seq<Event>, e: Event, k: nat, i: nat, status: nat)
    requires EndedBy(start, events, k, i, status)
    ensures EndedBy(start, events + [e], k, i, status)
  {
    assert (events + [e])[..k] == events[..k];
  }

  lemma EndedLast(start: State, events: seq<Event>, e: Event, i: nat, status: nat)
    requires At(Run(start, events), i) && Because(Run(start, events), e, i, status)
    ensures EndedBy(start, events + [e], |events|, i, status)
  {
    assert (events + [e])[..|events|] == events;
  }

  /**
   Over any run: a request that ended 503 found nothing serving or was refused its activation, 409 an
   unsupported version, 410 a row that was inactive or gone, 404 an unknown playground session, 500
   an invalid route; and 200 says that the agent answered.
   */
  lemma {:induction false} EndedBecause(start: State, events: seq<Event>, i: nat)
    requires start.requests == [] && At(Run(start, events), i) && Run(start, events).requests[i].phase.Ended?
    ensures exists k: nat :: EndedBy(start, events, k, i, Run(start, events).requests[i].phase.status)
    decreases |events|
  {
    var init, e := events[..|events| - 1], events[|events| - 1];
    var s, status := Run(start, init), Run(start, events).requests[i].phase.status;
    assert events == init + [e];
    RunSnoc(start, init, e);
    if At(s, i) && s.requests[i].phase.Ended? {
      EndedStays(s, e, i);
      EndedBecause(start, init, i);
      var k: nat :| EndedBy(start, init, k, i, status);
      EndedEarlier(start, init, e, k, i, status);
    } else if At(s, i) {
      EndsIff(s, e, i, status);
      EndedLast(start, init, e, i, status);
    }
  }
}
