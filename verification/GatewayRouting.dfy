/**
 Durable routing of the Agent Gateway (apps/gateway/src/app.ts, gateway-durable-routing.ts,
 gateway-session-lifecycle.ts and the first half of executeGatewaySessionProxy) as a step system:
 any number of requests, one repository, any interleaving of their repository calls.

 Between two steps the outside may change every weight, status and affinity key: each step
 that looks at deployments brings its own snapshot.
 */
module GatewayRouting {
  import opened Prelude
  import opened Routing

  /** A session or operation row; who it is for is the map's key. */
  datatype RowBinding = RowBinding(routeId: string, deploymentId: string, variantName: Option<string>,
                                   experimentId: Option<(string, nat)>)

  datatype Route = Route(id: string, projectId: string, policyRevision: nat, targets: seq<Target>)

  /**
   What the classifier made of the request: a create with an optional operation key, a request
   that names a session, or anything else.
   */
  datatype Kind = Initial(operationKey: Option<string>) | Continuation(session: string) | Other

  datatype Phase =
    | Arrived
    | TouchingOperation
    | OperationResolved(operation: Option<RowBinding>)
    | TouchingSession(operation: Option<RowBinding>, found: RowBinding)
    | Ready(operation: Option<RowBinding>, session: Option<RowBinding>)
    | Claiming(target: Target)
    | Rerouting(claimed: RowBinding)
    | Activating(target: Target, operation: Option<RowBinding>)
    | Upstream(target: Target, operation: Option<RowBinding>)
    | Ended(status: nat)

  /**
   One request; `reached` is the deployment it activated, `sticky` says that it found a
   session binding, and `created` is the session it bound.
   */
  datatype Request = Request(route: Route, kind: Kind, playground: bool, phase: Phase,
                             reached: Option<string>, sticky: bool, created: Option<string>)

  datatype State = State(
    operations: map<(string, string), RowBinding>,
    sessions: map<(string, string), RowBinding>,
    requests: seq<Request>)

  /** What a request sees when it resolves its target and checks the Eve version. */
  datatype View = View(deployments: map<string, Status>, bucket: int, allowStopped: bool, supported: bool)

  datatype Event =
    | Arrive(route: Route, kind: Kind, playground: bool)
    | FindOperation(request: nat, active: bool)
    | TouchOperation(request: nat)
    | FindSession(request: nat, active: bool)
    | TouchSession(request: nat)
    | ResolveTarget(request: nat, view: View)
    | BindOperation(request: nat)
    | ResolveClaimed(request: nat, view: View)
    | Activate(request: nat, granted: bool)
    | Respond(request: nat, ok: bool, session: Option<string>)

  function SetRequest(s: State, i: nat, r: Request): State
    requires i < |s.requests|
  {
    s.(requests := s.requests[i := r])
  }

  function Goto(s: State, i: nat, phase: Phase): State
    requires i < |s.requests|
  {
    SetRequest(s, i, s.requests[i].(phase := phase))
  }

  predicate At(s: State, i: nat) {
    i < |s.requests|
  }

  function OperationKeyOf(r: Request): Option<(string, string)> {
    if r.kind.Initial? && r.kind.operationKey.Some? then Some((r.route.projectId, r.kind.operationKey.value)) else None
  }

  /** resolveGatewayOperationBinding, up to the touch. */
  function StepFindOperation(s: State, i: nat, active: bool): State
    requires At(s, i) && s.requests[i].phase.Arrived?
  {
    var key := OperationKeyOf(s.requests[i]);
    if key.None? || key.value !in s.operations then Goto(s, i, OperationResolved(None))
    else if active then Goto(s, i, TouchingOperation)
    else Goto(s, i, Ended(410))
  }

  function StepTouchOperation(s: State, i: nat): State
    requires At(s, i) && s.requests[i].phase.TouchingOperation?
  {
    var key := OperationKeyOf(s.requests[i]);
    if key.Some? && key.value in s.operations then Goto(s, i, OperationResolved(Some(s.operations[key.value])))
    else Goto(s, i, Ended(410))
  }

  /** resolveGatewaySessionBinding; only the playground refuses a session it does not know. */
  function StepFindSession(s: State, i: nat, active: bool): State
    requires At(s, i) && s.requests[i].phase.OperationResolved?
  {
    var r := s.requests[i];
    var operation := r.phase.operation;
    if !r.kind.Continuation? then Goto(s, i, Ready(operation, None))
    else
      var key := (r.route.projectId, r.kind.session);
      if key !in s.sessions then Goto(s, i, if r.playground then Ended(404) else Ready(operation, None))
      else if !active then Goto(s, i, Ended(410))
      else SetRequest(s, i, r.(phase := TouchingSession(operation, s.sessions[key]), sticky := true))
  }

  function StepTouchSession(s: State, i: nat): State
    requires At(s, i) && s.requests[i].phase.TouchingSession?
  {
    var r := s.requests[i];
    if r.kind.Continuation? && (r.route.projectId, r.kind.session) in s.sessions then
      Goto(s, i, Ready(r.phase.operation, Some(r.phase.found)))
    else Goto(s, i, Ended(410))
  }

  function AsBinding(b: RowBinding): Binding {
    Binding(b.deploymentId, b.variantName)
  }

  /** The session binding if the request has one, else the operation binding, pins the target. */
  function PinOf(phase: Phase): Option<Binding>
    requires phase.Ready?
  {
    if phase.session.Some? then Some(AsBinding(phase.session.value))
    else if phase.operation.Some? then Some(AsBinding(phase.operation.value)) else None
  }

  /** What follows the first resolution; a keyed create without its row claims it. */
  function AfterResolve(r: Request, resolved: Resolved, supported: bool): Phase
    requires r.phase.Ready?
  {
    match resolved
    case Threw => Ended(500)
    case Nothing => Ended(503)
    case Found(target) =>
      if !supported then Ended(409)
      else if OperationKeyOf(r).Some? && r.phase.operation.None? then Claiming(target)
      else Activating(target, r.phase.operation)
  }

  function StepResolve(s: State, i: nat, view: View): State
    requires At(s, i) && s.requests[i].phase.Ready? && 0 <= view.bucket < BASIS_POINTS
  {
    var r := s.requests[i];
    var resolved := Resolve(r.route.targets, view.deployments, PinOf(r.phase), view.bucket, view.allowStopped);
    Goto(s, i, AfterResolve(r, resolved, view.supported))
  }

  function ExperimentId(route: Route): Option<(string, nat)> {
    if |route.targets| > 1 then Some((route.id, route.policyRevision)) else None
  }

  /** bindOperation inserts unless the key is taken, and answers with the stored row. */
  function StepBindOperation(s: State, i: nat): State
    requires At(s, i) && s.requests[i].phase.Claiming? && OperationKeyOf(s.requests[i]).Some?
  {
    var r := s.requests[i];
    var key := OperationKeyOf(r).value;
    var target := r.phase.target;
    var row := RowBinding(r.route.id, target.deploymentId, target.variantName, ExperimentId(r.route));
    var t := if key in s.operations then s else s.(operations := s.operations[key := row]);
    var claimed := t.operations[key];
    if claimed.deploymentId == target.deploymentId then Goto(t, i, Activating(target, Some(claimed)))
    else Goto(t, i, Rerouting(claimed))
  }

  /** What follows the second resolution, pinned to the row that won. */
  function AfterClaim(claimed: RowBinding, resolved: Resolved, supported: bool): Phase {
    match resolved
    case Threw => Ended(500)
    case Nothing => Ended(503)
    case Found(target) => if supported then Activating(target, Some(claimed)) else Ended(409)
  }

  function StepResolveClaimed(s: State, i: nat, view: View): State
    requires At(s, i) && s.requests[i].phase.Rerouting? && 0 <= view.bucket < BASIS_POINTS
  {
    var r := s.requests[i];
    var pin := Some(AsBinding(r.phase.claimed));
    var resolved := Resolve(r.route.targets, view.deployments, pin, view.bucket, view.allowStopped);
    Goto(s, i, AfterClaim(r.phase.claimed, resolved, view.supported))
  }

  function StepActivate(s: State, i: nat, granted: bool): State
    requires At(s, i) && s.requests[i].phase.Activating?
  {
    var r := s.requests[i];
    if !granted then Goto(s, i, Ended(503))
    else SetRequest(s, i, r.(phase := Upstream(r.phase.target, r.phase.operation),
                             reached := Some(r.phase.target.deploymentId)))
  }

  /** applyGatewaySessionResponse: bindSession overwrites whatever the session id was bound to. */
  function StepRespond(s: State, i: nat, ok: bool, session: Option<string>): State
    requires At(s, i) && s.requests[i].phase.Upstream?
  {
    var r := s.requests[i];
    var Upstream(target, operation) := r.phase;
    if !r.kind.Initial? || !ok || session.None? then Goto(s, i, Ended(200))
    else
      var row := RowBinding(
        if operation.Some? then operation.value.routeId else r.route.id,
        target.deploymentId,
        if operation.Some? then operation.value.variantName else target.variantName,
        if operation.Some? then operation.value.experimentId else ExperimentId(r.route));
      SetRequest(s.(sessions := s.sessions[(r.route.projectId, session.value) := row]),
                 i, r.(phase := Ended(200), created := session))
  }

  predicate Enabled(s: State, e: Event) {
    match e
    case Arrive(_, _, _) => true
    case FindOperation(i, _) => At(s, i) && s.requests[i].phase.Arrived?
    case TouchOperation(i) => At(s, i) && s.requests[i].phase.TouchingOperation?
    case FindSession(i, _) => At(s, i) && s.requests[i].phase.OperationResolved?
    case TouchSession(i) => At(s, i) && s.requests[i].phase.TouchingSession?
    case ResolveTarget(i, view) => At(s, i) && s.requests[i].phase.Ready? && 0 <= view.bucket < BASIS_POINTS
    case BindOperation(i) => At(s, i) && s.requests[i].phase.Claiming? && OperationKeyOf(s.requests[i]).Some?
    case ResolveClaimed(i, view) => At(s, i) && s.requests[i].phase.Rerouting? && 0 <= view.bucket < BASIS_POINTS
    case Activate(i, _) => At(s, i) && s.requests[i].phase.Activating?
    case Respond(i, _, _) => At(s, i) && s.requests[i].phase.Upstream?
  }

  function Step(s: State, e: Event): State {
    if !Enabled(s, e) then s else
    match e
    case Arrive(route, kind, playground) =>
      s.(requests := s.requests + [Request(route, kind, playground, Arrived, None, false, None)])
    case FindOperation(i, active) => StepFindOperation(s, i, active)
    case TouchOperation(i) => StepTouchOperation(s, i)
    case FindSession(i, active) => StepFindSession(s, i, active)
    case TouchSession(i) => StepTouchSession(s, i)
    case ResolveTarget(i, view) => StepResolve(s, i, view)
    case BindOperation(i) => StepBindOperation(s, i)
    case ResolveClaimed(i, view) => StepResolveClaimed(s, i, view)
    case Activate(i, granted) => StepActivate(s, i, granted)
    case Respond(i, ok, session) => StepRespond(s, i, ok, session)
  }

  function Run(s: State, events: seq<Event>): State
    decreases |events|
  {
    if events == [] then s else Run(Step(s, events[0]), events[1..])
  }

  // ---------------------------------------------------------------------------
  // The invariant
  // ---------------------------------------------------------------------------

  /** The operation row a request carries is the stored one. */
  ghost predicate Carries(s: State, r: Request, b: Option<RowBinding>) {
    && (b.Some? ==> OperationKeyOf(r).Some?)
    && (b.Some? ==> OperationKeyOf(r).value in s.operations && s.operations[OperationKeyOf(r).value] == b.value)
  }

  /** A request with an operation key that got this far is pinned to the stored deployment. */
  ghost predicate Pinned(s: State, r: Request, deploymentId: string) {
    OperationKeyOf(r).Some? ==>
      OperationKeyOf(r).value in s.operations && s.operations[OperationKeyOf(r).value].deploymentId == deploymentId
  }

  ghost predicate RequestOk(s: State, r: Request) {
    && (r.reached.Some? ==> Pinned(s, r, r.reached.value))
    && (r.sticky || r.phase.TouchingSession? ==> r.kind.Continuation?)
    && (r.reached.Some? ==> r.phase.Upstream? || r.phase.Ended?)
    && (r.created.Some? ==> r.phase.Ended?)
    && match r.phase
       case OperationResolved(b) => Carries(s, r, b)
       case TouchingSession(b, _) => Carries(s, r, b)
       case Ready(b, session) => Carries(s, r, b) && (session.Some? ==> r.kind.Continuation?)
       case Rerouting(b) => Carries(s, r, Some(b))
       case Activating(target, b) => Carries(s, r, b) && Pinned(s, r, target.deploymentId)
       case Upstream(target, b) =>
         Carries(s, r, b) && Pinned(s, r, target.deploymentId) && r.reached == Some(target.deploymentId)
       case _ => true
  }

  ghost predicate RequestOkAt(s: State, i: nat) {
    At(s, i) ==> RequestOk(s, s.requests[i])
  }

  ghost predicate Inv(s: State) {
    forall i: nat {:trigger RequestOkAt(s, i)} :: RequestOkAt(s, i)
  }

  /** Operation rows are never changed or removed. */
  ghost predicate OperationsKept(s: State, t: State) {
    forall k <- s.operations :: k in t.operations && t.operations[k] == s.operations[k]
  }

  /** One request moves; the operation rows may have gained an entry. */
  lemma MoveKeeps(s: State, t: State, i: nat)
    requires Inv(s) && OperationsKept(s, t) && |t.requests| == |s.requests| && At(s, i)
    requires forall j | 0 <= j < |s.requests| && j != i :: t.requests[j] == s.requests[j]
    requires RequestOk(t, t.requests[i])
    ensures Inv(t)
  {
    forall j: nat ensures RequestOkAt(t, j) { assert RequestOkAt(s, j); }
  }

  predicate GoesTo(resolved: Resolved, pin: Option<Binding>) {
    resolved.Found? && pin.Some? ==> resolved.target.deploymentId == pin.value.deploymentId
  }

  lemma PinnedTarget(targets: seq<Target>, view: View, pin: Option<Binding>)
    requires 0 <= view.bucket < BASIS_POINTS
    ensures GoesTo(Resolve(targets, view.deployments, pin, view.bucket, view.allowStopped), pin)
  {
    if pin.Some? { BoundGoesThere(targets, view.deployments, pin.value, view.bucket, view.allowStopped); }
  }

  /** One request goes to a phase of its own; nothing shared changes. */
  lemma GotoKeeps(s: State, i: nat, phase: Phase)
    requires Inv(s) && At(s, i) && RequestOk(s, s.requests[i].(phase := phase))
    ensures Inv(Goto(s, i, phase))
  {
    MoveKeeps(s, Goto(s, i, phase), i);
  }

  lemma ResolvedPhaseOk(s: State, r: Request, resolved: Resolved, supported: bool)
    requires RequestOk(s, r) && r.phase.Ready? && GoesTo(resolved, PinOf(r.phase))
    ensures RequestOk(s, r.(phase := AfterResolve(r, resolved, supported)))
  {
  }

  lemma ResolveStepKeeps(s: State, i: nat, view: View)
    requires Inv(s) && Enabled(s, ResolveTarget(i, view))
    ensures Inv(StepResolve(s, i, view))
  {
    var r := s.requests[i];
    assert RequestOkAt(s, i);
    var resolved := Resolve(r.route.targets, view.deployments, PinOf(r.phase), view.bucket, view.allowStopped);
    PinnedTarget(r.route.targets, view, PinOf(r.phase));
    ResolvedPhaseOk(s, r, resolved, view.supported);
    GotoKeeps(s, i, AfterResolve(r, resolved, view.supported));
  }

  lemma ClaimedPhaseOk(s: State, r: Request, resolved: Resolved, supported: bool)
    requires RequestOk(s, r) && r.phase.Rerouting? && GoesTo(resolved, Some(AsBinding(r.phase.claimed)))
    ensures RequestOk(s, r.(phase := AfterClaim(r.phase.claimed, resolved, supported)))
  {
  }

  lemma ResolveClaimedStepKeeps(s: State, i: nat, view: View)
    requires Inv(s) && Enabled(s, ResolveClaimed(i, view))
    ensures Inv(StepResolveClaimed(s, i, view))
  {
    var r := s.requests[i];
    assert RequestOkAt(s, i);
    var pin := Some(AsBinding(r.phase.claimed));
    var resolved := Resolve(r.route.targets, view.deployments, pin, view.bucket, view.allowStopped);
    PinnedTarget(r.route.targets, view, pin);
    ClaimedPhaseOk(s, r, resolved, view.supported);
    GotoKeeps(s, i, AfterClaim(r.phase.claimed, resolved, view.supported));
  }

  lemma LookupStepKeeps(s: State, e: Event)
    requires Inv(s) && Enabled(s, e)
    requires e.FindOperation? || e.TouchOperation? || e.FindSession? || e.TouchSession?
    ensures Inv(Step(s, e)) && OperationsKept(s, Step(s, e))
  {
    assert RequestOkAt(s, e.request);
    MoveKeeps(s, Step(s, e), e.request);
  }

  lemma EffectStepKeeps(s: State, e: Event)
    requires Inv(s) && Enabled(s, e)
    requires e.BindOperation? || e.Activate? || e.Respond?
    ensures Inv(Step(s, e)) && OperationsKept(s, Step(s, e))
  {
    assert RequestOkAt(s, e.request);
    MoveKeeps(s, Step(s, e), e.request);
  }

  lemma ArriveStepKeeps(s: State, e: Event)
    requires Inv(s) && e.Arrive?
    ensures Inv(Step(s, e)) && OperationsKept(s, Step(s, e))
  {
    forall j: nat ensures RequestOkAt(Step(s, e), j) { assert RequestOkAt(s, j); }
  }

  lemma StepKeeps(s: State, e: Event)
    requires Inv(s)
    ensures Inv(Step(s, e)) && OperationsKept(s, Step(s, e))
  {
    if Enabled(s, e) {
      if e.Arrive? { ArriveStepKeeps(s, e); }
      else if e.ResolveTarget? { ResolveStepKeeps(s, e.request, e.view); }
      else if e.ResolveClaimed? { ResolveClaimedStepKeeps(s, e.request, e.view); }
      else if e.BindOperation? || e.Activate? || e.Respond? { EffectStepKeeps(s, e); }
      else { LookupStepKeeps(s, e); }
    }
  }

  lemma {:induction false} RunKeeps(s: State, events: seq<Event>)
    requires Inv(s)
    ensures Inv(Run(s, events)) && OperationsKept(s, Run(s, events))
    decreases |events|
  {
    if events != [] {
      StepKeeps(s, events[0]);
      RunKeeps(Step(s, events[0]), events[1..]);
    }
  }

  // ---------------------------------------------------------------------------
  // Create-once stickiness
  // ---------------------------------------------------------------------------

  /**
   All creates with one operation key in one project that reach activation reach one deployment,
   the one the operation row names; the row never changes afterwards.
   */
  lemma CreatesAgree(start: State, events: seq<Event>, later: seq<Event>, i: nat, j: nat, key: (string, string))
    requires start.requests == []
    requires var s := Run(start, events);
             && At(s, i) && OperationKeyOf(s.requests[i]) == Some(key) && s.requests[i].reached.Some?
    requires var t := Run(Run(start, events), later);
             && At(t, j) && OperationKeyOf(t.requests[j]) == Some(key) && t.requests[j].reached.Some?
    ensures Run(start, events).requests[i].reached == Run(Run(start, events), later).requests[j].reached
    ensures key in Run(start, events).operations
    ensures Run(start, events).requests[i].reached.value == Run(start, events).operations[key].deploymentId
  {
    RunKeeps(start, events);
    RunKeeps(Run(start, events), later);
    assert RequestOkAt(Run(start, events), i);
    assert RequestOkAt(Run(Run(start, events), later), j);
  }

  /** A create with an operation key binds its session to the operation's deployment. */
  lemma SessionBoundToOperation(s: State, i: nat, ok: bool, session: Option<string>)
    requires Inv(s) && Enabled(s, Respond(i, ok, session))
    requires OperationKeyOf(s.requests[i]).Some?
    ensures var t := Step(s, Respond(i, ok, session));
            var key := OperationKeyOf(s.requests[i]).value;
            t.requests[i].created.Some? ==>
              && (key.0, t.requests[i].created.value) in t.sessions
              && key in s.operations
              && t.sessions[(key.0, t.requests[i].created.value)].deploymentId == s.operations[key].deploymentId
  {
    assert RequestOkAt(s, i);
  }

  // ---------------------------------------------------------------------------
  // Continuations
  // ---------------------------------------------------------------------------

  /** Which deployment a session id comes from: one deployment per project and id. */
  type Origin = map<(string, string), string>

  /** The event does not report a session id from a deployment other than its origin. */
  predicate Genuine(s: State, e: Event, origin: Origin) {
    e.Respond? && Enabled(s, e) && s.requests[e.request].kind.Initial? && e.ok && e.session.Some? ==>
      var k := (s.requests[e.request].route.projectId, e.session.value);
      k in origin && origin[k] == s.requests[e.request].phase.target.deploymentId
  }

  predicate GenuineRun(s: State, events: seq<Event>, origin: Origin)
    decreases |events|
  {
    events == [] || (Genuine(s, events[0], origin) && GenuineRun(Step(s, events[0]), events[1..], origin))
  }

  ghost predicate SessionOk(s: State, origin: Origin, k: (string, string)) {
    k in s.sessions ==> k in origin && s.sessions[k].deploymentId == origin[k]
  }

  /** A continuation that found its binding carries the origin's deployment from then on. */
  ghost predicate FollowsOrigin(r: Request, origin: Origin) {
    r.sticky && r.kind.Continuation? ==>
      var k := (r.route.projectId, r.kind.session);
      && k in origin
      && (r.reached.Some? ==> r.reached.value == origin[k])
      && match r.phase
         case TouchingSession(_, b) => b.deploymentId == origin[k]
         case Ready(_, b) => b.Some? && b.value.deploymentId == origin[k]
         case Activating(t, _) => t.deploymentId == origin[k]
         case Upstream(t, _) => t.deploymentId == origin[k]
         case Ended(_) => true
         case _ => false
  }

  ghost predicate FollowsOriginAt(s: State, origin: Origin, i: nat) {
    At(s, i) ==> FollowsOrigin(s.requests[i], origin)
  }

  ghost predicate OriginInv(s: State, origin: Origin) {
    && (forall k {:trigger SessionOk(s, origin, k)} :: SessionOk(s, origin, k))
    && (forall i: nat {:trigger FollowsOriginAt(s, origin, i)} :: FollowsOriginAt(s, origin, i))
  }

  lemma OriginStep(s: State, e: Event, origin: Origin)
    requires Inv(s) && OriginInv(s, origin) && Genuine(s, e, origin)
    ensures OriginInv(Step(s, e), origin)
    ensures s.sessions.Keys <= Step(s, e).sessions.Keys
  {
    var t := Step(s, e);
    OriginSessions(s, e, origin);
    forall j: nat ensures FollowsOriginAt(t, origin, j) {
      assert FollowsOriginAt(s, origin, j);
      if Enabled(s, e) && !e.Arrive? && j == e.request {
        OriginMove(s, e, origin);
      } else {
        OthersStay(s, e, j);
      }
    }
  }

  lemma OriginSessions(s: State, e: Event, origin: Origin)
    requires OriginInv(s, origin) && Genuine(s, e, origin)
    ensures forall k {:trigger SessionOk(Step(s, e), origin, k)} :: SessionOk(Step(s, e), origin, k)
    ensures s.sessions.Keys <= Step(s, e).sessions.Keys
  {
    var t := Step(s, e);
    if !e.Respond? { assert t.sessions == s.sessions; }
    forall k ensures SessionOk(t, origin, k) { assert SessionOk(s, origin, k); }
  }

  /** An event moves its own request, or adds one that has found nothing yet. */
  lemma OthersStay(s: State, e: Event, j: nat)
    requires !(Enabled(s, e) && !e.Arrive? && j == e.request)
    ensures At(Step(s, e), j) ==>
              (At(s, j) && Step(s, e).requests[j] == s.requests[j]) || !Step(s, e).requests[j].sticky
  {
  }

  /** The request that moves keeps following its origin. */
  lemma OriginMove(s: State, e: Event, origin: Origin)
    requires Inv(s) && OriginInv(s, origin) && Enabled(s, e) && !e.Arrive?
    ensures FollowsOrigin(Step(s, e).requests[e.request], origin)
  {
    var r := s.requests[e.request];
    assert FollowsOriginAt(s, origin, e.request) && RequestOkAt(s, e.request);
    if e.FindSession? {
      if r.kind.Continuation? { assert SessionOk(s, origin, (r.route.projectId, r.kind.session)); }
    } else if e.ResolveTarget? {
      var resolved := Resolve(r.route.targets, e.view.deployments, PinOf(r.phase), e.view.bucket, e.view.allowStopped);
      PinnedTarget(r.route.targets, e.view, PinOf(r.phase));
      OriginResolve(r, resolved, e.view.supported, origin);
    } else if e.ResolveClaimed? {
      assert Step(s, e) == StepResolveClaimed(s, e.request, e.view);
    }
  }

  /** The resolution half of the move, away from the rest of the state. */
  lemma OriginResolve(r: Request, resolved: Resolved, supported: bool, origin: Origin)
    requires r.phase.Ready? && FollowsOrigin(r, origin) && r.reached.None? && GoesTo(resolved, PinOf(r.phase))
    ensures FollowsOrigin(r.(phase := AfterResolve(r, resolved, supported)), origin)
  {
  }

  lemma {:induction false} OriginRun(s: State, events: seq<Event>, origin: Origin)
    requires Inv(s) && OriginInv(s, origin) && GenuineRun(s, events, origin)
    ensures OriginInv(Run(s, events), origin)
    ensures s.sessions.Keys <= Run(s, events).sessions.Keys
    decreases |events|
  {
    if events != [] {
      StepKeeps(s, events[0]);
      OriginStep(s, events[0], origin);
      OriginRun(Step(s, events[0]), events[1..], origin);
    }
  }

  /**
   While no session id is reported from two deployments, a continuation that found its session's
   binding reaches the deployment the session came from, or no deployment; and once a
   session is bound its binding stays to be found.
   */
  lemma ContinuationsFollow(start: State, events: seq<Event>, origin: Origin, i: nat)
    requires start.requests == [] && GenuineRun(start, events, origin)
    requires forall k :: SessionOk(start, origin, k)
    requires var s := Run(start, events);
             At(s, i) && s.requests[i].kind.Continuation? && s.requests[i].sticky && s.requests[i].reached.Some?
    ensures var r := Run(start, events).requests[i];
            && (r.route.projectId, r.kind.session) in origin
            && r.reached.value == origin[(r.route.projectId, r.kind.session)]
    ensures start.sessions.Keys <= Run(start, events).sessions.Keys
  {
    OriginRun(start, events, origin);
    assert FollowsOriginAt(Run(start, events), origin, i);
  }
}
