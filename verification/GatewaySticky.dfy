/** What durable routing promises from end to end, and exactly when a session keeps its deployment. */
module GatewaySticky {
  import opened Prelude
  import opened Routing
  import opened GatewayRouting

  type SessionKey = (string, string)

  // ---------------------------------------------------------------------------
  // Exactly when a session keeps its deployment
  // ---------------------------------------------------------------------------

  /** The deployment whose create an event reports for the session. */
  function ReportedFor(s: State, e: Event, k: SessionKey): Option<string> {
    if e.Respond? && Enabled(s, e) && s.requests[e.request].kind.Initial? && e.ok && e.session.Some?
       && k == (s.requests[e.request].route.projectId, e.session.value)
    then Some(s.requests[e.request].phase.target.deploymentId)
    else None
  }

  lemma StepSession(s: State, e: Event, k: SessionKey)
    requires k in s.sessions
    ensures k in Step(s, e).sessions
    ensures var reported := ReportedFor(s, e, k);
            Step(s, e).sessions[k].deploymentId
            == if reported.Some? then reported.value else s.sessions[k].deploymentId
  {
    if !e.Respond? { assert Step(s, e).sessions == s.sessions; }
  }

  /** The session is bound to `d` at every point of the run. */
  ghost predicate BoundThroughout(s: State, events: seq<Event>, k: SessionKey, d: string)
    decreases |events|
  {
    && k in s.sessions && s.sessions[k].deploymentId == d
    && (events != [] ==> BoundThroughout(Step(s, events[0]), events[1..], k, d))
  }

  /** No create of the run is answered with the session's id by a deployment other than `d`. */
  ghost predicate OnlyFrom(s: State, events: seq<Event>, k: SessionKey, d: string)
    decreases |events|
  {
    events != [] ==>
      && (ReportedFor(s, events[0], k).Some? ==> ReportedFor(s, events[0], k).value == d)
      && OnlyFrom(Step(s, events[0]), events[1..], k, d)
  }

  /** A bound session keeps its deployment exactly as long as no other deployment reports its id. */
  lemma {:induction false} SessionKeptIff(s: State, events: seq<Event>, k: SessionKey, d: string)
    requires k in s.sessions && s.sessions[k].deploymentId == d
    ensures BoundThroughout(s, events, k, d) <==> OnlyFrom(s, events, k, d)
    decreases |events|
  {
    if events != [] {
      StepSession(s, events[0], k);
      var t := Step(s, events[0]);
      if t.sessions[k].deploymentId == d { SessionKeptIff(t, events[1..], k, d); }
    }
  }

  // ---------------------------------------------------------------------------
  // A run in which a session moves
  // ---------------------------------------------------------------------------

  lemma {:induction false} RunConcat(s: State, a: seq<Event>, b: seq<Event>)
    ensures Run(s, a + b) == Run(Run(s, a), b)
    decreases |a|
  {
    if a == [] {
      assert a + b == b;
    } else {
      assert (a + b)[1..] == a[1..] + b;
      RunConcat(Step(s, a[0]), a[1..], b);
    }
  }

  lemma RunFirst(s: State, a: Event, rest: seq<Event>)
    ensures Run(s, [a] + rest) == Run(Step(s, a), rest)
  {
    assert ([a] + rest)[0] == a && ([a] + rest)[1..] == rest;
  }

  lemma RunThree(s: State, a: Event, b: Event, c: Event)
    ensures Run(s, [a, b, c]) == Step(Step(Step(s, a), b), c)
  {
    var t := Step(s, a);
    var u := Step(t, b);
    assert [a, b, c] == [a] + [b, c] && [b, c] == [b] + [c] && [c] == [c] + [];
    RunFirst(s, a, [b, c]);
    RunFirst(t, b, [c]);
    RunFirst(u, c, []);
  }

  /** A route whose one target takes every bucket. */
  function Lone(project: string, d: string): Route {
    Route("", project, 0, [Target(d, BASIS_POINTS, None, Running)])
  }

  lemma LoneResolves(project: string, d: string)
    ensures ValidTargets(Lone(project, d).targets)
    ensures Resolve(Lone(project, d).targets, map[], None, 0, false) == Found(Lone(project, d).targets[0])
  {
    var targets := Lone(project, d).targets;
    assert targets[..0] == [] && WeightSum(targets) == BASIS_POINTS;
    AllEligible(targets, false);
  }

  function Creating(i: nat, project: string, d: string): seq<Event> {
    [Arrive(Lone(project, d), Initial(None), false), FindOperation(i, true), FindSession(i, true)]
  }

  function Created(i: nat, session: string): seq<Event> {
    [ResolveTarget(i, View(map[], 0, false, true)), Activate(i, true), Respond(i, true, Some(session))]
  }

  /** A create without an operation key, run from arrival to response. */
  lemma CreateBinds(s: State, project: string, d: string, session: string)
    ensures var i := |s.requests|;
            var t := Run(s, Creating(i, project, d) + Created(i, session));
            && t.sessions == s.sessions[(project, session) := RowBinding("", d, None, None)]
            && t.operations == s.operations
            && t.requests == s.requests
                             + [Request(Lone(project, d), Initial(None), false, Ended(200), Some(d), false,
                                 Some(session))]
  {
    var i := |s.requests|;
    var route := Lone(project, d);
    RunConcat(s, Creating(i, project, d), Created(i, session));
    RunThree(s, Arrive(route, Initial(None), false), FindOperation(i, true), FindSession(i, true));
    var t := Run(s, Creating(i, project, d));
    assert t == s.(requests := s.requests + [Request(route, Initial(None), false, Ready(None, None), None, false,
        None)]);
    CreatedBinds(s, t, project, d, session);
  }

  lemma CreatedBinds(s: State, t: State, project: string, d: string, session: string)
    requires t == s.(requests := s.requests + [Request(Lone(project, d), Initial(None), false, Ready(None, None), None,
             false, None)])
    ensures var i := |s.requests|;
            Run(t, Created(i, session))
            == t.(sessions := t.sessions[(project, session) := RowBinding("", d, None, None)],
                  requests := s.requests
                              + [Request(Lone(project, d), Initial(None), false, Ended(200), Some(d), false,
                                  Some(session))])
  {
    var i, target := |s.requests|, Lone(project, d).targets[0];
    var view := View(map[], 0, false, true);
    LoneResolves(project, d);
    RunThree(t, ResolveTarget(i, view), Activate(i, true), Respond(i, true, Some(session)));
    var u := Step(t, ResolveTarget(i, view));
    assert u == Goto(t, i, Activating(target, None));
    var v := Step(u, Activate(i, true));
    assert v.requests[i].phase == Upstream(target, None);
  }

  function Looking(i: nat, project: string, d: string, session: string): seq<Event> {
    [Arrive(Lone(project, d), Continuation(session), false), FindOperation(i, true), FindSession(i, true)]
  }

  function Reaching(i: nat, d: string): seq<Event> {
    [TouchSession(i), ResolveTarget(i, View(map[d := Running], 0, false, true)), Activate(i, true)]
  }

  /** A continuation of a bound session, run to its activation, on a route that has another target by now. */
  lemma ContinuationReaches(s: State, project: string, a: string, session: string)
    requires (project, session) in s.sessions && s.sessions[(project, session)].deploymentId != a
    ensures var i, d := |s.requests|, s.sessions[(project, session)].deploymentId;
            var t := Run(s, Looking(i, project, a, session) + Reaching(i, d));
            At(t, i) && t.requests[i].kind == Continuation(session) && t.requests[i].reached == Some(d)
  {
    var i, row := |s.requests|, s.sessions[(project, session)];
    var route, d := Lone(project, a), row.deploymentId;
    RunConcat(s, Looking(i, project, a, session), Reaching(i, d));
    RunThree(s, Arrive(route, Continuation(session), false), FindOperation(i, true), FindSession(i, true));
    var t := Run(s, Looking(i, project, a, session));
    var found := Request(route, Continuation(session), false, TouchingSession(None, row), None, true, None);
    assert t == s.(requests := s.requests + [found]);
    FoundReaches(s, t, found, row);
  }

  lemma FoundReaches(s: State, t: State, found: Request, row: RowBinding)
    requires found.kind.Continuation? && found.phase == TouchingSession(None, row)
    requires (found.route.projectId, found.kind.session) in s.sessions
    requires forall target <- found.route.targets :: target.deploymentId != row.deploymentId
    requires t == s.(requests := s.requests + [found])
    ensures var u := Run(t, Reaching(|s.requests|, row.deploymentId));
            && |u.requests| == |t.requests|
            && u.requests[|s.requests|].kind == found.kind
            && u.requests[|s.requests|].reached == Some(row.deploymentId)
  {
    var i, d := |s.requests|, row.deploymentId;
    var view := View(map[d := Running], 0, false, true);
    RunThree(t, TouchSession(i), ResolveTarget(i, view), Activate(i, true));
    var u := Step(t, TouchSession(i));
    assert u == Goto(t, i, Ready(None, Some(row)));
    BoundGoesThere(found.route.targets, view.deployments, AsBinding(row), 0, false);
    var v := Step(u, ResolveTarget(i, view));
    assert v.requests[i].phase.Activating? && v.requests[i].phase.target.deploymentId == d;
  }

  const NOTHING_YET: State := State(map[], map[], [])

  function MovingRun(project: string, a: string, b: string, session: string): seq<Event> {
    Creating(0, project, a) + Created(0, session)
    + (Creating(1, project, b) + Created(1, session))
    + (Looking(2, project, a, session) + Reaching(2, b))
  }

  /**
   bindSession overwrites: after a second deployment has reported the id, the first one's session is
   continued on the second.
   */
  lemma ReusedIdMovesSession(project: string, a: string, b: string, session: string)
    requires a != b
    ensures var k := (project, session);
            var first := Run(NOTHING_YET, Creating(0, project, a) + Created(0, session));
            && k in first.sessions && first.sessions[k].deploymentId == a
            && At(first, 0) && first.requests[0].created == Some(session)
    ensures var t := Run(NOTHING_YET, MovingRun(project, a, b, session));
            At(t, 2) && t.requests[2].kind == Continuation(session) && t.requests[2].reached == Some(b)
  {
    var one := Creating(0, project, a) + Created(0, session);
    var two := Creating(1, project, b) + Created(1, session);
    CreateBinds(NOTHING_YET, project, a, session);
    var s := Run(NOTHING_YET, one);
    CreateBinds(s, project, b, session);
    var t := Run(s, two);
    ContinuationReaches(t, project, a, session);
    RunConcat(NOTHING_YET, one, two);
    RunConcat(NOTHING_YET, one + two, Looking(2, project, a, session) + Reaching(2, b));
  }

  // ---------------------------------------------------------------------------
  // From the create to its continuations
  // ---------------------------------------------------------------------------

  /** A continuation that still has to look its session up. */
  predicate StillLooks(r: Request) {
    r.reached.None? && (r.phase.Arrived? || r.phase.TouchingOperation? || r.phase.OperationResolved?)
  }

  /** How far a request that was pinned to `d` has come. */
  predicate PinnedTo(r: Request, d: string) {
    match r.phase
    case TouchingSession(_, found) => found.deploymentId == d
    case Ready(_, session) => session.Some? && session.value.deploymentId == d
    case Activating(target, _) => target.deploymentId == d
    case Upstream(target, _) => target.deploymentId == d
    case Ended(_) => true
    case _ => false
  }

  /** A continuation of the session that has yet to look it up, or else can only activate `d`. */
  predicate Lands(r: Request, k: SessionKey, d: string) {
    r.kind == Continuation(k.1) && r.route.projectId == k.0 ==>
      StillLooks(r) || (PinnedTo(r, d) && (r.reached.Some? ==> r.reached.value == d))
  }

  predicate LandsAt(s: State, j: nat, k: SessionKey, d: string) {
    At(s, j) ==> Lands(s.requests[j], k, d)
  }

  /** The request's own step, while the session is bound to `d`. */
  lemma LandsMove(s: State, e: Event, k: SessionKey, d: string)
    requires Enabled(s, e) && !e.Arrive? && k in s.sessions && s.sessions[k].deploymentId == d
    requires Lands(s.requests[e.request], k, d)
    ensures Lands(Step(s, e).requests[e.request], k, d)
  {
    var r := s.requests[e.request];
    if e.ResolveTarget? { PinnedTarget(r.route.targets, e.view, PinOf(r.phase)); }
  }

  lemma LandsStep(s: State, e: Event, j: nat, k: SessionKey, d: string)
    requires k in s.sessions && s.sessions[k].deploymentId == d && LandsAt(s, j, k, d)
    ensures LandsAt(Step(s, e), j, k, d)
  {
    if Enabled(s, e) && !e.Arrive? && j == e.request {
      LandsMove(s, e, k, d);
    } else {
      OthersStay(s, e, j);
    }
  }

  lemma {:induction false} LandsRun(s: State, events: seq<Event>, j: nat, k: SessionKey, d: string)
    requires BoundThroughout(s, events, k, d) && LandsAt(s, j, k, d)
    ensures LandsAt(Run(s, events), j, k, d)
    decreases |events|
  {
    if events != [] {
      LandsStep(s, events[0], j, k, d);
      LandsRun(Step(s, events[0]), events[1..], j, k, d);
    }
  }

  /**
   Create-once from end to end: once a create with operation key `op` has bound its session, every
   continuation that looks the session up afterwards reaches the deployment of the operation's row,
   or ends without activation, as long as no other deployment reports the session's id.
   */
  lemma CreateSticks(start: State, before: seq<Event>, i: nat, session: string, after: seq<Event>, op: SessionKey,
        j: nat)
    requires start.requests == []
    requires var s, e := Run(start, before), Respond(i, true, Some(session));
             && Enabled(s, e) && OperationKeyOf(s.requests[i]) == Some(op)
             && OnlyFrom(Step(s, e), after, (op.0, session), s.requests[i].phase.target.deploymentId)
             && (At(Step(s, e), j) ==> StillLooks(Step(s, e).requests[j]))
    requires var t := Run(Step(Run(start, before), Respond(i, true, Some(session))), after);
             At(t, j) && t.requests[j].kind == Continuation(session) && t.requests[j].route.projectId == op.0
    ensures var t := Run(Step(Run(start, before), Respond(i, true, Some(session))), after);
            && op in t.operations
            && (t.requests[j].reached.Some? ==> t.requests[j].reached.value == t.operations[op].deploymentId)
  {
    var s, e, k := Run(start, before), Respond(i, true, Some(session)), (op.0, session);
    var u, d := Step(s, e), s.requests[i].phase.target.deploymentId;
    RunKeeps(start, before);
    assert RequestOkAt(s, i);
    SessionBoundToOperation(s, i, true, Some(session));
    StepKeeps(s, e);
    RunKeeps(u, after);
    SessionKeptIff(u, after, k, d);
    LandsRun(u, after, j, k, d);
  }
}
