/**
 How the canonical playground route sends a turn and settles its session
 (apps/api/src/app-canonical-playground-route.ts:204-352).
 */
module PlaygroundRoute {
  import opened Prelude

  datatype Kind = Initial | Continuation | OtherRequest

  /** `version` is the resolved credential's, if it has one; `recovers` says that its provider can recover. */
  datatype Route = Route(kind: Kind, hasSession: bool, version: Option<int>, recovers: bool, hasOperationId: bool)

  datatype Upstream = Response(status: nat, refusesId: bool) | Unreachable

  datatype Reaction = GiveUp | GoOn | RecoveryThrew

  datatype Current = Changed | Failing | Fresh(version: int) | ResolutionThrew

  /** What the world answers, should it be asked. */
  datatype World = World(first: Upstream, recovery: Reaction, current: Current, second: Upstream, replay: Upstream)

  /** The credential a request carries, and whether its body names the operation. */
  datatype Step =
    | Sent(credential: Option<int>, named: bool)
    | Recovered(rejected: int, attempt: nat)
    | SessionFailed
    | SessionSettled

  datatype Answer = Relayed(status: nat) | Refused

  predicate IsTurn(route: Route) {
    route.kind != OtherRequest && route.hasSession
  }

  predicate Ok(status: nat) {
    200 <= status < 300
  }

  // ---------------------------------------------------------------------------
  // Which requests are made
  // ---------------------------------------------------------------------------

  predicate Unauthorized(reply: Upstream) {
    reply.Response? && reply.status == 401
  }

  /** The first 401 is recovered from, if the provider can and the credential has a version. */
  predicate Recovering(route: Route, world: World) {
    Unauthorized(world.first) && route.recovers && route.version.Some?
  }

  /** The recovery lets the turn go on, with a credential resolved anew. */
  predicate Retried(route: Route, world: World) {
    Recovering(route, world) && world.recovery.GoOn? && world.current.Fresh?
  }

  /** The reply to the last request that named the operation, if the route has one. */
  function LastAsked(route: Route, world: World): Upstream {
    if Retried(route, world) then world.second else world.first
  }

  /** The agent refuses the injected operation id, so the request is replayed without it. */
  predicate Replayed(route: Route, world: World) {
    var reply := LastAsked(route, world);
    route.hasOperationId && reply.Response? && reply.status == 400 && reply.refusesId
  }

  function LastReply(route: Route, world: World): Upstream {
    if Replayed(route, world) then world.replay else LastAsked(route, world)
  }

  /** No request was unreachable, a recovery led to a second request, and that one was let in. */
  predicate Reaches(route: Route, world: World) {
    && world.first.Response?
    && (Recovering(route, world) ==> Retried(route, world) && world.second.Response? && world.second.status != 401)
    && (Replayed(route, world) ==> world.replay.Response?)
  }

  /** The credential that the last request carries. */
  function Carried(route: Route, world: World): Option<int> {
    if Retried(route, world) then Some(world.current.version) else route.version
  }

  /** All requests and recoveries, in order. */
  function Course(route: Route, world: World): seq<Step> {
    var first, replay := Sent(route.version, route.hasOperationId), Sent(Carried(route, world), false);
    if !Recovering(route, world) then
      if Replayed(route, world) then [first, replay] else [first]
    else
      var recovered := Recovered(route.version.value, 0);
      if !Retried(route, world) then [first, recovered]
      else
        var renewed := Sent(Carried(route, world), route.hasOperationId);
        if Unauthorized(world.second) then [first, recovered, renewed, Recovered(world.current.version, 1)]
        else if Replayed(route, world) then [first, recovered, renewed, replay]
        else [first, recovered, renewed]
  }

  function Sends(trace: seq<Step>): seq<Step> {
    if trace == [] then []
    else Sends(trace[..|trace| - 1]) + if trace[|trace| - 1].Sent? then [trace[|trace| - 1]] else []
  }

  function Recoveries(trace: seq<Step>): seq<Step> {
    if trace == [] then []
    else Recoveries(trace[..|trace| - 1]) + if trace[|trace| - 1].Recovered? then [trace[|trace| - 1]] else []
  }

  /** How often the session's stored status was settled. */
  function Settlements(trace: seq<Step>): seq<Step> {
    if trace == [] then []
    else
      var last := trace[|trace| - 1];
      Settlements(trace[..|trace| - 1]) + if last.SessionFailed? || last.SessionSettled? then [last] else []
  }

  lemma Snoc(trace: seq<Step>, step: Step)
    ensures Sends(trace + [step]) == Sends(trace) + if step.Sent? then [step] else []
    ensures Recoveries(trace + [step]) == Recoveries(trace) + if step.Recovered? then [step] else []
    ensures Settlements(trace + [step])
         == Settlements(trace) + if step.SessionFailed? || step.SessionSettled? then [step] else []
  {
    assert (trace + [step])[..|trace|] == trace;
  }

  class Turn {
    const route: Route
    const world: World
    var trace: seq<Step>
    /** The credential of the last request: the one a replay carries. */
    var lastCredential: Option<int>

    constructor (route: Route, world: World)
      ensures this.route == route && this.world == world && trace == []
    {
      this.route, this.world, trace, lastCredential := route, world, [], None;
    }

    method Record(step: Step)
      modifies this`trace
      ensures trace == old(trace) + [step]
    {
      trace := trace + [step];
    }

    method Proxy(credential: Option<int>, named: bool)
      modifies this
      ensures trace == old(trace) + [Sent(credential, named)]
      ensures lastCredential == credential
    {
      lastCredential := credential;
      Record(Sent(credential, named));
    }

    method FailActiveTurn()
      modifies this`trace
      ensures trace == if IsTurn(route) then old(trace) + [SessionFailed] else old(trace)
    {
      if IsTurn(route) { Record(SessionFailed); }
    }

    /** The requests of the `try` block: None when it answers the client itself or something throws. */
    method Deliver() returns (upstream: Option<Upstream>)
      requires trace == []
      modifies this
      ensures trace == Course(route, world)
      ensures upstream.Some? <==> Reaches(route, world)
      ensures upstream.Some? ==> upstream.value == LastReply(route, world) && upstream.value.Response?
    {
      Proxy(route.version, route.hasOperationId);
      var reply := world.first;
      if reply.Unreachable? { return None; }
      if reply.status == 401 && route.recovers && route.version.Some? {
        Record(Recovered(route.version.value, 0));
        if !world.recovery.GoOn? || !world.current.Fresh? { return None; }
        Proxy(Some(world.current.version), route.hasOperationId);
        reply := world.second;
        if reply.Unreachable? { return None; }
        if reply.status == 401 {
          Record(Recovered(world.current.version, 1));
          return None;
        }
      }
      if route.hasOperationId && reply.status == 400 && reply.refusesId {
        Proxy(lastCredential, false);
        if world.replay.Unreachable? { return None; }
        reply := world.replay;
      }
      return Some(reply);
    }

    /**
     A turn's session is settled exactly once: as taken exactly if the last reply came and is a 2xx,
     else as failed. The reply that came is relayed. A request that is no turn settles nothing here.
     */
    method Run() returns (answer: Answer)
      requires trace == []
      modifies this
      ensures answer == if Reaches(route, world) then Relayed(LastReply(route, world).status) else Refused
      ensures var taken := Reaches(route, world) && LastReply(route, world).status / 100 == 2;
              trace == if (route.kind.Initial? || route.kind.Continuation?) && route.hasSession
                       then Course(route, world) + [if taken then SessionSettled else SessionFailed]
                       else Course(route, world)
      ensures Settlements(trace)
           == if !IsTurn(route) then []
              else if answer.Relayed? && Ok(answer.status) then [SessionSettled] else [SessionFailed]
    {
      var upstream := Deliver();
      SettledOnce(route, world);
      if upstream.None? {
        FailActiveTurn();
        return Refused;
      }
      if !Ok(upstream.value.status) {
        FailActiveTurn();
      } else if IsTurn(route) {
        Record(SessionSettled);
      }
      return Relayed(upstream.value.status);
    }
  }

  // ---------------------------------------------------------------------------
  // What a turn may send
  // ---------------------------------------------------------------------------

  lemma Of1(a: Step)
    requires a.Sent?
    ensures Sends([a]) == [a] && Recoveries([a]) == [] && Settlements([a]) == []
  {
    Snoc([], a);
    assert [] + [a] == [a];
  }

  lemma Of2(a: Step, b: Step)
    requires a.Sent? && (b.Sent? || b.Recovered?)
    ensures Sends([a, b]) == (if b.Sent? then [a, b] else [a])
    ensures Recoveries([a, b]) == (if b.Sent? then [] else [b]) && Settlements([a, b]) == []
  {
    Of1(a);
    Snoc([a], b);
    assert [a] + [b] == [a, b];
  }

  lemma Of3(a: Step, b: Step, c: Step)
    requires a.Sent? && b.Recovered? && c.Sent?
    ensures Sends([a, b, c]) == [a, c] && Recoveries([a, b, c]) == [b] && Settlements([a, b, c]) == []
  {
    Of2(a, b);
    Snoc([a, b], c);
    assert [a, b] + [c] == [a, b, c];
  }

  lemma Of4(a: Step, b: Step, c: Step, d: Step)
    requires a.Sent? && b.Recovered? && c.Sent? && (d.Sent? || d.Recovered?)
    ensures Sends([a, b, c, d]) == (if d.Sent? then [a, c, d] else [a, c])
    ensures Recoveries([a, b, c, d]) == (if d.Sent? then [b] else [b, d]) && Settlements([a, b, c, d]) == []
  {
    Of3(a, b, c);
    Snoc([a, b, c], d);
    assert [a, b, c] + [d] == [a, b, c, d];
  }

  /**
   At most two requests name the operation, and at most one more does not: a replay of the last one,
   with its credential. The second is made only after a recovery from a 401, with the credential that
   was resolved anew.
   */
  lemma CourseSends(route: Route, world: World)
    ensures var sends := Sends(Course(route, world));
            var first, last := Sent(route.version, route.hasOperationId), Sent(Carried(route, world), false);
            if Retried(route, world) then
              var renewed := Sent(Some(world.current.version), route.hasOperationId);
              sends == if Replayed(route, world) then [first, renewed, last] else [first, renewed]
            else
              sends == if Replayed(route, world) then [first, last] else [first]
    ensures Settlements(Course(route, world)) == []
  {
    Courses(route, world);
  }

  /** The recoveries are about the version just rejected, as attempts 0 and 1. */
  lemma CourseRecoveries(route: Route, world: World)
    ensures var recoveries := Recoveries(Course(route, world));
            if !Recovering(route, world) then recoveries == []
            else if Retried(route, world) && Unauthorized(world.second) then
              recoveries == [Recovered(route.version.value, 0), Recovered(world.current.version, 1)]
            else
              recoveries == [Recovered(route.version.value, 0)]
  {
    Courses(route, world);
  }

  lemma Courses(route: Route, world: World)
    ensures var course := Course(route, world);
            && 1 <= |course| <= 4 && Settlements(course) == []
            && (|course| == 1 ==> Sends(course) == [course[0]] && Recoveries(course) == [])
            && (|course| == 2 ==>
                  && Sends(course) == (if course[1].Sent? then [course[0], course[1]] else [course[0]])
                  && Recoveries(course) == (if course[1].Sent? then [] else [course[1]]))
            && (|course| == 3 ==> Sends(course) == [course[0], course[2]] && Recoveries(course) == [course[1]])
            && (|course| == 4 ==>
                  var sent := course[3].Sent?;
                  && Sends(course) == (if sent then [course[0], course[2], course[3]] else [course[0], course[2]])
                  && Recoveries(course) == (if sent then [course[1]] else [course[1], course[3]]))
  {
    var first, replay := Sent(route.version, route.hasOperationId), Sent(Carried(route, world), false);
    var renewed := Sent(Carried(route, world), route.hasOperationId);
    if !Recovering(route, world) {
      if Replayed(route, world) { Of2(first, replay); } else { Of1(first); }
    } else if !Retried(route, world) {
      Of2(first, Recovered(route.version.value, 0));
    } else if Unauthorized(world.second) {
      Of4(first, Recovered(route.version.value, 0), renewed, Recovered(world.current.version, 1));
    } else if Replayed(route, world) {
      Of4(first, Recovered(route.version.value, 0), renewed, replay);
    } else {
      Of3(first, Recovered(route.version.value, 0), renewed);
    }
  }

  lemma SettledOnce(route: Route, world: World)
    ensures Settlements(Course(route, world)) == []
    ensures Settlements(Course(route, world) + [SessionFailed]) == [SessionFailed]
    ensures Settlements(Course(route, world) + [SessionSettled]) == [SessionSettled]
  {
    Courses(route, world);
    Snoc(Course(route, world), SessionFailed);
    Snoc(Course(route, world), SessionSettled);
  }

  /** The replies to the requests that are sent. */
  function Replies(route: Route, world: World): seq<Upstream> {
    ([world.first]
     + (if Retried(route, world) then [world.second] else []))
    + (if Replayed(route, world) then [world.replay] else [])
  }

  /**
   There is one reply for each request, and the last of them is the one handed on, exactly if all of
   them came, and a recovery led to a second request that was let in.
   */
  lemma RepliesMatchSends(route: Route, world: World)
    ensures |Replies(route, world)| == |Sends(Course(route, world))|
    ensures Replies(route, world)[|Replies(route, world)| - 1] == LastReply(route, world)
    ensures Reaches(route, world) <==>
              && (forall reply <- Replies(route, world) :: reply.Response?)
              && (Recovering(route, world) ==> Retried(route, world) && !Unauthorized(world.second))
  {
    CourseSends(route, world);
  }
}
