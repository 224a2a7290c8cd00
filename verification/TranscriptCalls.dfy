/**
 What a transcript says of each tool call, in terms of the events alone
 (packages/core/src/transcript.ts:209-310, 426-476): what it was asked as, how it ended, what it
 opened and used.
 */
module TranscriptCalls {
  import opened Prelude
  import opened TranscriptEvents
  import opened TranscriptFold
  import opened TranscriptStatus

  // ---------------------------------------------------------------------------
  // Which call an event names
  // ---------------------------------------------------------------------------

  /** The id of the call that an event is about, if it is about one. */
  function CallNamed(event: Event): Option<string> {
    var p := Payload(event);
    match event.kind
    case ActionResult => Truthy(Str(Rec(p, "result"), "callId"))
    case ChildOpened => Truthy(Str(Rec(p, "owner"), "callId"))
    case TaskStarted => Truthy(Str(p, "callId"))
    case AgentStarted => Truthy(Str(p, "callId"))
    case TaskSettled => Truthy(Str(p, "callId"))
    case CallSettled => Truthy(Str(p, "callId"))
    case _ => None
  }

  /** The call registered under that id before the event. */
  function NamedCall(s: State, event: Event): Option<nat> {
    var id := CallNamed(event);
    if id.Some? && id.value in s.callsById then Some(s.callsById[id.value]) else None
  }

  lemma NamedInRange(s: State, event: Event)
    requires Shaped(s)
    ensures NamedCall(s, event).Some? ==> NamedCall(s, event).value < |s.calls|
  {
    if NamedCall(s, event).Some? { assert CallOk(s, CallNamed(event).value); }
  }

  /** A result for a task's call, which is but a receipt. */
  predicate IsReceipt(s: State, event: Event) {
    event.kind.ActionResult? && CallNamed(event).Some? && CallNamed(event).value in s.taskCallIds
  }

  // ---------------------------------------------------------------------------
  // What a call was created as, and under which id it is known
  // ---------------------------------------------------------------------------

  /** The calls an event creates, before it. */
  function Created(s: State, e: Effect): seq<CallView> {
    match e
    case Request(_, _, calls) => calls
    case Result(_, _, result) => if Registered(s, result.callId).None? then [result] else []
    case _ => []
  }

  /** A call as it was created. */
  function CreatedAs(effects: seq<Effect>, c: nat): Option<CallView> {
    if effects == [] then None
    else
      var init := effects[..|effects| - 1];
      var n, created := |Fold(init).calls|, Created(Fold(init), effects[|effects| - 1]);
      if n <= c < n + |created| then Some(created[c - n]) else CreatedAs(init, c)
  }

  predicate SameIdentity(a: CallView, b: CallView) {
    && a.callId == b.callId && a.name == b.name && a.input == b.input
    && a.targetNodeId == b.targetNodeId && a.eventAt == b.eventAt
  }

  lemma StepCreates(s: State, e: Effect)
    requires Shaped(s)
    ensures |Step(s, e).calls| == |s.calls| + |Created(s, e)|
    ensures forall c | |s.calls| <= c < |Step(s, e).calls| :: Step(s, e).calls[c] == Created(s, e)[c - |s.calls|]
  {
    StepCallCount(s, e);
    if Enters(s, e) {
      StepOnTurn(s, e);
      EnterKeeps(s, e.turnId, e.at);
      if e.Request? { AddCallsAll(Enter(s, e.turnId, e.at), TurnAt(s, e.turnId), e.calls); }
    }
  }

  lemma StepKeepsIdentity(s: State, e: Effect, c: nat)
    requires Shaped(s) && c < |s.calls|
    ensures c < |Step(s, e).calls| && SameIdentity(Step(s, e).calls[c], s.calls[c])
  {
    OnlyNamedCallsChange(s, e, c);
    if Enters(s, e) {
      StepOnTurn(s, e);
      EnterKeeps(s, e.turnId, e.at);
      if e.Request? { AddCallsKeepCalls(Enter(s, e.turnId, e.at), TurnAt(s, e.turnId), e.calls, c); }
    } else if Registered(s, CallIdOf(e)).Some? {
      assert CallOk(s, CallIdOf(e).value);
    }
  }

  lemma {:induction false} CreatedIff(effects: seq<Effect>, c: nat)
    ensures CreatedAs(effects, c).Some? <==> c < |Fold(effects).calls|
  {
    if effects != [] {
      var init := effects[..|effects| - 1];
      CreatedIff(init, c);
      StepCreates(Fold(init), effects[|effects| - 1]);
    }
  }

  /** A call keeps the id, name, input, target and time it was created with. */
  lemma {:induction false} IdentityKept(effects: seq<Effect>, c: nat)
    requires c < |Fold(effects).calls|
    ensures CreatedAs(effects, c).Some? && SameIdentity(Fold(effects).calls[c], CreatedAs(effects, c).value)
  {
    CreatedIff(effects, c);
    if effects != [] {
      var init, e := effects[..|effects| - 1], effects[|effects| - 1];
      StepCreates(Fold(init), e);
      if c < |Fold(init).calls| {
        IdentityKept(init, c);
        StepKeepsIdentity(Fold(init), e, c);
      }
    }
  }

  /** The last of these calls with that id. */
  function LastWith(calls: seq<CallView>, id: string): (r: Option<nat>)
    ensures r.Some? ==> r.value < |calls| && calls[r.value].callId == Some(id)
    ensures forall j | (if r.Some? then r.value else -1) < j < |calls| :: calls[j].callId != Some(id)
  {
    if calls == [] then None
    else
      var rest := LastWith(calls[1..], id);
      if rest.Some? then Some(rest.value + 1)
      else if calls[0].callId == Some(id) then Some(0) else None
  }

  /** The last call that was requested under that id. */
  function LastRequested(effects: seq<Effect>, id: string): Option<nat> {
    if effects == [] then None
    else
      var init, e := effects[..|effects| - 1], effects[|effects| - 1];
      var requested := if e.Request? then LastWith(e.calls, id) else None;
      if requested.Some? then Some(|Fold(init).calls| + requested.value) else LastRequested(init, id)
  }

  function Known(s: State, id: string): Option<nat> {
    if id in s.callsById then Some(s.callsById[id]) else None
  }

  lemma {:induction false} AddCallsRegister(s: State, k: nat, calls: seq<CallView>, id: string)
    requires k < |s.turns| && id != ""
    ensures var last := LastWith(calls, id);
            Known(AddCalls(s, k, calls), id) == if last.Some? then Some(|s.calls| + last.value) else Known(s, id)
    decreases |calls|
  {
    if calls != [] { AddCallsRegister(AddCall(s, k, calls[0], true), k, calls[1..], id); }
  }

  lemma StepRegisters(s: State, e: Effect, id: string)
    requires Shaped(s) && id != ""
    ensures var last := if e.Request? then LastWith(e.calls, id) else None;
            Known(Step(s, e), id) == if last.Some? then Some(|s.calls| + last.value) else Known(s, id)
  {
    if Enters(s, e) {
      StepOnTurn(s, e);
      EnterKeeps(s, e.turnId, e.at);
      if e.Request? { AddCallsRegister(Enter(s, e.turnId, e.at), TurnAt(s, e.turnId), e.calls, id); }
    } else if Registered(s, CallIdOf(e)).Some? {
      assert CallOk(s, CallIdOf(e).value);
    }
  }

  /** An id names the last call that was requested under it. */
  lemma {:induction false} KnownIsLastRequested(effects: seq<Effect>, id: string)
    requires id != ""
    ensures Known(Fold(effects), id) == LastRequested(effects, id)
  {
    if effects != [] {
      var init := effects[..|effects| - 1];
      KnownIsLastRequested(init, id);
      StepRegisters(Fold(init), effects[|effects| - 1], id);
    }
  }

  /** A task was started for the id while it named a call. */
  predicate TaskSeen(stringify: Json -> string, events: seq<Event>, id: string) {
    events != [] &&
    var init, last := events[..|events| - 1], events[|events| - 1];
    || (last.kind.TaskStarted? && CallNamed(last) == Some(id) && NamedCall(After(stringify, init), last).Some?)
    || TaskSeen(stringify, init, id)
  }

  lemma StepTasks(s: State, e: Effect)
    requires Shaped(s)
    ensures Step(s, e).taskCallIds
         == s.taskCallIds + if e.StartTask? && Registered(s, e.callId).Some? then {e.callId.value} else {}
  {
    if Enters(s, e) {
      StepOnTurn(s, e);
      EnterKeeps(s, e.turnId, e.at);
      OnTurnItems(Enter(s, e.turnId, e.at), TurnAt(s, e.turnId), e);
    } else if Registered(s, CallIdOf(e)).Some? {
      assert CallOk(s, CallIdOf(e).value);
    }
  }

  /** Receipts are exactly the results for ids that a started task had named. */
  lemma {:induction false} TasksAreSeen(stringify: Json -> string, events: seq<Event>, id: string)
    ensures id in After(stringify, events).taskCallIds <==> TaskSeen(stringify, events, id)
  {
    if events != [] {
      var init, last := events[..|events| - 1], events[|events| - 1];
      TasksAreSeen(stringify, init, id);
      var e := LastCallEffect(stringify, events);
      StepTasks(After(stringify, init), e);
    }
  }

  // ---------------------------------------------------------------------------
  // How a call ended
  // ---------------------------------------------------------------------------

  datatype Ending = Ending(status: CallStatus, output: Json, errorText: Option<string>)

  /** What an event says of how its call ended. */
  function Said(event: Event): Option<Ending> {
    var p := Payload(event);
    match event.kind
    case TaskSettled =>
      var status := Str(p, "status");
      Some(
        if status == Some("failed") then
          Ending(CallFailed, Field(p, "output"), Or(ErrorMessage(p), Some("failed")))
        else if status == Some("cancelled") then
          Ending(CallCancelled, Field(p, "output"), Str(Rec(p, "cancel"), "reason"))
        else Ending(Done, Field(p, "output"), None))
    case CallSettled =>
      var outcome := Outcome(event);
      var why := Or(Or(ErrorMessage(p), Str(p, "reason")), outcome);
      Some(
        if outcome == Some("completed") then Ending(Done, Field(p, "output"), None)
        else if outcome == Some("interrupted") || outcome == Some("abandoned") then
          Ending(CallCancelled, Field(p, "output"), why)
        else Ending(CallFailed, Field(p, "output"), why))
    case ActionResult =>
      var result, status := Rec(p, "result"), Str(p, "status");
      Some(
        if status.None? || status == Some("completed") then Ending(Done, Field(result, "output"), None)
        else
          Ending(CallFailed, Field(result, "output"), Or(Or(ErrorMessage(result), ErrorMessage(p)), status)))
    case _ => None
  }

  function EndingOf(call: CallView): Ending {
    Ending(call.status, call.output, call.errorText)
  }

  /** What the call laws need to know of an event's effect. */
  predicate CallFacts(e: Effect, event: Event) {
    && CallNamed(event) == Truthy(CallIdOf(e))
    && (e.Result? <==> event.kind.ActionResult?)
    && (e.StartTask? <==> event.kind.TaskStarted?)
    && (e.OpenChild? <==> event.kind.AgentStarted? || event.kind.ChildOpened?)
    && (e.Cancel? <==> Verdict(event) == Some(StatusCancelled))
    && (e.Cancel? ==> e.turnId == Str(Payload(event), "turnId"))
    && Said(event) == (if e.EndCall? then Some(Ending(e.status, e.output, e.errorText))
                       else if e.Result? then Some(EndingOf(e.result)) else None)
    && (Said(event).Some? ==> !Said(event).value.status.Pending?)
    && (e.OpenChild? ==> e.session == Str(Payload(event), "sessionId"))
    && (e.StartTask? ==> (e.agent <==> Str(Payload(event), "kind") == Some("agent")))
    && (e.Result? ==> e.result.usage == UsageFrom(Get(Rec(Payload(event), "result"), "usage"))
                      && e.result.childEveSessionId.None?)
    && (e.Request? ==> forall call <- e.calls :: Bare(call))
  }

  /** A call as it is requested: pending, with nothing known of its end. */
  predicate Bare(call: CallView) {
    EndingOf(call) == Ending(Pending, Null, None) && call.childEveSessionId.None? && call.usage.None?
  }

  lemma CallFactsHold(stringify: Json -> string, event: Event)
    ensures CallFacts(Decode(stringify, event), event)
  {
    EndFactsHold(stringify, event);
    if event.kind.ActionsRequested? {
      match Get(Payload(event), "actions")
      case Some(List(actions)) => RequestedBare(actions, event.eventAt);
      case _ =>
    }
  }

  lemma EndFactsHold(stringify: Json -> string, event: Event)
    ensures var e := Decode(stringify, event);
            && CallNamed(event) == Truthy(CallIdOf(e))
            && Said(event) == (if e.EndCall? then Some(Ending(e.status, e.output, e.errorText))
                               else if e.Result? then Some(EndingOf(e.result)) else None)
            && (Said(event).Some? ==> !Said(event).value.status.Pending?)
  {
  }

  lemma {:induction false} RequestedBare(actions: seq<Json>, at: string)
    ensures forall call <- RequestedCalls(actions, at) :: Bare(call)
  {
    if actions != [] { RequestedBare(actions[1..], at); }
  }

  /** The last event's effect. */
  lemma LastCallEffect(stringify: Json -> string, events: seq<Event>) returns (e: Effect)
    requires events != []
    ensures After(stringify, events) == Step(After(stringify, events[..|events| - 1]), e)
    ensures CallFacts(e, events[|events| - 1])
    ensures Effects(stringify, events) == Effects(stringify, events[..|events| - 1]) + [e]
  {
    AfterLast(stringify, events);
    e := Decode(stringify, events[|events| - 1]);
    CallFactsHold(stringify, events[|events| - 1]);
  }

  /** The event ends call `c`: it names it and is no receipt, or is a result that nothing had requested. */
  predicate EndsCall(s: State, event: Event, c: nat) {
    && Said(event).Some?
    && ((NamedCall(s, event) == Some(c) && !IsReceipt(s, event))
        || (event.kind.ActionResult? && NamedCall(s, event).None? && c == |s.calls|))
  }

  /** The event cancels the turn that shows call `c`. */
  predicate CancelsTurnOf(after: State, event: Event, c: nat) {
    && Verdict(event) == Some(StatusCancelled)
    && exists k | 0 <= k < |after.turns| :: IsAbout(after, Str(Payload(event), "turnId"), k)
        && Tool(c) in after.turns[k].items
  }

  /** How a call ended, if it did: as the last event that ends it says, or cancelled while it was pending. */
  function CallEnd(stringify: Json -> string, events: seq<Event>, c: nat): Option<Ending> {
    if events == [] then None
    else
      var init, last := events[..|events| - 1], events[|events| - 1];
      var before := CallEnd(stringify, init, c);
      if EndsCall(After(stringify, init), last, c) then Said(last)
      else if before.None? && c < |After(stringify, init).calls|
          && CancelsTurnOf(After(stringify, events), last, c) then
        Some(Ending(CallCancelled, Null, Some("Turn cancelled")))
      else before
  }

  /** A call's ending, or what it shows while it is pending. */
  function Shown(end: Option<Ending>): Ending {
    if end.Some? then end.value else Ending(Pending, Null, None)
  }

  /** The ending of an old call after an effect. */
  lemma StepEnds(s: State, e: Effect, c: nat)
    requires Shaped(s) && c < |s.calls|
    ensures c < |Step(s, e).calls|
    ensures var was, mine := EndingOf(s.calls[c]), Registered(s, CallIdOf(e)) == Some(c);
            EndingOf(Step(s, e).calls[c])
            == if mine && e.EndCall? then Ending(e.status, e.output, e.errorText)
               else if mine && e.Result? && e.result.callId.value !in s.taskCallIds then EndingOf(e.result)
               else if e.Cancel? && Tool(c) in ItemsAt(s, TurnAt(s, e.turnId)) && was.status.Pending? then
                 Ending(CallCancelled, was.output, Some("Turn cancelled"))
               else was
  {
    OnlyNamedCallsChange(s, e, c);
    if Enters(s, e) {
      StepOnTurn(s, e);
      EnterKeeps(s, e.turnId, e.at);
      if e.Request? { AddCallsKeepCalls(Enter(s, e.turnId, e.at), TurnAt(s, e.turnId), e.calls, c); }
    } else if Registered(s, CallIdOf(e)).Some? {
      assert CallOk(s, CallIdOf(e).value);
    }
  }

  /** Cancelling shows no new call, so that the calls of the turn are those it showed before. */
  lemma CancelledTurn(s: State, e: Effect, c: nat)
    requires Shaped(s) && e.Cancel?
    ensures (exists k | 0 <= k < |Step(s, e).turns| ::
               IsAbout(Step(s, e), e.turnId, k) && Tool(c) in Step(s, e).turns[k].items)
       <==> Tool(c) in ItemsAt(s, TurnAt(s, e.turnId))
  {
    var k := TurnAt(s, e.turnId);
    StepItems(s, e, k);
    EnterKeeps(s, e.turnId, e.at);
    StepOnTurn(s, e);
    OnTurnItems(Enter(s, e.turnId, e.at), k, e);
    forall j | 0 <= j < |Step(s, e).turns| ensures IsAbout(Step(s, e), e.turnId, j) <==> j == k {
      AboutIsTurnAt(s, e, j);
    }
    assert IsAbout(Step(s, e), e.turnId, k);
  }

  lemma {:induction false} NotYetEnded(stringify: Json -> string, events: seq<Event>, c: nat)
    requires |After(stringify, events).calls| <= c
    ensures CallEnd(stringify, events, c).None?
  {
    if events != [] {
      var init, last := events[..|events| - 1], events[|events| - 1];
      var s := After(stringify, init);
      var e := LastCallEffect(stringify, events);
      StepCreates(s, e);
      NotYetEnded(stringify, init, c);
      NamedInRange(s, last);
    }
  }

  /**
   A call's status, output and error are what the last event that ended it says, or those of a
   cancellation of its turn while it was pending; else it is pending.
   */
  lemma {:induction false} CallEndIs(stringify: Json -> string, events: seq<Event>, c: nat)
    requires c < |After(stringify, events).calls|
    ensures EndingOf(After(stringify, events).calls[c]) == Shown(CallEnd(stringify, events, c))
  {
    if events != [] {
      var init, last := events[..|events| - 1], events[|events| - 1];
      var s := After(stringify, init);
      var e := LastCallEffect(stringify, events);
      if c < |s.calls| {
        CallEndIs(stringify, init, c);
        EndedFor(stringify, init, c);
        OldCallEnds(e, last, s, c, CallEnd(stringify, init, c));
      } else {
        NotYetEnded(stringify, init, c);
        NewCallEnds(e, last, s, c);
      }
    }
  }

  lemma {:induction false} EndedFor(stringify: Json -> string, events: seq<Event>, c: nat)
    ensures CallEnd(stringify, events, c).Some? ==> !CallEnd(stringify, events, c).value.status.Pending?
  {
    if events != [] {
      EndedFor(stringify, events[..|events| - 1], c);
      var e := LastCallEffect(stringify, events);
    }
  }

  lemma OldCallEnds(e: Effect, last: Event, s: State, c: nat, before: Option<Ending>)
    requires Shaped(s) && CallFacts(e, last) && c < |s.calls| && EndingOf(s.calls[c]) == Shown(before)
    requires before.Some? ==> !before.value.status.Pending?
    ensures var t := Step(s, e);
            && c < |t.calls|
            && EndingOf(t.calls[c])
               == if EndsCall(s, last, c) then Said(last).value
                  else if before.None? && CancelsTurnOf(t, last, c) then
                    Ending(CallCancelled, Null, Some("Turn cancelled"))
                  else Shown(before)
  {
    StepEnds(s, e, c);
    if e.Cancel? { CancelledTurn(s, e, c); }
  }

  lemma NewCallEnds(e: Effect, last: Event, s: State, c: nat)
    requires Shaped(s) && CallFacts(e, last) && |s.calls| <= c < |Step(s, e).calls|
    ensures EndingOf(Step(s, e).calls[c])
         == if EndsCall(s, last, c) then Said(last).value else Ending(Pending, Null, None)
  {
    StepCreates(s, e);
    NamedInRange(s, last);
    if e.Request? { assert e.calls[c - |s.calls|] in e.calls; }
  }

  // ---------------------------------------------------------------------------
  // What a call opened and used
  // ---------------------------------------------------------------------------

  /** The session that a call opened, as the last event says that says so. */
  function SessionOpened(stringify: Json -> string, events: seq<Event>, c: nat): Option<string> {
    if events == [] then None
    else
      var init, last := events[..|events| - 1], events[|events| - 1];
      if OpensSession(After(stringify, init), last, c) then
        Str(Payload(last), "sessionId")
      else SessionOpened(stringify, init, c)
  }

  /** What the last result that is no receipt says the call used. */
  function UsedByCall(stringify: Json -> string, events: seq<Event>, c: nat): Option<Usage> {
    if events == [] then None
    else
      var init, last := events[..|events| - 1], events[|events| - 1];
      if last.kind.ActionResult? && EndsCall(After(stringify, init), last, c) then
        UsageFrom(Get(Rec(Payload(last), "result"), "usage"))
      else UsedByCall(stringify, init, c)
  }

  /** The other fields of an old call after an effect. */
  lemma StepOpens(s: State, e: Effect, c: nat)
    requires Shaped(s) && c < |s.calls|
    ensures c < |Step(s, e).calls|
    ensures var was, now, mine := s.calls[c], Step(s, e).calls[c], Registered(s, CallIdOf(e)) == Some(c);
            && now.childEveSessionId == (if mine && e.OpenChild? then e.session else was.childEveSessionId)
            && (now.isSubagent <==> was.isSubagent || (mine && (e.OpenChild? || (e.StartTask? && e.agent))))
            && now.usage == (if mine && e.Result? && e.result.callId.value !in s.taskCallIds then e.result.usage
                            else was.usage)
  {
    OnlyNamedCallsChange(s, e, c);
    if Enters(s, e) {
      StepOnTurn(s, e);
      EnterKeeps(s, e.turnId, e.at);
      if e.Request? { AddCallsKeepCalls(Enter(s, e.turnId, e.at), TurnAt(s, e.turnId), e.calls, c); }
    } else if Registered(s, CallIdOf(e)).Some? {
      assert CallOk(s, CallIdOf(e).value);
    }
  }

  lemma {:induction false} NothingYet(stringify: Json -> string, events: seq<Event>, c: nat)
    requires |After(stringify, events).calls| <= c
    ensures SessionOpened(stringify, events, c).None? && UsedByCall(stringify, events, c).None?
  {
    if events != [] {
      var init, last := events[..|events| - 1], events[|events| - 1];
      var s := After(stringify, init);
      var e := LastCallEffect(stringify, events);
      StepCreates(s, e);
      NothingYet(stringify, init, c);
      NamedInRange(s, last);
    }
  }

  /** A call shows the session it last opened, and what its last result that is no receipt used. */
  lemma {:induction false} CallOpensIs(stringify: Json -> string, events: seq<Event>, c: nat)
    requires c < |After(stringify, events).calls|
    ensures var call := After(stringify, events).calls[c];
            && call.childEveSessionId == SessionOpened(stringify, events, c)
            && call.usage == UsedByCall(stringify, events, c)
  {
    if events != [] {
      var init, last := events[..|events| - 1], events[|events| - 1];
      var s := After(stringify, init);
      var e := LastCallEffect(stringify, events);
      if c < |s.calls| {
        CallOpensIs(stringify, init, c);
        OldCallOpens(e, last, s, c);
      } else {
        NothingYet(stringify, init, c);
        NewCallOpens(e, last, s, c);
      }
    }
  }

  /** The effect opens the call's session, or starts it as an agent's task. */
  predicate MakesAgents(s: State, e: Effect, c: nat) {
    Registered(s, CallIdOf(e)) == Some(c) && (e.OpenChild? || (e.StartTask? && e.agent))
  }

  predicate CreatesForAgents(s: State, e: Effect, c: nat) {
    var created := Created(s, e);
    |s.calls| <= c < |s.calls| + |created| && created[c - |s.calls|].isSubagent
  }

  /** The call was created as an agent's, opened a session, or was started as an agent's task. */
  predicate IsAgents(effects: seq<Effect>, c: nat) {
    effects != [] &&
    var init, e := effects[..|effects| - 1], effects[|effects| - 1];
    IsAgents(init, c) || MakesAgents(Fold(init), e, c) || CreatesForAgents(Fold(init), e, c)
  }

  lemma RegisteredInRange(s: State, e: Effect)
    requires Shaped(s)
    ensures var c := Registered(s, CallIdOf(e)); c.Some? ==> c.value < |s.calls|
  {
    if Registered(s, CallIdOf(e)).Some? { assert CallOk(s, CallIdOf(e).value); }
  }

  lemma {:induction false} NoAgentsYet(effects: seq<Effect>, c: nat)
    requires |Fold(effects).calls| <= c
    ensures !IsAgents(effects, c)
  {
    if effects != [] {
      var init, e := effects[..|effects| - 1], effects[|effects| - 1];
      StepCreates(Fold(init), e);
      NoAgentsYet(init, c);
      RegisteredInRange(Fold(init), e);
    }
  }

  lemma AgentsStep(s: State, e: Effect, c: nat)
    requires Shaped(s) && c < |Step(s, e).calls|
    ensures Step(s, e).calls[c].isSubagent
       <==> (c < |s.calls| && s.calls[c].isSubagent) || MakesAgents(s, e, c) || CreatesForAgents(s, e, c)
  {
    StepCreates(s, e);
    RegisteredInRange(s, e);
    if c < |s.calls| { StepOpens(s, e, c); }
  }

  lemma {:induction false} AgentsCallIs(effects: seq<Effect>, c: nat)
    requires c < |Fold(effects).calls|
    ensures Fold(effects).calls[c].isSubagent <==> IsAgents(effects, c)
  {
    if effects != [] {
      var init := effects[..|effects| - 1];
      AgentsStep(Fold(init), effects[|effects| - 1], c);
      if c < |Fold(init).calls| { AgentsCallIs(init, c); } else { NoAgentsYet(init, c); }
    }
  }

  predicate OpensSession(s: State, event: Event, c: nat) {
    (event.kind.AgentStarted? || event.kind.ChildOpened?) && NamedCall(s, event) == Some(c)
  }

  lemma OldCallOpens(e: Effect, last: Event, s: State, c: nat)
    requires Shaped(s) && CallFacts(e, last) && c < |s.calls|
    ensures var t := Step(s, e);
            && c < |t.calls|
            && t.calls[c].childEveSessionId
               == (if OpensSession(s, last, c) then Str(Payload(last), "sessionId") else s.calls[c].childEveSessionId)
            && t.calls[c].usage
               == (if last.kind.ActionResult? && EndsCall(s, last, c) then
                     UsageFrom(Get(Rec(Payload(last), "result"), "usage"))
                   else s.calls[c].usage)
  {
    StepOpens(s, e, c);
  }

  lemma NewCallOpens(e: Effect, last: Event, s: State, c: nat)
    requires Shaped(s) && CallFacts(e, last) && |s.calls| <= c < |Step(s, e).calls|
    ensures var call := Step(s, e).calls[c];
            && call.childEveSessionId.None? && NamedCall(s, last) != Some(c)
            && call.usage
               == (if last.kind.ActionResult? && EndsCall(s, last, c) then
                     UsageFrom(Get(Rec(Payload(last), "result"), "usage")) else None)
  {
    StepCreates(s, e);
    NamedInRange(s, last);
    if e.Request? { assert e.calls[c - |s.calls|] in e.calls; }
  }
}
