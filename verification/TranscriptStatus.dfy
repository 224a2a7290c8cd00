/**
 What a transcript says of each turn and each call, in terms of the events alone
 (packages/core/src/transcript.ts:178-583): how they ended, what they used, what they opened.
 */
module TranscriptStatus {
  import opened Prelude
  import opened TranscriptEvents
  import opened TranscriptFold

  function Payload(event: Event): Fields {
    AsRecord(Some(event.payload))
  }

  function Outcome(event: Event): Option<string> {
    Str(Payload(event), "outcome")
  }

  /** The state after a list of events. */
  function After(stringify: Json -> string, events: seq<Event>): (s: State)
    ensures Shaped(s)
  {
    Fold(Effects(stringify, events))
  }

  lemma AfterLast(stringify: Json -> string, events: seq<Event>)
    requires events != []
    ensures After(stringify, events)
         == Step(After(stringify, events[..|events| - 1]), Decode(stringify, events[|events| - 1]))
  {
    assert Effects(stringify, events)[..|events| - 1] == Effects(stringify, events[..|events| - 1]);
  }

  // ---------------------------------------------------------------------------
  // The turn an event is about
  // ---------------------------------------------------------------------------

  /** The turn with the id the event names, or the last turn if it names none; in the state after it. */
  predicate IsAbout(after: State, turnId: Option<string>, k: nat) {
    && k < |after.turns|
    && if Truthy(turnId).Some? then after.turns[k].turnId == turnId else k == |after.turns| - 1
  }

  predicate SameIds(a: seq<Turn>, b: seq<Turn>) {
    |a| == |b| && forall j | 0 <= j < |a| :: a[j].turnId == b[j].turnId
  }

  lemma {:induction false} AddCallsIds(s: State, k: nat, calls: seq<CallView>)
    requires k < |s.turns|
    ensures SameIds(AddCalls(s, k, calls).turns, s.turns)
    decreases |calls|
  {
    if calls != [] { AddCallsIds(AddCall(s, k, calls[0], true), k, calls[1..]); }
  }

  lemma OnTurnIds(s: State, k: nat, e: Effect)
    requires k < |s.turns|
    ensures SameIds(OnTurn(s, k, e).turns, s.turns)
  {
    if e.Request? { AddCallsIds(s, k, e.calls); }
  }

  /** An effect that enters a turn enters the one it is about. */
  lemma AboutIsTurnAt(s: State, e: Effect, k: nat)
    requires Shaped(s) && Enters(s, e)
    ensures IsAbout(Step(s, e), e.turnId, k) <==> k == TurnAt(s, e.turnId)
  {
    StepOnTurn(s, e);
    EnterKeeps(s, e.turnId, e.at);
    var entered, j := Enter(s, e.turnId, e.at), TurnAt(s, e.turnId);
    OnTurnIds(entered, j, e);
    if k < |entered.turns| { assert TurnOk(entered, k) && TurnOk(entered, j); }
  }

  // ---------------------------------------------------------------------------
  // How a turn ended
  // ---------------------------------------------------------------------------

  /** What an event says of how its turn ended. */
  function Verdict(event: Event): Option<TurnStatus> {
    match event.kind
    case TurnCompleted => Some(StatusDone)
    case TurnFailed => Some(StatusFailed)
    case TurnCancelled => Some(StatusCancelled)
    case TurnSettled =>
      if Outcome(event) == Some("completed") then Some(StatusDone)
      else if Outcome(event) == Some("failed") then Some(StatusFailed)
      else if Outcome(event) == Some("cancelled") then Some(StatusCancelled)
      else None
    case _ => None
  }

  predicate FailsSession(event: Event) {
    event.kind.SessionFailed? || (event.kind.SessionEnded? && Outcome(event) == Some("failed"))
  }

  predicate LastAbout(stringify: Json -> string, events: seq<Event>, k: nat)
    requires events != []
  {
    IsAbout(After(stringify, events), Str(Payload(events[|events| - 1]), "turnId"), k)
  }

  /** The last verdict about a turn. */
  function LastVerdict(stringify: Json -> string, events: seq<Event>, k: nat): Option<TurnStatus> {
    if events == [] then None
    else
      var verdict := Verdict(events[|events| - 1]);
      if verdict.Some? && LastAbout(stringify, events, k) then verdict
      else LastVerdict(stringify, events[..|events| - 1], k)
  }

  /** Some event fails the session in that turn. */
  predicate FailedIn(stringify: Json -> string, events: seq<Event>, k: nat) {
    events != [] &&
    (|| (FailsSession(events[|events| - 1]) && LastAbout(stringify, events, k))
     || FailedIn(stringify, events[..|events| - 1], k))
  }

  function StatusAt(s: State, k: nat): TurnStatus {
    if k < |s.turns| then s.turns[k].status else Incomplete
  }

  /** A turn's status before and after an effect that is about it. */
  function Moved(status: TurnStatus, e: Effect): TurnStatus {
    if e.Settle? then e.outcome
    else if e.Cancel? then StatusCancelled
    else if e.FailSession? && status.Incomplete? then StatusFailed
    else status
  }

  lemma StatusStep(s: State, e: Effect, k: nat)
    requires Shaped(s)
    ensures StatusAt(Step(s, e), k)
         == if Enters(s, e) && k == TurnAt(s, e.turnId) then Moved(StatusAt(s, k), e) else StatusAt(s, k)
  {
    if Enters(s, e) {
      StepOnTurn(s, e);
      EnterKeeps(s, e.turnId, e.at);
      var entered, j := Enter(s, e.turnId, e.at), TurnAt(s, e.turnId);
      OnTurnItems(entered, j, e);
      if e.Request? { AddCallsKeepStatus(entered, j, e.calls); }
    } else {
      StepOffTurn(s, e);
    }
  }

  /** What the turn laws need to know of an event's effect. */
  predicate TurnFacts(e: Effect, event: Event) {
    && Verdict(event) == (if e.Settle? then Some(e.outcome) else if e.Cancel? then Some(StatusCancelled) else None)
    && (FailsSession(event) <==> e.FailSession?)
    && (e.Spend? <==> Counts(event))
    && (e.Spend? ==> e.usage == UsageCounted(event))
    && (e.Settle? || e.Cancel? || e.FailSession? || e.Spend? ==> e.turnId == Str(Payload(event), "turnId"))
    && Verdict(event) != Some(Incomplete)
  }

  lemma TurnFactsHold(stringify: Json -> string, event: Event)
    ensures TurnFacts(Decode(stringify, event), event)
  {
    CountedUsage(stringify, event);
  }

  /** The last event's effect. */
  lemma LastEffect(stringify: Json -> string, events: seq<Event>) returns (e: Effect)
    requires events != []
    ensures After(stringify, events) == Step(After(stringify, events[..|events| - 1]), e)
    ensures TurnFacts(e, events[|events| - 1])
  {
    AfterLast(stringify, events);
    e := Decode(stringify, events[|events| - 1]);
    TurnFactsHold(stringify, events[|events| - 1]);
  }

  /**
   A turn's status is the last verdict about it; without one it is failed exactly if the session
   failed in it, and incomplete otherwise.
   */
  lemma {:induction false} TurnStatusIs(stringify: Json -> string, events: seq<Event>, k: nat)
    ensures var verdict := LastVerdict(stringify, events, k);
            StatusAt(After(stringify, events), k)
            == if verdict.Some? then verdict.value
               else if FailedIn(stringify, events, k) then StatusFailed else Incomplete
  {
    if events != [] {
      var init, last := events[..|events| - 1], events[|events| - 1];
      TurnStatusIs(stringify, init, k);
      VerdictEnds(stringify, init, k);
      var s := After(stringify, init);
      var e := LastEffect(stringify, events);
      StatusStep(s, e, k);
      if Enters(s, e) { AboutIsTurnAt(s, e, k); }
    }
  }

  lemma {:induction false} VerdictEnds(stringify: Json -> string, events: seq<Event>, k: nat)
    ensures LastVerdict(stringify, events, k) != Some(Incomplete)
  {
    if events != [] {
      var e := LastEffect(stringify, events);
      VerdictEnds(stringify, events[..|events| - 1], k);
    }
  }

  // ---------------------------------------------------------------------------
  // What a turn used
  // ---------------------------------------------------------------------------

  /** The sum of what the counted events about a turn report. */
  function UsedIn(stringify: Json -> string, events: seq<Event>, k: nat): Usage {
    if events == [] then NO_USAGE
    else
      var before := UsedIn(stringify, events[..|events| - 1], k);
      if Counts(events[|events| - 1]) && LastAbout(stringify, events, k) then
        Plus(before, UsageCounted(events[|events| - 1]))
      else before
  }

  predicate AnyUsed(stringify: Json -> string, events: seq<Event>, k: nat) {
    events != [] &&
    (|| (Counts(events[|events| - 1]) && LastAbout(stringify, events, k))
     || AnyUsed(stringify, events[..|events| - 1], k))
  }

  function UsageAt(s: State, k: nat): Option<Usage> {
    if k < |s.turns| then s.turns[k].usage else None
  }

  lemma UsageStep(s: State, e: Effect, k: nat)
    requires Shaped(s)
    ensures UsageAt(Step(s, e), k)
         == if e.Spend? && k == TurnAt(s, e.turnId) then AddUsage(UsageAt(s, k), e.usage) else UsageAt(s, k)
  {
    if Enters(s, e) {
      StepOnTurn(s, e);
      EnterKeeps(s, e.turnId, e.at);
      OnTurnItems(Enter(s, e.turnId, e.at), TurnAt(s, e.turnId), e);
    } else {
      StepOffTurn(s, e);
    }
  }

  lemma NothingPlus(u: Usage)
    ensures Plus(NO_USAGE, u) == u
  {
  }

  /** A turn's usage is that sum, and is there exactly if some counted event is about the turn. */
  lemma {:induction false} TurnUsageIs(stringify: Json -> string, events: seq<Event>, k: nat)
    ensures var usage := UsageAt(After(stringify, events), k);
            && (usage.Some? <==> AnyUsed(stringify, events, k))
            && (if usage.Some? then usage.value else NO_USAGE) == UsedIn(stringify, events, k)
  {
    if events != [] {
      var init, last := events[..|events| - 1], events[|events| - 1];
      TurnUsageIs(stringify, init, k);
      var s := After(stringify, init);
      var e := LastEffect(stringify, events);
      UsageStep(s, e, k);
      if e.Spend? {
        AboutIsTurnAt(s, e, k);
        NothingPlus(e.usage);
      }
    }
  }

  // ---------------------------------------------------------------------------
  // What an event shows
  // ---------------------------------------------------------------------------

  /** The entry that an event adds, if it adds one that is no call. */
  function EntryAdded(e: Effect): Option<Entry> {
    var added := Added(0, e);
    if added != [] && added[0].Plain? then Some(added[0].entry) else None
  }

  function HeadingAdded(e: Effect): Option<string> {
    match EntryAdded(e)
    case Some(System(heading, _, _)) => Some(heading)
    case _ => None
  }

  /** Input that nobody typed. */
  predicate IsWakeUp(event: Event) {
    event.kind.MessageReceived? && Str(Payload(event), "kind") == Some("execution.background_task")
  }

  /** Old and new names of an event show the same: what the user said... */
  lemma UserShown(stringify: Json -> string, event: Event, text: string)
    ensures EntryAdded(Decode(stringify, event)) == Some(User(text, event.eventAt))
       <==> ((event.kind.MessageReceived? && !IsWakeUp(event)) || event.kind.DeliveryConsumed?)
            && text == MessageText(Payload(event))
  {
  }

  /** A wake-up shows nothing, but is about a turn all the same, which it opens if need be. */
  lemma WakeUpOpensTurn(stringify: Json -> string, events: seq<Event>, event: Event)
    requires IsWakeUp(event)
    ensures EntryAdded(Decode(stringify, event)).None?
    ensures exists k :: IsAbout(After(stringify, events + [event]), Str(Payload(event), "turnId"), k)
  {
    var s, e := After(stringify, events), Decode(stringify, event);
    assert (events + [event])[..|events|] == events;
    AfterLast(stringify, events + [event]);
    AboutIsTurnAt(s, e, TurnAt(s, e.turnId));
  }

  function Content(stringify: Json -> string, event: Event): Option<string> {
    if event.kind.ContentCompleted? then ContentText(stringify, Payload(event)) else None
  }

  /** ...what the agent said... */
  lemma AssistantShown(stringify: Json -> string, event: Event, text: string)
    ensures var kind := Str(Payload(event), "kind");
            EntryAdded(Decode(stringify, event)) == Some(Assistant(text, event.eventAt))
            <==> || (event.kind.MessageCompleted? && text == MessageText(Payload(event)))
                 || (Content(stringify, event) == Some(text) && kind != Some("reasoning")
                     && (kind == Some("text") || kind == Some("result")))
  {
  }

  /** ...and what it thought, unless that is nothing. */
  lemma ReasoningShown(stringify: Json -> string, event: Event, text: string)
    ensures EntryAdded(Decode(stringify, event)) == Some(Reasoning(text, event.eventAt))
       <==> || (event.kind.ReasoningCompleted? && text != "" && text == MessageText(Payload(event)))
            || (Content(stringify, event) == Some(text) && Str(Payload(event), "kind") == Some("reasoning"))
  {
    match event.kind
    case ReasoningCompleted => assert Content(stringify, event).None?;
    case ContentCompleted => assert !event.kind.ReasoningCompleted?;
    case _ => assert Content(stringify, event).None?;
  }

  predicate AsksForSignIn(event: Event) {
    Str(Rec(Payload(event), "request"), "kind") == Some("sign-in")
  }

  predicate AsksForInput(event: Event) {
    event.kind.InputRequested? || (event.kind.InteractionOpened? && !AsksForSignIn(event))
  }

  predicate NeedsAuthorization(event: Event) {
    event.kind.AuthorizationRequired? || (event.kind.InteractionOpened? && AsksForSignIn(event))
  }

  predicate FailsStep(event: Event) {
    event.kind.StepFailed? || (event.kind.ModelSettled? && Outcome(event) == Some("failed"))
  }

  /** A notice says that the turn, the session or a step failed, the turn was cancelled, or somebody is asked. */
  lemma NoticesShown(stringify: Json -> string, event: Event)
    ensures HeadingAdded(Decode(stringify, event))
         == if Verdict(event) == Some(StatusFailed) then Some("Turn failed")
            else if Verdict(event) == Some(StatusCancelled) then Some("Turn cancelled")
            else if FailsSession(event) then Some("Session failed")
            else if FailsStep(event) then Some("Step failed")
            else if AsksForInput(event) then Some("Input requested")
            else if NeedsAuthorization(event) then Some("Authorization required")
            else if event.kind.AuthorizationCompleted? || event.kind.InteractionSettled? then
              Some("Authorization completed")
            else None
  {
  }

  // ---------------------------------------------------------------------------
  // Which interactions were sign-ins
  // ---------------------------------------------------------------------------

  /** The kind under which an interaction was last opened. */
  function LastOpenedAs(effects: seq<Effect>, id: string): Option<string> {
    if effects == [] then None
    else
      var last := effects[|effects| - 1];
      if last.OpenInteraction? && last.interaction == Some(id) then Some(last.kind)
      else LastOpenedAs(effects[..|effects| - 1], id)
  }

  function KindKnown(s: State, id: string): Option<string> {
    if id in s.interactionKinds then Some(s.interactionKinds[id]) else None
  }

  lemma {:induction false} AddCallsKinds(s: State, k: nat, calls: seq<CallView>)
    requires k < |s.turns|
    ensures AddCalls(s, k, calls).interactionKinds == s.interactionKinds
    decreases |calls|
  {
    if calls != [] { AddCallsKinds(AddCall(s, k, calls[0], true), k, calls[1..]); }
  }

  lemma KindsStep(s: State, e: Effect, id: string)
    requires Shaped(s) && id != ""
    ensures KindKnown(Step(s, e), id)
         == if e.OpenInteraction? && e.interaction == Some(id) then Some(e.kind) else KindKnown(s, id)
  {
    if Enters(s, e) {
      StepOnTurn(s, e);
      EnterKeeps(s, e.turnId, e.at);
      if e.Request? { AddCallsKinds(Enter(s, e.turnId, e.at), TurnAt(s, e.turnId), e.calls); }
    } else if Registered(s, CallIdOf(e)).Some? {
      assert CallOk(s, CallIdOf(e).value);
    }
  }

  lemma {:induction false} KindIsLastOpened(effects: seq<Effect>, id: string)
    requires id != ""
    ensures KindKnown(Fold(effects), id) == LastOpenedAs(effects, id)
  {
    if effects != [] {
      KindIsLastOpened(effects[..|effects| - 1], id);
      KindsStep(Fold(effects[..|effects| - 1]), effects[|effects| - 1], id);
    }
  }

  /** A settled interaction is shown exactly if it was last opened as a sign-in; else nothing changes. */
  lemma SignInsAreShown(effects: seq<Effect>, e: Effect)
    requires e.SettleInteraction?
    ensures Enters(Fold(effects), e) <==>
              e.interaction.Some? && e.interaction.value != ""
                  && LastOpenedAs(effects, e.interaction.value) == Some("sign-in")
    ensures !Enters(Fold(effects), e) ==> Step(Fold(effects), e) == Fold(effects)
  {
    if Truthy(e.interaction).Some? { KindIsLastOpened(effects, e.interaction.value); }
  }
}
