/** The events a transcript is built from, read as the effects they have (packages/core/src/transcript.ts). */
module TranscriptEvents {
  import opened Prelude

  /** A JSON value; a key an object lacks is what the source reads as `undefined`. */
  datatype Json =
    | Null
    | Bool(bool)
    | Number(real)
    | Text(string)
    | List(seq<Json>)
    | Object(map<string, Json>)

  /** The event types the fold tells apart, by their names: message.received, message.completed and so on. */
  datatype EventKind =
    | MessageReceived | MessageCompleted | ReasoningCompleted | ActionsRequested | ActionResult
    | TaskStarted | AgentStarted | TaskSettled | StepCompleted | TurnCompleted | TurnFailed
    | TurnCancelled | StepFailed | SessionFailed | InputRequested | AuthorizationRequired
    | AuthorizationCompleted | DeliveryConsumed | ContentCompleted | CallRequested | CallSettled
    | ChildOpened | UsageRecorded | ModelSettled | TurnSettled | SessionEnded | InteractionOpened
    | InteractionSettled | OtherKind

  datatype Event = Event(kind: EventKind, payload: Json, eventAt: string)

  datatype Usage = Usage(input: real, output: real, cacheRead: real, cacheWrite: real)

  datatype CallStatus = Done | CallFailed | CallCancelled | Pending

  datatype TurnStatus = StatusDone | StatusFailed | StatusCancelled | Incomplete

  /** A tool call as the transcript shows it, without the child session it may have. */
  datatype CallView = CallView(
    callId: Option<string>,
    name: string,
    isSubagent: bool,
    input: Json,
    output: Json,
    status: CallStatus,
    errorText: Option<string>,
    usage: Option<Usage>,
    targetNodeId: Option<string>,
    childEveSessionId: Option<string>,
    eventAt: string)

  /** An item that is not a tool call. */
  datatype Entry =
    | User(text: string, at: string)
    | Assistant(text: string, at: string)
    | Reasoning(text: string, at: string)
    | System(heading: string, note: Option<string>, at: string)

  /** What one event asks of the transcript. `turnId` names the turn it is about, if it does. */
  datatype Effect =
    | Ignored
    | Touch(turnId: Option<string>, at: string)
    | Say(turnId: Option<string>, at: string, entry: Entry)
    | Request(turnId: Option<string>, at: string, calls: seq<CallView>)
    | Result(turnId: Option<string>, at: string, result: CallView)
    | StartTask(callId: Option<string>, agent: bool)
    | OpenChild(callId: Option<string>, session: Option<string>)
    | EndCall(callId: Option<string>, status: CallStatus, output: Json, errorText: Option<string>)
    | Spend(turnId: Option<string>, at: string, usage: Usage)
    | Settle(turnId: Option<string>, at: string, outcome: TurnStatus, remark: Option<Entry>)
    | Cancel(turnId: Option<string>, at: string)
    | FailSession(turnId: Option<string>, at: string, entry: Entry)
    | OpenInteraction(turnId: Option<string>, at: string, interaction: Option<string>, kind: string, entry: Entry)
    | SettleInteraction(turnId: Option<string>, at: string, interaction: Option<string>, entry: Entry)

  // ---------------------------------------------------------------------------
  // Reading a payload
  // ---------------------------------------------------------------------------

  type Fields = map<string, Json>

  function AsString(value: Option<Json>): Option<string> {
    match value
    case Some(Text(s)) => Some(s)
    case _ => None
  }

  /** The fields of an object; anything else has none. */
  function AsRecord(value: Option<Json>): Fields {
    match value
    case Some(Object(fields)) => fields
    case _ => map[]
  }

  function Get(fields: Fields, key: string): Option<Json> {
    if key in fields then Some(fields[key]) else None
  }

  function Str(fields: Fields, key: string): Option<string> {
    AsString(Get(fields, key))
  }

  function Rec(fields: Fields, key: string): Fields {
    AsRecord(Get(fields, key))
  }

  /** The `??` of the source. */
  function Or(a: Option<string>, b: Option<string>): Option<string> {
    if a.Some? then a else b
  }

  /** The `if (s)` of the source: null and the empty string are both absent. */
  function Truthy(s: Option<string>): Option<string> {
    if s == Some("") then None else s
  }

  /** `"key" in record ? record.key : null` */
  function Field(fields: Fields, key: string): Json {
    if key in fields then fields[key] else Null
  }

  function AsNumber(value: Option<Json>): real {
    match value
    case Some(Number(x)) => x
    case _ => 0.0
  }

  function UsageFrom(value: Option<Json>): Option<Usage> {
    match value
    case Some(Object(u)) =>
      Some(Usage(
             AsNumber(Get(u, "inputTokens")), AsNumber(Get(u, "outputTokens")),
             AsNumber(Get(u, "cacheReadTokens")), AsNumber(Get(u, "cacheWriteTokens"))))
    case _ => None
  }

  function PartTexts(parts: seq<Json>): string {
    if parts == [] then ""
    else
      var text := Str(AsRecord(Some(parts[0])), "text");
      (if text.Some? then text.value else "") + PartTexts(parts[1..])
  }

  function MessageText(p: Fields): string {
    var direct := Or(Or(Str(p, "message"), Str(p, "text")), Str(p, "content"));
    if direct.Some? then direct.value
    else match Get(p, "parts")
         case Some(List(parts)) => PartTexts(parts)
         case _ => ""
  }

  function ErrorMessage(p: Fields): Option<string> {
    Or(Or(Str(p, "error"), Str(Rec(p, "error"), "message")), Or(Str(p, "reason"), Str(p, "message")))
  }

  function ContentText(stringify: Json -> string, p: Fields): Option<string> {
    match Get(p, "value")
    case Some(Text(s)) => Truthy(Some(s))
    case Some(Null) => Truthy(Str(p, "fallbackText"))
    case None => Truthy(Str(p, "fallbackText"))
    case Some(value) => Truthy(Some(stringify(value)))
  }

  // ---------------------------------------------------------------------------
  // Tool calls
  // ---------------------------------------------------------------------------

  function ActionName(action: Fields, kind: string): string {
    var name := Or(Or(Str(action, "toolName"), Str(action, "name")), Str(action, "subagentName"));
    if name.Some? then name.value else if kind != "" then kind else "tool"
  }

  function KindOf(action: Fields): string {
    var kind := Str(action, "kind");
    if kind.Some? then kind.value else ""
  }

  function RequestedCall(action: Fields, at: string): CallView {
    var kind := KindOf(action);
    CallView(
      Str(action, "callId"), ActionName(action, kind), StartsWith(kind, "subagent"),
      Field(action, "input"), Null, Pending, None, None, Str(action, "nodeId"), None, at)
  }

  /** The entries of `actions` that are not objects are skipped. */
  function RequestedCalls(actions: seq<Json>, at: string): seq<CallView> {
    if actions == [] then []
    else
      (match actions[0]
       case Object(action) => [RequestedCall(action, at)]
       case _ => []) + RequestedCalls(actions[1..], at)
  }

  /** An action's result as the call it would be shown as, had nothing requested it. */
  function ResultCall(p: Fields, at: string): CallView {
    var result := Rec(p, "result");
    var status := Str(p, "status");
    var failed := status.Some? && status.value != "completed";
    var kind := KindOf(result);
    CallView(
      Str(result, "callId"), ActionName(result, kind), StartsWith(kind, "subagent"),
      Null, Field(result, "output"), if failed then CallFailed else Done,
      if failed then Or(Or(ErrorMessage(result), ErrorMessage(p)), status) else None,
      UsageFrom(Get(result, "usage")), None, None, at)
  }

  function CapabilityCall(p: Fields, at: string): CallView {
    var capability := Rec(p, "capability");
    var kind := Str(capability, "kind");
    var name := Or(Or(Str(capability, "name"), kind), Some("tool"));
    CallView(
      Str(p, "callId"), name.value, kind == Some("agent"),
      Field(p, "input"), Null, Pending, None, None, None, None, at)
  }

  function EndTask(p: Fields): Effect {
    var status := Str(p, "status");
    if status == Some("failed") then
      EndCall(Str(p, "callId"), CallFailed, Field(p, "output"), Or(ErrorMessage(p), Some("failed")))
    else if status == Some("cancelled") then
      EndCall(Str(p, "callId"), CallCancelled, Field(p, "output"), Str(Rec(p, "cancel"), "reason"))
    else
      EndCall(Str(p, "callId"), Done, Field(p, "output"), None)
  }

  function EndCapability(p: Fields): Effect {
    var outcome := Str(p, "outcome");
    if outcome == Some("completed") then EndCall(Str(p, "callId"), Done, Field(p, "output"), None)
    else
      EndCall(
        Str(p, "callId"),
        if outcome == Some("interrupted") || outcome == Some("abandoned") then CallCancelled else CallFailed,
        Field(p, "output"),
        Or(Or(ErrorMessage(p), Str(p, "reason")), outcome))
  }

  // ---------------------------------------------------------------------------
  // One event
  // ---------------------------------------------------------------------------

  function Note(p: Fields, at: string, heading: string, note: Option<string>): Effect {
    Say(Str(p, "turnId"), at, System(heading, note, at))
  }

  function Decode(stringify: Json -> string, event: Event): Effect {
    var p, at := AsRecord(Some(event.payload)), event.eventAt;
    var turn := Str(p, "turnId");
    match event.kind
    case MessageReceived =>
      if Str(p, "kind") == Some("execution.background_task") then Touch(turn, at)
      else Say(turn, at, User(MessageText(p), at))
    case MessageCompleted => Say(turn, at, Assistant(MessageText(p), at))
    case ReasoningCompleted =>
      if MessageText(p) == "" then Ignored else Say(turn, at, Reasoning(MessageText(p), at))
    case ActionsRequested =>
      Request(turn, at, match Get(p, "actions") case Some(List(actions)) => RequestedCalls(actions, at) case _ => [])
    case ActionResult => Result(turn, at, ResultCall(p, at))
    case TaskStarted => StartTask(Str(p, "callId"), Str(p, "kind") == Some("agent"))
    case AgentStarted => OpenChild(Str(p, "callId"), Str(p, "sessionId"))
    case TaskSettled => EndTask(p)
    case StepCompleted =>
      var usage := UsageFrom(Get(p, "usage"));
      if usage.Some? then Spend(turn, at, usage.value) else Ignored
    case TurnCompleted => Settle(turn, at, StatusDone, None)
    case TurnFailed => Settle(turn, at, StatusFailed, Some(System("Turn failed", ErrorMessage(p), at)))
    case TurnCancelled => Cancel(turn, at)
    case StepFailed => Note(p, at, "Step failed", ErrorMessage(p))
    case SessionFailed => FailSession(turn, at, System("Session failed", ErrorMessage(p), at))
    case InputRequested =>
      var prompt := Or(Str(Rec(p, "request"), "prompt"), Str(p, "prompt"));
      Note(p, at, "Input requested", Or(prompt, Truthy(Some(MessageText(p)))))
    case AuthorizationRequired =>
      Note(p, at, "Authorization required", Or(Str(p, "displayName"), Str(p, "description")))
    case AuthorizationCompleted => Note(p, at, "Authorization completed", Str(p, "outcome"))
    case DeliveryConsumed => Say(turn, at, User(MessageText(p), at))
    case ContentCompleted =>
      var text := ContentText(stringify, p);
      if text.None? then Ignored
      else if Str(p, "kind") == Some("reasoning") then Say(turn, at, Reasoning(text.value, at))
      else if Str(p, "kind") == Some("text") || Str(p, "kind") == Some("result") then
        Say(turn, at, Assistant(text.value, at))
      else Touch(turn, at)
    case CallRequested =>
      if Str(Rec(p, "capability"), "kind") == Some("control") then Ignored
      else Request(turn, at, [CapabilityCall(p, at)])
    case CallSettled => EndCapability(p)
    case ChildOpened => OpenChild(Str(Rec(p, "owner"), "callId"), Str(p, "sessionId"))
    case UsageRecorded =>
      var owner, usage := Rec(p, "owner"), UsageFrom(Get(p, "usage"));
      if (Truthy(Str(owner, "runId")).Some? || Truthy(Str(owner, "changeId")).Some?) && usage.Some? then
        Spend(turn, at, usage.value)
      else Ignored
    case ModelSettled =>
      if Str(p, "outcome") == Some("failed") then Note(p, at, "Step failed", ErrorMessage(p)) else Ignored
    case TurnSettled =>
      var outcome := Str(p, "outcome");
      if outcome == Some("completed") then Settle(turn, at, StatusDone, None)
      else if outcome == Some("failed") then
        Settle(turn, at, StatusFailed, Some(System("Turn failed", ErrorMessage(p), at)))
      else if outcome == Some("cancelled") then Cancel(turn, at)
      else Touch(turn, at)
    case SessionEnded =>
      if Str(p, "outcome") == Some("failed") then
        FailSession(turn, at, System("Session failed", ErrorMessage(p), at))
      else Ignored
    case InteractionOpened =>
      var request := Rec(p, "request");
      var kind := Or(Str(request, "kind"), Some("question")).value;
      var signIn := Rec(request, "signIn");
      OpenInteraction(
        turn, at, Str(p, "interactionId"), kind,
        if kind == "sign-in" then
          System(
            "Authorization required",
            Or(Or(Str(signIn, "displayName"), Str(signIn, "name")), Str(request, "prompt")), at)
        else System("Input requested", Str(request, "prompt"), at))
    case InteractionSettled =>
      SettleInteraction(
        turn, at, Str(p, "interactionId"), System("Authorization completed", Str(p, "outcome"), at))
    case OtherKind => Ignored
  }

  function Effects(stringify: Json -> string, events: seq<Event>): seq<Effect> {
    seq(|events|, i requires 0 <= i < |events| => Decode(stringify, events[i]))
  }

  /** Usage counts when a step reports it, or when a record says that a run or a change owns it. */
  predicate Counts(event: Event) {
    var p := AsRecord(Some(event.payload));
    var owner := Rec(p, "owner");
    && UsageFrom(Get(p, "usage")).Some?
    && (event.kind.StepCompleted?
        || (event.kind.UsageRecorded?
            && (Truthy(Str(owner, "runId")).Some? || Truthy(Str(owner, "changeId")).Some?)))
  }

  lemma CountedUsage(stringify: Json -> string, event: Event)
    ensures var e := Decode(stringify, event);
            && (e.Spend? <==> Counts(event))
            && (e.Spend? ==> Some(e.usage) == UsageFrom(Get(AsRecord(Some(event.payload)), "usage")))
            && (e.Result? <==> event.kind.ActionResult?)
  {
  }
}
