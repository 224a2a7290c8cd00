/**
 buildTranscriptTurns (packages/core/src/transcript.ts:150-584) as a fold over effects, and what the
 fold keeps. TranscriptBuilder proves the in-place algorithm against it.
 */
module TranscriptFold {
  import opened Prelude
  import opened TranscriptEvents

  /** A tool call is named by its place in the order in which calls were created. */
  datatype Item = Plain(entry: Entry) | Tool(call: nat)

  datatype Turn = Turn(
    turnId: Option<string>,
    startedAt: string,
    items: seq<Item>,
    userMessage: Option<string>,
    assistantMessage: Option<string>,
    status: TurnStatus,
    usage: Option<Usage>)

  datatype State = State(
    turns: seq<Turn>,
    turnsById: map<string, nat>,
    calls: seq<CallView>,
    callsById: map<string, nat>,
    taskCallIds: set<string>,
    interactionKinds: map<string, string>)

  const EMPTY: State := State([], map[], [], map[], {}, map[])

  // ---------------------------------------------------------------------------
  // The fold
  // ---------------------------------------------------------------------------

  predicate Named(id: Option<string>) {
    Truthy(id).Some?
  }

  predicate Known(s: State, turnId: Option<string>) {
    if Named(turnId) then turnId.value in s.turnsById else s.turns != []
  }

  /** The state once the turn an event is about exists. */
  function Enter(s: State, turnId: Option<string>, at: string): State {
    if Known(s, turnId) then s
    else
      s.(turns := s.turns + [Turn(turnId, at, [], None, None, Incomplete, None)],
         turnsById := if Named(turnId) then s.turnsById[turnId.value := |s.turns|] else s.turnsById)
  }

  /** The place of that turn. */
  function TurnAt(s: State, turnId: Option<string>): nat {
    if !Known(s, turnId) then |s.turns|
    else if Named(turnId) then s.turnsById[turnId.value]
    else |s.turns| - 1
  }

  function Post(t: Turn, entry: Entry): Turn {
    var more := t.(items := t.items + [Plain(entry)]);
    match entry
    case User(text, _) => more.(userMessage := Or(t.userMessage, Some(text)))
    case Assistant(text, _) => more.(assistantMessage := Some(text))
    case _ => more
  }

  function SetTurn(s: State, k: nat, t: Turn): State
    requires k < |s.turns|
  {
    s.(turns := s.turns[k := t])
  }

  function NewCall(s: State, call: CallView, registers: bool): State {
    s.(calls := s.calls + [call],
       callsById := if registers && Named(call.callId) then s.callsById[call.callId.value := |s.calls|]
                    else s.callsById)
  }

  function ShowCall(s: State, k: nat, c: nat): State
    requires k < |s.turns|
  {
    SetTurn(s, k, s.turns[k].(items := s.turns[k].items + [Tool(c)]))
  }

  function AddCall(s: State, k: nat, call: CallView, registers: bool): State
    requires k < |s.turns|
  {
    ShowCall(NewCall(s, call, registers), k, |s.calls|)
  }

  function AddCalls(s: State, k: nat, calls: seq<CallView>): (r: State)
    requires k < |s.turns|
    ensures |r.turns| == |s.turns|
    decreases |calls|
  {
    if calls == [] then s else AddCalls(AddCall(s, k, calls[0], true), k, calls[1..])
  }

  /** The call registered under an id. */
  function Registered(s: State, callId: Option<string>): Option<nat> {
    if Named(callId) && callId.value in s.callsById then Some(s.callsById[callId.value]) else None
  }

  function SetCall(s: State, c: nat, call: CallView): State
    requires c < |s.calls|
  {
    s.(calls := s.calls[c := call])
  }

  function CancelPending(call: CallView): CallView {
    if call.status.Pending? then call.(status := CallCancelled, errorText := Some("Turn cancelled")) else call
  }

  function CancelCalls(calls: seq<CallView>, items: seq<Item>): seq<CallView> {
    seq(|calls|, c requires 0 <= c < |calls| => if Tool(c) in items then CancelPending(calls[c]) else calls[c])
  }

  lemma CancelSnoc(calls: seq<CallView>, items: seq<Item>, item: Item)
    ensures var so := CancelCalls(calls, items);
            CancelCalls(calls, items + [item])
            == if item.Tool? && item.call < |calls| then so[item.call := CancelPending(so[item.call])] else so
  {
  }

  function AddUsage(base: Option<Usage>, extra: Usage): Option<Usage> {
    Some(if base.None? then extra else Plus(base.value, extra))
  }

  function Plus(a: Usage, b: Usage): Usage {
    Usage(a.input + b.input, a.output + b.output, a.cacheRead + b.cacheRead, a.cacheWrite + b.cacheWrite)
  }

  function Received(call: CallView, result: CallView): CallView {
    call.(output := result.output, status := result.status, errorText := result.errorText, usage := result.usage)
  }

  function Opened(call: CallView, session: Option<string>): CallView {
    call.(isSubagent := true, childEveSessionId := session)
  }

  function Ended(call: CallView, e: Effect): CallView
    requires e.EndCall?
  {
    call.(status := e.status, output := e.output, errorText := e.errorText)
  }

  /** What the effects that add no call do to the turn they enter. */
  function TurnAfter(t: Turn, e: Effect): Turn {
    match e
    case Say(_, _, entry) => Post(t, entry)
    case Spend(_, _, usage) => t.(usage := AddUsage(t.usage, usage))
    case Settle(_, _, outcome, remark) =>
      if remark.Some? then Post(t.(status := outcome), remark.value) else t.(status := outcome)
    case Cancel(_, at) => Post(t.(status := StatusCancelled), System("Turn cancelled", None, at))
    case FailSession(_, _, entry) =>
      Post(t, entry).(status := if t.status.Incomplete? then StatusFailed else t.status)
    case OpenInteraction(_, _, _, _, entry) => Post(t, entry)
    case SettleInteraction(_, _, _, entry) => Post(t, entry)
    case _ => t
  }

  function KindsAfter(kinds: map<string, string>, e: Effect): map<string, string> {
    if e.OpenInteraction? && Named(e.interaction) then kinds[e.interaction.value := e.kind] else kinds
  }

  /** The effects that concern a turn, whose place in the entered state is `k`. */
  function OnTurn(s: State, k: nat, e: Effect): (r: State)
    requires k < |s.turns|
  {
    match e
    case Request(_, _, calls) => AddCalls(s, k, calls)
    case Result(_, _, result) => AddCall(s, k, result, false)
    case _ =>
      SetTurn(s, k, TurnAfter(s.turns[k], e))
        .(interactionKinds := KindsAfter(s.interactionKinds, e),
          calls := if e.Cancel? then CancelCalls(s.calls, s.turns[k].items) else s.calls)
  }

  function CallAfter(call: CallView, e: Effect): CallView {
    match e
    case Result(_, _, result) => Received(call, result)
    case StartTask(_, agent) => if agent then call.(isSubagent := true) else call
    case OpenChild(_, session) => Opened(call, session)
    case EndCall(_, _, _, _) => Ended(call, e)
    case _ => call
  }

  function TasksAfter(tasks: set<string>, e: Effect): set<string> {
    if e.StartTask? && e.callId.Some? then tasks + {e.callId.value} else tasks
  }

  /** The effects that concern a registered call `c`; a task's result is only a receipt. */
  function OnCall(s: State, c: nat, e: Effect): State
    requires c < |s.calls|
  {
    if e.Result? && e.result.callId.Some? && e.result.callId.value in s.taskCallIds then s
    else SetCall(s, c, CallAfter(s.calls[c], e)).(taskCallIds := TasksAfter(s.taskCallIds, e))
  }

  predicate AboutCall(e: Effect) {
    e.StartTask? || e.OpenChild? || e.EndCall?
  }

  /** The id an effect looks a call up by. */
  function CallIdOf(e: Effect): Option<string> {
    match e
    case Result(_, _, result) => result.callId
    case StartTask(callId, _) => callId
    case OpenChild(callId, _) => callId
    case EndCall(callId, _, _, _) => callId
    case _ => None
  }

  /** Whether an effect enters a turn. */
  predicate Enters(s: State, e: Effect) {
    match e
    case Ignored => false
    case Result(_, _, result) => Registered(s, result.callId).None?
    case SettleInteraction(_, _, interaction, _) =>
      && Named(interaction)
      && interaction.value in s.interactionKinds
      && s.interactionKinds[interaction.value] == "sign-in"
    case _ => !AboutCall(e)
  }

  function Step(s: State, e: Effect): State
    requires Shaped(s)
  {
    if Enters(s, e) then
      EnterKeeps(s, e.turnId, e.at);
      OnTurn(Enter(s, e.turnId, e.at), TurnAt(s, e.turnId), e)
    else if Registered(s, CallIdOf(e)).Some? then
      assert CallOk(s, CallIdOf(e).value);
      OnCall(s, Registered(s, CallIdOf(e)).value, e)
    else s
  }

  function From(s: State, effects: seq<Effect>): (r: State)
    requires Shaped(s)
    ensures Shaped(r)
  {
    if effects == [] then s
    else
      var before := From(s, effects[..|effects| - 1]);
      StepKeeps(before, effects[|effects| - 1]);
      Step(before, effects[|effects| - 1])
  }

  lemma FromSnoc(s: State, effects: seq<Effect>, i: nat)
    requires Shaped(s) && i < |effects|
    ensures From(s, effects[..i + 1]) == Step(From(s, effects[..i]), effects[i])
  {
    assert effects[..i + 1][..i] == effects[..i];
  }

  /** buildTranscriptTurns. */
  function Fold(effects: seq<Effect>): State {
    From(EMPTY, effects)
  }

  // ---------------------------------------------------------------------------
  // Turns, calls and their indexes
  // ---------------------------------------------------------------------------

  ghost predicate TurnOk(s: State, k: nat)
    requires k < |s.turns|
  {
    if Named(s.turns[k].turnId) then
      s.turns[k].turnId.value in s.turnsById && s.turnsById[s.turns[k].turnId.value] == k
    else k == 0
  }

  ghost predicate IndexOk(s: State, id: string)
    requires id in s.turnsById
  {
    s.turnsById[id] < |s.turns| && s.turns[s.turnsById[id]].turnId == Some(id) && id != ""
  }

  ghost predicate CallOk(s: State, id: string)
    requires id in s.callsById
  {
    s.callsById[id] < |s.calls| && s.calls[s.callsById[id]].callId == Some(id) && id != ""
  }

  /**
   The turns and their index agree, so ids are unique; only the first turn may be without one.
   Registered calls carry the id they are registered under; only registered calls become tasks.
   */
  ghost predicate Shaped(s: State) {
    && (forall k {:trigger TurnOk(s, k)} | 0 <= k < |s.turns| :: TurnOk(s, k))
    && (forall id {:trigger IndexOk(s, id)} | id in s.turnsById :: IndexOk(s, id))
    && (forall id {:trigger CallOk(s, id)} | id in s.callsById :: CallOk(s, id))
    && s.taskCallIds <= s.callsById.Keys
  }

  lemma EnterKeeps(s: State, turnId: Option<string>, at: string)
    requires Shaped(s)
    ensures var r, k := Enter(s, turnId, at), TurnAt(s, turnId);
            && Shaped(r)
            && k < |r.turns|
            && s.turns <= r.turns
            && (Named(turnId) ==> r.turns[k].turnId == turnId)
            && (!Named(turnId) ==> k == |r.turns| - 1)
            && (k >= |s.turns| ==> r.turns == s.turns + [Turn(turnId, at, [], None, None, Incomplete, None)])
  {
    var r := Enter(s, turnId, at);
    if Known(s, turnId) {
      if Named(turnId) { assert IndexOk(s, turnId.value); }
    } else {
      forall k | 0 <= k < |r.turns| ensures TurnOk(r, k) {
        if k < |s.turns| { assert TurnOk(s, k); }
      }
      forall id | id in r.turnsById ensures IndexOk(r, id) {
        if id in s.turnsById { assert IndexOk(s, id); }
      }
      forall id | id in r.callsById ensures CallOk(r, id) { assert CallOk(s, id); }
    }
  }

  lemma SetTurnKeeps(s: State, k: nat, t: Turn, calls: seq<CallView>, kinds: map<string, string>)
    requires Shaped(s) && k < |s.turns| && t.turnId == s.turns[k].turnId
    requires |calls| == |s.calls| && forall c | 0 <= c < |calls| :: calls[c].callId == s.calls[c].callId
    ensures Shaped(SetTurn(s.(calls := calls), k, t).(interactionKinds := kinds))
  {
    var r := SetTurn(s.(calls := calls), k, t).(interactionKinds := kinds);
    forall j | 0 <= j < |r.turns| ensures TurnOk(r, j) { assert TurnOk(s, j); }
    forall id | id in r.turnsById ensures IndexOk(r, id) { assert IndexOk(s, id); }
    forall id | id in r.callsById ensures CallOk(r, id) { assert CallOk(s, id); }
  }

  lemma NewCallKeeps(s: State, call: CallView, registers: bool)
    requires Shaped(s)
    ensures Shaped(NewCall(s, call, registers))
  {
    var r := NewCall(s, call, registers);
    forall j | 0 <= j < |r.turns| ensures TurnOk(r, j) { assert TurnOk(s, j); }
    forall id | id in r.turnsById ensures IndexOk(r, id) { assert IndexOk(s, id); }
    forall id | id in r.callsById ensures CallOk(r, id) {
      if id in s.callsById { assert CallOk(s, id); }
    }
  }

  lemma ShowCallKeeps(s: State, k: nat, c: nat)
    requires Shaped(s) && k < |s.turns|
    ensures Shaped(ShowCall(s, k, c))
  {
    SetTurnKeeps(s, k, ShowCall(s, k, c).turns[k], s.calls, s.interactionKinds);
  }

  lemma AddCallKeeps(s: State, k: nat, call: CallView, registers: bool)
    requires Shaped(s) && k < |s.turns|
    ensures Shaped(AddCall(s, k, call, registers))
  {
    NewCallKeeps(s, call, registers);
    ShowCallKeeps(NewCall(s, call, registers), k, |s.calls|);
  }

  lemma {:induction false} AddCallsKeeps(s: State, k: nat, calls: seq<CallView>)
    requires Shaped(s) && k < |s.turns|
    ensures Shaped(AddCalls(s, k, calls))
    decreases |calls|
  {
    if calls != [] {
      AddCallKeeps(s, k, calls[0], true);
      AddCallsKeeps(AddCall(s, k, calls[0], true), k, calls[1..]);
    }
  }

  lemma SetCallKeeps(s: State, c: nat, call: CallView, tasks: set<string>)
    requires Shaped(s) && c < |s.calls| && call.callId == s.calls[c].callId && tasks <= s.callsById.Keys
    ensures Shaped(SetCall(s, c, call).(taskCallIds := tasks))
  {
    var r := SetCall(s, c, call).(taskCallIds := tasks);
    forall j | 0 <= j < |r.turns| ensures TurnOk(r, j) { assert TurnOk(s, j); }
    forall id | id in r.turnsById ensures IndexOk(r, id) { assert IndexOk(s, id); }
    forall id | id in r.callsById ensures CallOk(r, id) { assert CallOk(s, id); }
  }

  lemma NotesKeep(s: State, tasks: set<string>, kinds: map<string, string>)
    requires Shaped(s) && tasks <= s.callsById.Keys
    ensures Shaped(s.(taskCallIds := tasks, interactionKinds := kinds))
  {
    var r := s.(taskCallIds := tasks, interactionKinds := kinds);
    forall j | 0 <= j < |r.turns| ensures TurnOk(r, j) { assert TurnOk(s, j); }
    forall id | id in r.turnsById ensures IndexOk(r, id) { assert IndexOk(s, id); }
    forall id | id in r.callsById ensures CallOk(r, id) { assert CallOk(s, id); }
  }

  lemma OnTurnKeeps(s: State, k: nat, e: Effect)
    requires Shaped(s) && k < |s.turns|
    ensures Shaped(OnTurn(s, k, e))
  {
    var t := s.turns[k];
    var next := OnTurn(s, k, e);
    if e.Request? { AddCallsKeeps(s, k, e.calls); }
    else if e.Result? { AddCallKeeps(s, k, e.result, false); }
    else {
      assert next.turns == s.turns[k := next.turns[k]];
      SetTurnKeeps(s, k, next.turns[k], next.calls, next.interactionKinds);
      assert next == SetTurn(s.(calls := next.calls), k, next.turns[k]).(interactionKinds := next.interactionKinds);
    }
  }

  lemma OnCallKeeps(s: State, c: nat, e: Effect)
    requires Shaped(s) && c < |s.calls| && Registered(s, CallIdOf(e)) == Some(c)
    ensures Shaped(OnCall(s, c, e))
    ensures OnCall(s, c, e).turns == s.turns
  {
    var next := OnCall(s, c, e);
    if next != s {
      assert next.calls == s.calls[c := next.calls[c]];
      SetCallKeeps(s, c, next.calls[c], next.taskCallIds);
      assert next == SetCall(s, c, next.calls[c]).(taskCallIds := next.taskCallIds);
    }
  }

  lemma StepKeeps(s: State, e: Effect)
    requires Shaped(s)
    ensures Shaped(Step(s, e))
  {
    if Enters(s, e) {
      EnterKeeps(s, e.turnId, e.at);
      OnTurnKeeps(Enter(s, e.turnId, e.at), TurnAt(s, e.turnId), e);
    } else if Registered(s, CallIdOf(e)).Some? {
      assert CallOk(s, CallIdOf(e).value);
      OnCallKeeps(s, Registered(s, CallIdOf(e)).value, e);
    }
  }

  /** At most one turn is without an id and it is the first; no two turns share an id. */
  lemma TurnsAreDistinct(effects: seq<Effect>, j: nat, k: nat)
    requires j < k < |Fold(effects).turns|
    ensures Named(Fold(effects).turns[k].turnId)
    ensures Fold(effects).turns[j].turnId != Fold(effects).turns[k].turnId
  {
    var s := Fold(effects);
    assert TurnOk(s, j) && TurnOk(s, k);
  }

  // ---------------------------------------------------------------------------
  // Items keep event order
  // ---------------------------------------------------------------------------

  datatype Placed = Placed(turn: nat, item: Item)

  function Numbers(from: nat, n: nat): seq<nat> {
    seq(n, i requires 0 <= i < n => from + i)
  }

  function Tools(from: nat, n: nat): seq<Item> {
    seq(n, i requires 0 <= i < n => Tool(from + i))
  }

  /** The items an effect adds to the turn it enters, when `calls` calls exist already. */
  function Added(calls: nat, e: Effect): seq<Item> {
    match e
    case Say(_, _, entry) => [Plain(entry)]
    case Request(_, _, requested) => Tools(calls, |requested|)
    case Result(_, _, _) => [Tool(calls)]
    case Settle(_, _, _, remark) => if remark.Some? then [Plain(remark.value)] else []
    case Cancel(_, at) => [Plain(System("Turn cancelled", None, at))]
    case FailSession(_, _, entry) => [Plain(entry)]
    case OpenInteraction(_, _, _, _, entry) => [Plain(entry)]
    case SettleInteraction(_, _, _, entry) => [Plain(entry)]
    case _ => []
  }

  function AddedBy(s: State, e: Effect): seq<Item> {
    if Enters(s, e) then Added(|s.calls|, e) else []
  }

  function Put(turn: nat, items: seq<Item>): seq<Placed> {
    seq(|items|, i requires 0 <= i < |items| => Placed(turn, items[i]))
  }

  /** Everything the events add, in event order, with the turn each item belongs to. */
  function Log(effects: seq<Effect>): seq<Placed> {
    if effects == [] then []
    else
      var init, e := effects[..|effects| - 1], effects[|effects| - 1];
      Log(init) + Put(TurnOf(Fold(init), e), AddedBy(Fold(init), e))
  }

  function TurnOf(s: State, e: Effect): nat {
    if Enters(s, e) then TurnAt(s, e.turnId) else 0
  }

  function Select(log: seq<Placed>, k: nat): seq<Item> {
    if log == [] then []
    else
      Select(log[..|log| - 1], k) + if log[|log| - 1].turn == k then [log[|log| - 1].item] else []
  }

  lemma {:induction false} SelectPut(log: seq<Placed>, turn: nat, items: seq<Item>, k: nat)
    ensures Select(log + Put(turn, items), k) == Select(log, k) + if k == turn then items else []
    decreases |items|
  {
    if items == [] {
      assert log + Put(turn, items) == log;
    } else {
      var init, last := items[..|items| - 1], items[|items| - 1];
      assert log + Put(turn, items) == (log + Put(turn, init)) + [Placed(turn, last)];
      SelectPut(log, turn, init, k);
      assert items == init + [last];
    }
  }

  function ItemsAt(s: State, k: nat): seq<Item> {
    if k < |s.turns| then s.turns[k].items else []
  }

  lemma {:induction false} AddCallsItems(s: State, k: nat, calls: seq<CallView>)
    requires k < |s.turns|
    ensures var r := AddCalls(s, k, calls);
            && |r.calls| == |s.calls| + |calls|
            && r.turns[k].items == s.turns[k].items + Tools(|s.calls|, |calls|)
            && r.turns[k].usage == s.turns[k].usage
            && r.taskCallIds == s.taskCallIds
            && (forall j | 0 <= j < |s.turns| && j != k :: r.turns[j] == s.turns[j])
    decreases |calls|
  {
    if calls != [] {
      var next := AddCall(s, k, calls[0], true);
      AddCallsItems(next, k, calls[1..]);
      assert [Tool(|s.calls|)] + Tools(|s.calls| + 1, |calls| - 1) == Tools(|s.calls|, |calls|);
    }
  }

  /** How many of the items an effect adds are new calls. */
  function NewCalls(e: Effect): nat {
    match e
    case Request(_, _, calls) => |calls|
    case Result(_, _, _) => 1
    case _ => 0
  }

  function UsageAfter(usage: Option<Usage>, e: Effect): Option<Usage> {
    if e.Spend? then AddUsage(usage, e.usage) else usage
  }

  /** Other turns stay as they are; this one's items grow at the end, its usage by what is spent. */
  lemma OnTurnItems(s: State, k: nat, e: Effect)
    requires k < |s.turns| && !AboutCall(e)
    ensures var r := OnTurn(s, k, e);
            && |r.turns| == |s.turns|
            && r.turns[k].items == s.turns[k].items + Added(|s.calls|, e)
            && r.turns[k].usage == UsageAfter(s.turns[k].usage, e)
            && r.taskCallIds == s.taskCallIds
            && |r.calls| == |s.calls| + NewCalls(e)
            && (forall j | 0 <= j < |s.turns| && j != k :: r.turns[j] == s.turns[j])
  {
    if e.Request? { AddCallsItems(s, k, e.calls); }
  }

  lemma StepItems(s: State, e: Effect, k: nat)
    requires Shaped(s)
    ensures ItemsAt(Step(s, e), k)
         == ItemsAt(s, k) + if k == TurnOf(s, e) then AddedBy(s, e) else []
  {
    if Enters(s, e) {
      EnterKeeps(s, e.turnId, e.at);
      OnTurnItems(Enter(s, e.turnId, e.at), TurnAt(s, e.turnId), e);
    } else if Registered(s, CallIdOf(e)).Some? {
      assert CallOk(s, CallIdOf(e).value);
      OnCallKeeps(s, Registered(s, CallIdOf(e)).value, e);
    }
  }

  /** A turn's items are the log's entries for it, in the order of the events: none lost, doubled or moved. */
  lemma {:induction false} ItemsInOrder(effects: seq<Effect>, k: nat)
    ensures ItemsAt(Fold(effects), k) == Select(Log(effects), k)
  {
    if effects != [] {
      var init, e := effects[..|effects| - 1], effects[|effects| - 1];
      ItemsInOrder(init, k);
      StepItems(Fold(init), e, k);
      SelectPut(Log(init), TurnOf(Fold(init), e), AddedBy(Fold(init), e), k);
    }
  }

  /** The calls in the log, in its order. */
  function CallsIn(log: seq<Placed>): seq<nat> {
    if log == [] then []
    else CallsIn(log[..|log| - 1]) + if log[|log| - 1].item.Tool? then [log[|log| - 1].item.call] else []
  }

  lemma CallsInSnoc(log: seq<Placed>, last: Placed)
    ensures CallsIn(log + [last]) == CallsIn(log) + if last.item.Tool? then [last.item.call] else []
  {
    assert (log + [last])[..|log|] == log;
  }

  lemma LogSnoc(log: seq<Placed>, turn: nat, items: seq<Item>, last: Item)
    ensures log + Put(turn, items + [last]) == (log + Put(turn, items)) + [Placed(turn, last)]
  {
  }

  lemma ToolsSnoc(from: nat, n: nat)
    ensures Tools(from, n + 1) == Tools(from, n) + [Tool(from + n)]
    ensures Numbers(from, n + 1) == Numbers(from, n) + [from + n]
  {
  }

  lemma {:induction false} CallsInTools(log: seq<Placed>, turn: nat, from: nat, n: nat)
    ensures CallsIn(log + Put(turn, Tools(from, n))) == CallsIn(log) + Numbers(from, n)
    decreases n
  {
    if n == 0 {
      assert log + Put(turn, Tools(from, 0)) == log;
    } else {
      CallsInTools(log, turn, from, n - 1);
      ToolsSnoc(from, n - 1);
      LogSnoc(log, turn, Tools(from, n - 1), Tool(from + (n - 1)));
      CallsInSnoc(log + Put(turn, Tools(from, n - 1)), Placed(turn, Tool(from + (n - 1))));
    }
  }

  lemma {:induction false} CallsInPlains(log: seq<Placed>, turn: nat, items: seq<Item>)
    requires forall item <- items :: item.Plain?
    ensures CallsIn(log + Put(turn, items)) == CallsIn(log)
    decreases |items|
  {
    if items == [] {
      assert log + Put(turn, items) == log;
    } else {
      var init, last := items[..|items| - 1], items[|items| - 1];
      CallsInPlains(log, turn, init);
      assert last in items;
      assert log + Put(turn, items) == (log + Put(turn, init)) + [Placed(turn, last)];
    }
  }

  lemma CallsInAdded(log: seq<Placed>, turn: nat, calls: nat, e: Effect)
    ensures CallsIn(log + Put(turn, Added(calls, e))) == CallsIn(log) + Numbers(calls, NewCalls(e))
  {
    if e.Request? { CallsInTools(log, turn, calls, |e.calls|); }
    else if e.Result? {
      CallsInTools(log, turn, calls, 1);
      assert Tools(calls, 1) == [Tool(calls)];
    } else {
      CallsInPlains(log, turn, Added(calls, e));
    }
  }

  lemma StepCallCount(s: State, e: Effect)
    requires Shaped(s)
    ensures |Step(s, e).calls| == |s.calls| + if Enters(s, e) then NewCalls(e) else 0
    ensures s.taskCallIds <= Step(s, e).taskCallIds
  {
    if Enters(s, e) {
      EnterKeeps(s, e.turnId, e.at);
      OnTurnItems(Enter(s, e.turnId, e.at), TurnAt(s, e.turnId), e);
    } else if Registered(s, CallIdOf(e)).Some? {
      assert CallOk(s, CallIdOf(e).value);
    }
  }

  lemma NumbersSplit(n: nat, more: nat)
    ensures Numbers(0, n + more) == Numbers(0, n) + Numbers(n, more)
  {
  }

  lemma LogStep(log: seq<Placed>, s: State, e: Effect)
    requires Shaped(s) && CallsIn(log) == Numbers(0, |s.calls|)
    ensures CallsIn(log + Put(TurnOf(s, e), AddedBy(s, e))) == Numbers(0, |Step(s, e).calls|)
  {
    StepCallCount(s, e);
    if Enters(s, e) {
      CallsInAdded(log, TurnOf(s, e), |s.calls|, e);
      NumbersSplit(|s.calls|, NewCalls(e));
    } else {
      assert log + Put(TurnOf(s, e), []) == log;
    }
  }

  /** The log holds every call exactly once, in the order the calls were created. */
  lemma {:induction false} EveryCallOnce(effects: seq<Effect>)
    ensures CallsIn(Log(effects)) == Numbers(0, |Fold(effects).calls|)
  {
    if effects != [] {
      var init, e := effects[..|effects| - 1], effects[|effects| - 1];
      EveryCallOnce(init);
      LogStep(Log(init), Fold(init), e);
    }
  }

  // ---------------------------------------------------------------------------
  // Usage is conserved
  // ---------------------------------------------------------------------------

  const NO_USAGE: Usage := Usage(0.0, 0.0, 0.0, 0.0)

  function UsageOf(t: Turn): Usage {
    if t.usage.Some? then t.usage.value else NO_USAGE
  }

  function Total(turns: seq<Turn>): Usage {
    if turns == [] then NO_USAGE else Plus(Total(turns[..|turns| - 1]), UsageOf(turns[|turns| - 1]))
  }

  function Spent(effects: seq<Effect>): Usage {
    if effects == [] then NO_USAGE
    else
      var e := effects[|effects| - 1];
      Plus(Spent(effects[..|effects| - 1]), UsageSpent(e))
  }

  function UsageSpent(e: Effect): Usage {
    if e.Spend? then e.usage else NO_USAGE
  }

  lemma Swapped(a: Usage, b: Usage, c: Usage)
    ensures Plus(Plus(a, b), c) == Plus(Plus(a, c), b)
  {
  }

  lemma Nested(a: Usage, b: Usage, c: Usage)
    ensures Plus(a, Plus(b, c)) == Plus(Plus(a, b), c)
  {
  }

  lemma TotalLast(turns: seq<Turn>)
    requires turns != []
    ensures Total(turns) == Plus(Total(turns[..|turns| - 1]), UsageOf(turns[|turns| - 1]))
  {
  }

  /** Only one turn's usage changed, and by `extra`. */
  lemma {:induction false} TotalChange(turns: seq<Turn>, next: seq<Turn>, k: nat, extra: Usage)
    requires |turns| == |next| && k < |turns|
    requires forall j | 0 <= j < |turns| && j != k :: next[j].usage == turns[j].usage
    requires UsageOf(next[k]) == Plus(UsageOf(turns[k]), extra)
    ensures Total(next) == Plus(Total(turns), extra)
    decreases |turns|
  {
    var n := |turns| - 1;
    TotalLast(turns);
    TotalLast(next);
    if k < n {
      TotalChange(turns[..n], next[..n], k, extra);
      Swapped(Total(turns[..n]), extra, UsageOf(turns[n]));
    } else {
      TotalSame(turns[..n], next[..n]);
      Nested(Total(turns[..n]), UsageOf(turns[n]), extra);
    }
  }

  lemma {:induction false} TotalSame(turns: seq<Turn>, next: seq<Turn>)
    requires |turns| == |next|
    requires forall j | 0 <= j < |turns| :: next[j].usage == turns[j].usage
    ensures Total(next) == Total(turns)
  {
    if turns != [] { TotalSame(turns[..|turns| - 1], next[..|turns| - 1]); }
  }

  lemma TotalSnoc(turns: seq<Turn>, t: Turn)
    requires t.usage.None?
    ensures Total(turns + [t]) == Total(turns)
  {
    assert (turns + [t])[..|turns|] == turns;
  }

  lemma EnterSpendsNothing(s: State, turnId: Option<string>, at: string)
    requires Shaped(s)
    ensures Total(Enter(s, turnId, at).turns) == Total(s.turns)
  {
    if !Known(s, turnId) { TotalSnoc(s.turns, Turn(turnId, at, [], None, None, Incomplete, None)); }
  }

  lemma OnTurnSpends(s: State, k: nat, e: Effect)
    requires k < |s.turns| && !AboutCall(e)
    ensures Total(OnTurn(s, k, e).turns) == Plus(Total(s.turns), UsageSpent(e))
  {
    OnTurnItems(s, k, e);
    TotalChange(s.turns, OnTurn(s, k, e).turns, k, UsageSpent(e));
  }

  lemma StepOffTurn(s: State, e: Effect)
    requires Shaped(s) && !Enters(s, e)
    ensures Step(s, e).turns == s.turns && UsageSpent(e) == NO_USAGE
  {
    if Registered(s, CallIdOf(e)).Some? {
      assert CallOk(s, CallIdOf(e).value);
      OnCallKeeps(s, Registered(s, CallIdOf(e)).value, e);
    }
  }

  lemma StepOnTurn(s: State, e: Effect)
    requires Shaped(s) && Enters(s, e)
    ensures var entered, k := Enter(s, e.turnId, e.at), TurnAt(s, e.turnId);
            k < |entered.turns| && Step(s, e) == OnTurn(entered, k, e) && !AboutCall(e)
  {
    EnterKeeps(s, e.turnId, e.at);
  }

  lemma StepSpends(s: State, e: Effect)
    requires Shaped(s)
    ensures Total(Step(s, e).turns) == Plus(Total(s.turns), UsageSpent(e))
  {
    if Enters(s, e) {
      StepOnTurn(s, e);
      EnterSpendsNothing(s, e.turnId, e.at);
      OnTurnSpends(Enter(s, e.turnId, e.at), TurnAt(s, e.turnId), e);
    } else {
      StepOffTurn(s, e);
      PlusNothing(Total(s.turns));
    }
  }

  lemma PlusNothing(u: Usage)
    ensures Plus(u, NO_USAGE) == u
  {
  }

  /** The turns together used what the counted events report. */
  lemma {:induction false} UsageConserved(effects: seq<Effect>)
    ensures Total(Fold(effects).turns) == Spent(effects)
  {
    if effects != [] {
      UsageConserved(effects[..|effects| - 1]);
      StepSpends(Fold(effects[..|effects| - 1]), effects[|effects| - 1]);
    }
  }

  function UsageCounted(event: Event): Usage {
    if Counts(event) then UsageFrom(Get(AsRecord(Some(event.payload)), "usage")).value else NO_USAGE
  }

  /** What the counted events report. */
  function Reported(events: seq<Event>): Usage {
    if events == [] then NO_USAGE
    else Plus(Reported(events[..|events| - 1]), UsageCounted(events[|events| - 1]))
  }

  lemma LastIsCounted(stringify: Json -> string, events: seq<Event>)
    requires events != []
    ensures var effects, n := Effects(stringify, events), |events| - 1;
            && |effects| == n + 1 && effects[..n] == Effects(stringify, events[..n])
            && UsageSpent(effects[n]) == UsageCounted(events[n])
  {
    CountedUsage(stringify, events[|events| - 1]);
  }

  lemma SpentLast(effects: seq<Effect>)
    requires effects != []
    ensures Spent(effects) == Plus(Spent(effects[..|effects| - 1]), UsageSpent(effects[|effects| - 1]))
  {
  }

  lemma {:induction false} SpentIsReported(stringify: Json -> string, events: seq<Event>)
    ensures Spent(Effects(stringify, events)) == Reported(events)
  {
    if events != [] {
      SpentIsReported(stringify, events[..|events| - 1]);
      LastIsCounted(stringify, events);
      SpentLast(Effects(stringify, events));
    }
  }

  /** Whatever turns the events name, their usage adds up to what the counted events report. */
  lemma TurnsUseWhatIsReported(stringify: Json -> string, events: seq<Event>)
    ensures Total(Fold(Effects(stringify, events)).turns) == Reported(events)
  {
    UsageConserved(Effects(stringify, events));
    SpentIsReported(stringify, events);
  }

  // ---------------------------------------------------------------------------
  // A task's receipt decides nothing
  // ---------------------------------------------------------------------------

  predicate Receipt(e: Effect, callId: string) {
    e.Result? && e.result.callId == Some(callId)
  }

  function Without(effects: seq<Effect>, callId: string): seq<Effect> {
    if effects == [] then []
    else
      Without(effects[..|effects| - 1], callId)
      + if Receipt(effects[|effects| - 1], callId) then [] else [effects[|effects| - 1]]
  }

  lemma {:induction false} TasksStay(s: State, effects: seq<Effect>)
    requires Shaped(s)
    ensures s.taskCallIds <= From(s, effects).taskCallIds
  {
    if effects != [] {
      TasksStay(s, effects[..|effects| - 1]);
      StepCallCount(From(s, effects[..|effects| - 1]), effects[|effects| - 1]);
    }
  }

  lemma ReceiptIgnored(s: State, e: Effect, callId: string)
    requires Shaped(s) && callId in s.taskCallIds && Receipt(e, callId)
    ensures Step(s, e) == s
  {
    assert CallOk(s, callId);
  }

  /** Once a task has started, the action results for its id change nothing at all, then or ever after. */
  lemma {:induction false} ReceiptsDecideNothing(s: State, effects: seq<Effect>, callId: string)
    requires Shaped(s) && callId in s.taskCallIds
    ensures From(s, effects) == From(s, Without(effects, callId))
  {
    if effects != [] {
      var init, e := effects[..|effects| - 1], effects[|effects| - 1];
      ReceiptsDecideNothing(s, init, callId);
      TasksStay(s, init);
      if Receipt(e, callId) {
        ReceiptIgnored(From(s, init), e, callId);
        assert Without(effects, callId) == Without(init, callId);
      } else {
        assert Without(effects, callId)[..|Without(init, callId)|] == Without(init, callId);
      }
    }
  }

  /** A cancelled turn has no pending call, and the calls of other turns are as they were. */
  lemma CancelSettlesTheTurn(s: State, e: Effect, c: nat)
    requires Shaped(s) && e.Cancel? && c < |s.calls|
    ensures |Step(s, e).calls| == |s.calls|
    ensures Tool(c) in ItemsAt(s, TurnAt(s, e.turnId)) ==> !Step(s, e).calls[c].status.Pending?
    ensures Tool(c) !in ItemsAt(s, TurnAt(s, e.turnId)) || !s.calls[c].status.Pending?
            ==> Step(s, e).calls[c] == s.calls[c]
  {
    EnterKeeps(s, e.turnId, e.at);
  }

  // ---------------------------------------------------------------------------
  // What a turn and a call show
  // ---------------------------------------------------------------------------

  function FirstUser(items: seq<Item>): Option<string> {
    if items == [] then None
    else
      var last := items[|items| - 1];
      Or(FirstUser(items[..|items| - 1]), if last.Plain? && last.entry.User? then Some(last.entry.text) else None)
  }

  function LastAssistant(items: seq<Item>): Option<string> {
    if items == [] then None
    else
      var last := items[|items| - 1];
      if last.Plain? && last.entry.Assistant? then Some(last.entry.text) else LastAssistant(items[..|items| - 1])
  }

  /** The messages kept beside the items are the first user text and the last assistant text among them. */
  predicate MessagesOk(t: Turn) {
    t.userMessage == FirstUser(t.items) && t.assistantMessage == LastAssistant(t.items)
  }

  lemma MessagesSnoc(items: seq<Item>, last: Item)
    ensures FirstUser(items + [last])
         == Or(FirstUser(items), if last.Plain? && last.entry.User? then Some(last.entry.text) else None)
    ensures LastAssistant(items + [last])
         == if last.Plain? && last.entry.Assistant? then Some(last.entry.text) else LastAssistant(items)
  {
    assert (items + [last])[..|items|] == items;
  }

  lemma PostMessages(t: Turn, entry: Entry)
    requires MessagesOk(t)
    ensures MessagesOk(Post(t, entry))
  {
    MessagesSnoc(t.items, Plain(entry));
  }

  lemma TurnAfterMessages(t: Turn, e: Effect)
    requires MessagesOk(t)
    ensures MessagesOk(TurnAfter(t, e))
  {
    match e
    case Say(_, _, entry) => PostMessages(t, entry);
    case Settle(_, _, outcome, remark) => if remark.Some? { PostMessages(t.(status := outcome), remark.value); }
    case Cancel(_, at) => PostMessages(t.(status := StatusCancelled), System("Turn cancelled", None, at));
    case FailSession(_, _, entry) => PostMessages(t, entry);
    case OpenInteraction(_, _, _, _, entry) => PostMessages(t, entry);
    case SettleInteraction(_, _, _, entry) => PostMessages(t, entry);
    case _ =>
  }

  ghost predicate AllMessagesOk(turns: seq<Turn>) {
    forall k | 0 <= k < |turns| :: MessagesOk(turns[k])
  }

  lemma {:induction false} AddCallsMessages(s: State, k: nat, calls: seq<CallView>)
    requires k < |s.turns| && AllMessagesOk(s.turns)
    ensures AllMessagesOk(AddCalls(s, k, calls).turns)
    decreases |calls|
  {
    if calls != [] {
      AddCallMessages(s, k, calls[0], true);
      AddCallsMessages(AddCall(s, k, calls[0], true), k, calls[1..]);
    }
  }

  lemma AddCallMessages(s: State, k: nat, call: CallView, registers: bool)
    requires k < |s.turns| && AllMessagesOk(s.turns)
    ensures AllMessagesOk(AddCall(s, k, call, registers).turns)
  {
    MessagesSnoc(s.turns[k].items, Tool(|s.calls|));
  }

  lemma OnTurnMessages(s: State, k: nat, e: Effect)
    requires k < |s.turns| && AllMessagesOk(s.turns)
    ensures AllMessagesOk(OnTurn(s, k, e).turns)
  {
    if e.Request? { AddCallsMessages(s, k, e.calls); }
    else if e.Result? { AddCallMessages(s, k, e.result, false); }
    else { TurnAfterMessages(s.turns[k], e); }
  }

  lemma {:induction false} MessagesAreFirstAndLast(effects: seq<Effect>)
    ensures AllMessagesOk(Fold(effects).turns)
  {
    if effects != [] {
      var init, e := effects[..|effects| - 1], effects[|effects| - 1];
      MessagesAreFirstAndLast(init);
      if Enters(Fold(init), e) {
        StepOnTurn(Fold(init), e);
        EnterKeeps(Fold(init), e.turnId, e.at);
        OnTurnMessages(Enter(Fold(init), e.turnId, e.at), TurnAt(Fold(init), e.turnId), e);
      } else {
        StepOffTurn(Fold(init), e);
      }
    }
  }

  /** Only the call registered under the effect's id changes, or the pending calls of a cancelled turn. */
  lemma OnlyNamedCallsChange(s: State, e: Effect, c: nat)
    requires Shaped(s) && c < |s.calls|
    ensures c < |Step(s, e).calls|
    ensures Step(s, e).calls[c] != s.calls[c] ==>
              || Registered(s, CallIdOf(e)) == Some(c)
              || (e.Cancel? && Tool(c) in ItemsAt(s, TurnAt(s, e.turnId)) && s.calls[c].status.Pending?)
  {
    if Enters(s, e) {
      StepOnTurn(s, e);
      var entered, k := Enter(s, e.turnId, e.at), TurnAt(s, e.turnId);
      if e.Request? { AddCallsKeepCalls(entered, k, e.calls, c); }
      else if e.Cancel? { CancelSettlesTheTurn(s, e, c); }
    } else if Registered(s, CallIdOf(e)).Some? {
      assert CallOk(s, CallIdOf(e).value);
    }
  }

  lemma {:induction false} AddCallsKeepCalls(s: State, k: nat, calls: seq<CallView>, c: nat)
    requires k < |s.turns| && c < |s.calls|
    ensures c < |AddCalls(s, k, calls).calls| && AddCalls(s, k, calls).calls[c] == s.calls[c]
    decreases |calls|
  {
    if calls != [] { AddCallsKeepCalls(AddCall(s, k, calls[0], true), k, calls[1..], c); }
  }

  lemma {:induction false} AddCallsAll(s: State, k: nat, calls: seq<CallView>)
    requires k < |s.turns|
    ensures AddCalls(s, k, calls).calls == s.calls + calls
    decreases |calls|
  {
    if calls != [] { AddCallsAll(AddCall(s, k, calls[0], true), k, calls[1..]); }
  }

  lemma {:induction false} AddCallsKeepStatus(s: State, k: nat, calls: seq<CallView>)
    requires k < |s.turns|
    ensures AddCalls(s, k, calls).turns[k].status == s.turns[k].status
    decreases |calls|
  {
    if calls != [] { AddCallsKeepStatus(AddCall(s, k, calls[0], true), k, calls[1..]); }
  }

  /** A turn that has ended is not reopened, and a failing session does not change how it ended. */
  lemma EndedStaysEnded(s: State, e: Effect, k: nat)
    requires Shaped(s) && k < |s.turns| && !s.turns[k].status.Incomplete?
    ensures k < |Step(s, e).turns|
    ensures Step(s, e).turns[k].status != s.turns[k].status ==>
              k == TurnAt(s, e.turnId) && ((e.Settle? && Step(s, e).turns[k].status == e.outcome) || e.Cancel?)
    ensures (e.Settle? ==> !e.outcome.Incomplete?) ==> !Step(s, e).turns[k].status.Incomplete?
  {
    if Enters(s, e) {
      StepOnTurn(s, e);
      EnterKeeps(s, e.turnId, e.at);
      var entered, j := Enter(s, e.turnId, e.at), TurnAt(s, e.turnId);
      OnTurnItems(entered, j, e);
      if e.Request? { AddCallsKeepStatus(entered, j, e.calls); }
    } else {
      StepOffTurn(s, e);
    }
  }
}
