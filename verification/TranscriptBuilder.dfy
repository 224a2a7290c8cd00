/**
 buildTranscriptTurns in place: turns and calls are shared, mutable objects, reached both from the
 items and through the two indexes. Every handler is proved against TranscriptFold.Step.
 */
module TranscriptBuilder {
  import opened Prelude
  import opened TranscriptEvents
  import Fold = TranscriptFold

  class ToolCall {
    const callId: Option<string>
    const name: string
    const input: Json
    const targetNodeId: Option<string>
    const eventAt: string
    var isSubagent: bool
    var output: Json
    var status: CallStatus
    var errorText: Option<string>
    var usage: Option<Usage>
    var childEveSessionId: Option<string>
    /** The session this call opened, once it is attached. */
    var child: SessionNode?
    /** Its place among the calls in the order of creation. */
    ghost const place: nat

    ghost function View(): CallView
      reads this
    {
      CallView(
        callId, name, isSubagent, input, output, status, errorText, usage, targetNodeId, childEveSessionId, eventAt)
    }

    constructor (v: CallView, ghost place: nat)
      ensures View() == v && this.place == place && child == null
    {
      callId, name, input, targetNodeId, eventAt := v.callId, v.name, v.input, v.targetNodeId, v.eventAt;
      isSubagent, output, status, errorText := v.isSubagent, v.output, v.status, v.errorText;
      usage, childEveSessionId, child := v.usage, v.childEveSessionId, null;
      this.place := place;
    }

    method Cancel()
      modifies this`status, this`errorText
      ensures View() == Fold.CancelPending(old(View()))
    {
      if status.Pending? { status, errorText := CallCancelled, Some("Turn cancelled"); }
    }

    /** What an effect that looks the call up by its id does to it. */
    method Update(e: Effect)
      modifies this
      ensures View() == Fold.CallAfter(old(View()), e) && child == old(child)
    {
      match e {
        case Result(_, _, result) =>
          output, status, errorText, usage := result.output, result.status, result.errorText, result.usage;
        case StartTask(_, agent) =>
          if agent { isSubagent := true; }
        case OpenChild(_, session) =>
          isSubagent, childEveSessionId := true, session;
        case EndCall(_, ending, out, error) =>
          status, output, errorText := ending, out, error;
        case _ =>
      }
    }
  }

  datatype RowItem = Plain(entry: Entry) | Tool(call: ToolCall)

  ghost function Seen(items: seq<RowItem>): seq<Fold.Item> {
    seq(|items|, i requires 0 <= i < |items| =>
      match items[i] case Plain(entry) => Fold.Plain(entry) case Tool(call) => Fold.Tool(call.place))
  }

  class Turn {
    const turnId: Option<string>
    const startedAt: string
    var items: seq<RowItem>
    var userMessage: Option<string>
    var assistantMessage: Option<string>
    var status: TurnStatus
    var usage: Option<Usage>
    ghost const place: nat

    ghost function View(): Fold.Turn
      reads this
    {
      Fold.Turn(turnId, startedAt, Seen(items), userMessage, assistantMessage, status, usage)
    }

    constructor (turnId: Option<string>, at: string, ghost place: nat)
      ensures View() == Fold.Turn(turnId, at, [], None, None, Incomplete, None) && this.place == place && items == []
    {
      this.turnId, startedAt, this.place := turnId, at, place;
      items, userMessage, assistantMessage, status, usage := [], None, None, Incomplete, None;
    }

    /** Show an entry in the turn; the first user text and the last assistant text are kept beside it. */
    method Post(entry: Entry)
      modifies this
      ensures View() == Fold.Post(old(View()), entry) && items == old(items) + [Plain(entry)]
    {
      items := items + [Plain(entry)];
      match entry
      case User(text, _) => userMessage := if userMessage.None? then Some(text) else userMessage;
      case Assistant(text, _) => assistantMessage := Some(text);
      case _ =>
    }

    /** The part of an effect that touches the turn alone. */
    method Update(e: Effect)
      modifies this
      ensures View() == Fold.TurnAfter(old(View()), e)
      ensures old(items) <= items && forall i | |old(items)| <= i < |items| :: items[i].Plain?
    {
      match e {
        case Say(_, _, entry) => Post(entry);
        case Spend(_, _, extra) => usage := Fold.AddUsage(usage, extra);
        case Settle(_, _, outcome, remark) =>
          status := outcome;
          if remark.Some? { Post(remark.value); }
        case Cancel(_, at) =>
          status := StatusCancelled;
          Post(System("Turn cancelled", None, at));
        case FailSession(_, _, entry) =>
          Post(entry);
          if status.Incomplete? { status := StatusFailed; }
        case OpenInteraction(_, _, _, _, entry) => Post(entry);
        case SettleInteraction(_, _, _, entry) => Post(entry);
        case _ =>
      }
    }
  }

  ghost function ItemCalls(items: seq<RowItem>): seq<ToolCall> {
    if items == [] then []
    else ItemCalls(items[..|items| - 1]) + if items[|items| - 1].Tool? then [items[|items| - 1].call] else []
  }

  /** The tool calls of a list of turns, in order. */
  ghost function TurnCalls(turns: seq<Turn>): seq<ToolCall>
    reads turns
  {
    if turns == [] then []
    else TurnCalls(turns[..|turns| - 1]) + ItemCalls(turns[|turns| - 1].items)
  }

  class SessionNode {
    const sessionNodeId: Option<string>
    const turns: seq<Turn>
    /** The calls the turns show, in order; and every call of the session, by its place. */
    ghost const calls: seq<ToolCall>
    ghost const pool: seq<ToolCall>

    ghost predicate Valid()
      reads turns
    {
      calls == TurnCalls(turns)
    }

    constructor (id: Option<string>, turns: seq<Turn>, ghost pool: seq<ToolCall>)
      ensures Valid() && sessionNodeId == id && this.turns == turns && calls == TurnCalls(turns) && this.pool == pool
    {
      sessionNodeId, this.turns, calls, this.pool := id, turns, TurnCalls(turns), pool;
    }

    method Calls() returns (found: seq<ToolCall>)
      requires Valid()
      ensures found == calls
    {
      found := [];
      for k := 0 to |turns|
        invariant found == TurnCalls(turns[..k])
      {
        assert turns[..k + 1][..k] == turns[..k];
        var items := turns[k].items;
        for i := 0 to |items|
          invariant found == TurnCalls(turns[..k]) + ItemCalls(items[..i])
        {
          assert items[..i + 1][..i] == items[..i];
          if items[i].Tool? { found := found + [items[i].call]; }
        }
        assert items[..|items|] == items;
      }
      assert turns[..|turns|] == turns;
    }
  }

  // ---------------------------------------------------------------------------
  // The heap against the fold
  // ---------------------------------------------------------------------------

  ghost predicate TurnIs(row: Turn, k: nat, t: Fold.Turn)
    reads row
  {
    row.place == k && row.View() == t
  }

  ghost predicate CallIs(call: ToolCall, c: nat, v: CallView)
    reads call
  {
    call.place == c && call.View() == v && call.child == null
  }

  /** The calls a turn shows are the ones with those places. */
  ghost predicate Shows(items: seq<RowItem>, calls: seq<ToolCall>) {
    forall i | 0 <= i < |items| && items[i].Tool? ::
      items[i].call.place < |calls| && calls[items[i].call.place] == items[i].call
  }

  /** An index of objects, against the index of their places. */
  ghost predicate Indexes<T>(index: map<string, T>, rows: seq<T>, places: map<string, nat>) {
    && index.Keys == places.Keys
    && forall id | id in index :: places[id] < |rows| && index[id] == rows[places[id]]
  }

  /** A new row, registered under `id` if it is named. */
  lemma IndexesAppend<T>(index: map<string, T>, rows: seq<T>, places: map<string, nat>, id: Option<string>, row: T)
    requires Indexes(index, rows, places)
    ensures Indexes(index, rows + [row], places)
    ensures id.Some? ==> Indexes(index[id.value := row], rows + [row], places[id.value := |rows|])
  {
  }

  class Builder {
    var turns: seq<Turn>
    var turnsById: map<string, Turn>
    var callsById: map<string, ToolCall>
    var taskCallIds: set<string>
    var interactionKinds: map<string, string>
    /** Every call ever created, and the state of the fold this heap stands for. */
    ghost var calls: seq<ToolCall>
    ghost var state: Fold.State

    ghost predicate TurnsHold()
      reads this, turns
    {
      && |turns| == |state.turns|
      && forall k {:trigger turns[k]} | 0 <= k < |turns| ::
           TurnIs(turns[k], k, state.turns[k]) && Shows(turns[k].items, calls)
    }

    ghost predicate CallsHold()
      reads this, calls
    {
      && |calls| == |state.calls|
      && forall c {:trigger calls[c]} | 0 <= c < |calls| :: CallIs(calls[c], c, state.calls[c])
    }

    ghost predicate IndexesHold()
      reads this
    {
      && Fold.Shaped(state)
      && Indexes(turnsById, turns, state.turnsById)
      && Indexes(callsById, calls, state.callsById)
      && taskCallIds == state.taskCallIds
      && interactionKinds == state.interactionKinds
    }

    ghost predicate Valid()
      reads this, turns, calls
    {
      TurnsHold() && CallsHold() && IndexesHold()
    }

    /** Turns and calls are only ever added, as new objects at the end. */
    twostate predicate Grew()
      reads this
    {
      && old(turns) <= turns && (forall k | |old(turns)| <= k < |turns| :: fresh(turns[k]))
      && old(calls) <= calls && (forall c | |old(calls)| <= c < |calls| :: fresh(calls[c]))
    }

    constructor ()
      ensures Valid() && state == Fold.EMPTY && turns == [] && calls == []
    {
      turns, turnsById, callsById, taskCallIds, interactionKinds := [], map[], map[], {}, map[];
      calls, state := [], Fold.EMPTY;
    }

    method NewTurn(turnId: Option<string>, at: string) returns (t: Turn)
      requires Valid() && !Fold.Known(state, turnId)
      modifies this`turns, this`turnsById, this`state
      ensures Valid() && Grew()
      ensures state == Fold.Enter(old(state), turnId, at)
      ensures |turns| > 0 && t == turns[|turns| - 1]
    {
      Fold.EnterKeeps(state, turnId, at);
      t := new Turn(turnId, at, |turns|);
      IndexesAppend(turnsById, turns, state.turnsById, turnId, t);
      if turnId.Some? && turnId.value != "" { turnsById := turnsById[turnId.value := t]; }
      state := Fold.Enter(state, turnId, at);
      turns := turns + [t];
    }

    method TurnFor(turnId: Option<string>, at: string) returns (t: Turn)
      requires Valid()
      modifies this`turns, this`turnsById, this`state
      ensures Valid() && Grew()
      ensures state == Fold.Enter(old(state), turnId, at)
      ensures Fold.TurnAt(old(state), turnId) < |turns| && t == turns[Fold.TurnAt(old(state), turnId)]
    {
      var named := turnId.Some? && turnId.value != "";
      if named && turnId.value in turnsById { return turnsById[turnId.value]; }
      if !named && turns != [] { return turns[|turns| - 1]; }
      t := NewTurn(turnId, at);
    }

    ghost predicate Holds(t: Turn)
      reads this
    {
      t.place < |turns| && turns[t.place] == t
    }

    /** A call object for `v`, registered if it has an id and was requested. */
    method NewCall(v: CallView, registers: bool) returns (call: ToolCall)
      requires Valid()
      modifies this`calls, this`callsById, this`state
      ensures Valid() && Grew()
      ensures state == Fold.NewCall(old(state), v, registers)
      ensures |calls| == |old(calls)| + 1 && call == calls[|old(calls)|]
    {
      Fold.NewCallKeeps(state, v, registers);
      call := new ToolCall(v, |calls|);
      IndexesAppend(callsById, calls, state.callsById, v.callId, call);
      if registers && v.callId.Some? && v.callId.value != "" { callsById := callsById[v.callId.value := call]; }
      state := Fold.NewCall(state, v, registers);
      calls := calls + [call];
    }

    method ShowCall(t: Turn, call: ToolCall)
      requires Valid() && Holds(t) && call.place < |calls| && calls[call.place] == call
      modifies this`state, t`items
      ensures Valid() && Holds(t)
      ensures state == Fold.ShowCall(old(state), t.place, call.place)
    {
      Fold.ShowCallKeeps(state, t.place, call.place);
      state := Fold.ShowCall(state, t.place, call.place);
      t.items := t.items + [Tool(call)];
    }

    method AddCall(t: Turn, v: CallView, registers: bool)
      requires Valid() && Holds(t)
      modifies this`calls, this`callsById, this`state, t`items
      ensures Valid() && Grew() && Holds(t)
      ensures state == Fold.AddCall(old(state), t.place, v, registers)
    {
      var call := NewCall(v, registers);
      ShowCall(t, call);
    }

    method AddCalls(t: Turn, requested: seq<CallView>)
      requires Valid() && Holds(t)
      modifies this`calls, this`callsById, this`state, t`items
      ensures Valid() && Grew() && Holds(t)
      ensures state == Fold.AddCalls(old(state), t.place, requested)
    {
      for i := 0 to |requested|
        invariant Valid() && Grew() && Holds(t)
        invariant Fold.AddCalls(state, t.place, requested[i..]) == Fold.AddCalls(old(state), t.place, requested)
      {
        AddCall(t, requested[i], true);
      }
    }

    method CancelCall(call: ToolCall)
      requires Valid() && call.place < |calls| && calls[call.place] == call
      modifies this`state, call
      ensures Valid() && calls[call.place] == call
      ensures state == Fold.SetCall(old(state), call.place, Fold.CancelPending(old(state).calls[call.place]))
    {
      ghost var v := state.calls[call.place];
      Fold.SetCallKeeps(state, call.place, Fold.CancelPending(v), state.taskCallIds);
      state := Fold.SetCall(state, call.place, Fold.CancelPending(v));
      call.Cancel();
    }

    /** Cancel the turn's pending calls. */
    method CancelCalls(t: Turn)
      requires Valid() && Holds(t)
      modifies this`state, calls
      ensures Valid() && Holds(t)
      ensures state == old(state).(calls := Fold.CancelCalls(old(state).calls, Seen(t.items)))
    {
      ghost var start := state;
      assert Fold.CancelCalls(start.calls, []) == start.calls;
      for i := 0 to |t.items|
        invariant Valid() && Holds(t)
        invariant state == start.(calls := Fold.CancelCalls(start.calls, Seen(t.items[..i])))
      {
        Fold.CancelSnoc(start.calls, Seen(t.items[..i]), Seen(t.items)[i]);
        assert Seen(t.items[..i + 1]) == Seen(t.items[..i]) + [Seen(t.items)[i]];
        match t.items[i]
        case Plain(_) =>
        case Tool(call) => CancelCall(call);
      }
      assert t.items[..|t.items|] == t.items;
    }

    /** The turn's own part of an effect that adds no call. */
    method UpdateTurn(t: Turn, e: Effect)
      requires Valid() && Holds(t)
      modifies this`state, t
      ensures Valid() && Holds(t)
      ensures state == Fold.SetTurn(old(state), t.place, Fold.TurnAfter(old(state).turns[t.place], e))
    {
      ghost var next := Fold.TurnAfter(state.turns[t.place], e);
      Fold.SetTurnKeeps(state, t.place, next, state.calls, state.interactionKinds);
      state := Fold.SetTurn(state, t.place, next);
      t.Update(e);
    }

    method RememberKind(e: Effect)
      requires Valid()
      modifies this`state, this`interactionKinds
      ensures Valid()
      ensures state == old(state).(interactionKinds := Fold.KindsAfter(old(state).interactionKinds, e))
    {
      Fold.NotesKeep(state, state.taskCallIds, Fold.KindsAfter(state.interactionKinds, e));
      if e.OpenInteraction? && e.interaction.Some? && e.interaction.value != "" {
        interactionKinds := interactionKinds[e.interaction.value := e.kind];
      }
      state := state.(interactionKinds := Fold.KindsAfter(state.interactionKinds, e));
    }

    /** What an effect does to the turn it enters. */
    method OnTurn(t: Turn, e: Effect)
      requires Valid() && Holds(t)
      modifies this, t, calls
      ensures Valid() && Grew()
      ensures state == Fold.OnTurn(old(state), t.place, e)
    {
      if e.Request? {
        AddCalls(t, e.calls);
      } else if e.Result? {
        AddCall(t, e.result, false);
      } else {
        if e.Cancel? { CancelCalls(t); }
        RememberKind(e);
        UpdateTurn(t, e);
      }
    }

    method UpdateCall(call: ToolCall, e: Effect)
      requires Valid() && call.place < |calls| && calls[call.place] == call
      modifies this`state, call
      ensures Valid() && calls[call.place] == call
      ensures state == Fold.SetCall(old(state), call.place, Fold.CallAfter(old(state).calls[call.place], e))
    {
      ghost var next := Fold.CallAfter(state.calls[call.place], e);
      Fold.SetCallKeeps(state, call.place, next, state.taskCallIds);
      state := Fold.SetCall(state, call.place, next);
      call.Update(e);
    }

    method StartTask(callId: string)
      requires Valid() && callId in callsById
      modifies this`state, this`taskCallIds
      ensures Valid()
      ensures state == old(state).(taskCallIds := old(state).taskCallIds + {callId})
    {
      Fold.NotesKeep(state, state.taskCallIds + {callId}, state.interactionKinds);
      taskCallIds := taskCallIds + {callId};
      state := state.(taskCallIds := state.taskCallIds + {callId});
    }

    /** What an effect does to the call registered under its id. */
    method OnCall(call: ToolCall, e: Effect)
      requires Valid() && call.place < |calls| && calls[call.place] == call
      requires Fold.Registered(state, Fold.CallIdOf(e)) == Some(call.place)
      modifies this`state, this`taskCallIds, call
      ensures Valid()
      ensures state == Fold.OnCall(old(state), call.place, e)
    {
      if e.Result? && e.result.callId.Some? && e.result.callId.value in taskCallIds { return; }
      UpdateCall(call, e);
      if e.StartTask? { StartTask(e.callId.value); }
    }

    predicate SignIn(interaction: Option<string>)
      reads this
    {
      && interaction.Some? && interaction.value != ""
      && interaction.value in interactionKinds && interactionKinds[interaction.value] == "sign-in"
    }

    method HandleOnCall(e: Effect)
      requires Valid() && Fold.CallIdOf(e).Some? && Fold.CallIdOf(e).value in callsById
      modifies this`state, this`taskCallIds, calls
      ensures Valid()
      ensures state == Fold.Step(old(state), e)
    {
      var id := Fold.CallIdOf(e).value;
      assert Fold.CallOk(state, id);
      OnCall(callsById[id], e);
    }

    method HandleOnTurn(e: Effect)
      requires Valid() && Fold.Enters(state, e)
      modifies this, turns, calls
      ensures Valid() && Grew()
      ensures state == Fold.Step(old(state), e)
    {
      Fold.StepOnTurn(state, e);
      var t := TurnFor(e.turnId, e.at);
      OnTurn(t, e);
    }

    /** One event. */
    method Handle(e: Effect)
      requires Valid()
      modifies this, turns, calls
      ensures Valid() && Grew()
      ensures state == Fold.Step(old(state), e)
    {
      var id := Fold.CallIdOf(e);
      if id.Some? && id.value != "" && id.value in callsById {
        HandleOnCall(e);
      } else if e.Ignored? || Fold.AboutCall(e) || (e.SettleInteraction? && !SignIn(e.interaction)) {
        return;
      } else {
        HandleOnTurn(e);
      }
    }

    method HandleAll(effects: seq<Effect>)
      requires Valid()
      modifies this, turns, calls
      ensures Valid() && Grew()
      ensures state == Fold.From(old(state), effects)
    {
      for i := 0 to |effects|
        invariant Valid() && Grew()
        invariant state == Fold.From(old(state), effects[..i])
      {
        Fold.FromSnoc(old(state), effects, i);
        Handle(effects[i]);
      }
      assert effects[..|effects|] == effects;
    }
  }

  /** buildTranscriptTurns, up to the decoding of the events. */
  method BuildTurns(effects: seq<Effect>) returns (b: Builder)
    ensures fresh(b) && b.Valid() && b.state == Fold.Fold(effects)
    ensures forall k {:trigger b.turns[k]} | 0 <= k < |b.turns| :: fresh(b.turns[k])
    ensures forall c {:trigger b.calls[c]} | 0 <= c < |b.calls| :: fresh(b.calls[c])
  {
    b := new Builder();
    b.HandleAll(effects);
  }
}
