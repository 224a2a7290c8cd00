/**
 Which call of its parent each session hangs on (packages/core/src/transcript.ts:90-148, 657-680),
 as a function of the nodes and of the folds of their events. TranscriptForest proves the in-place
 algorithm against it.
 */
module TranscriptSlots {
  import opened Prelude
  import opened TranscriptEvents
  import Fold = TranscriptFold

  datatype NodeEvent = NodeEvent(event: Event, sessionNodeId: Option<string>)

  datatype SourceNode = SourceNode(
    id: string, eveSessionId: Option<string>, parentNodeId: Option<string>, nodeId: Option<string>)

  predicate DistinctIds(nodes: seq<SourceNode>) {
    forall i, j | 0 <= i < j < |nodes| :: nodes[i].id != nodes[j].id
  }

  // ---------------------------------------------------------------------------
  // Every node's own events
  // ---------------------------------------------------------------------------

  /** The first node without a parent. */
  function RootFrom(nodes: seq<SourceNode>, i: nat): (r: Option<nat>)
    requires i <= |nodes|
    ensures r.Some? ==> i <= r.value < |nodes| && nodes[r.value].parentNodeId.None?
    ensures forall j | i <= j < (if r.Some? then r.value else |nodes|) :: nodes[j].parentNodeId.Some?
    decreases |nodes| - i
  {
    if i == |nodes| then None else if nodes[i].parentNodeId.None? then Some(i) else RootFrom(nodes, i + 1)
  }

  function Root(nodes: seq<SourceNode>): Option<nat> {
    RootFrom(nodes, 0)
  }

  /** The events of a node; the root also gets those that name no node. */
  function EventsOf(events: seq<NodeEvent>, id: string, isRoot: bool): seq<Event> {
    if events == [] then []
    else
      var last := events[|events| - 1];
      EventsOf(events[..|events| - 1], id, isRoot)
      + if last.sessionNodeId == Some(id) || (isRoot && last.sessionNodeId.None?) then [last.event] else []
  }

  lemma {:induction false} EventsOfConcat(a: seq<NodeEvent>, b: seq<NodeEvent>, id: string, isRoot: bool)
    ensures EventsOf(a + b, id, isRoot) == EventsOf(a, id, isRoot) + EventsOf(b, id, isRoot)
    decreases |b|
  {
    if b == [] {
      assert a + b == a;
    } else {
      assert (a + b)[..|a + b| - 1] == a + b[..|b| - 1];
      EventsOfConcat(a, b[..|b| - 1], id, isRoot);
    }
  }

  /** An event goes to the node it names, and one that names none to the root alone. */
  lemma EventGoesTo(e: NodeEvent, id: string, isRoot: bool)
    ensures EventsOf([e], id, isRoot)
         == if (match e.sessionNodeId case Some(named) => named == id case None => isRoot) then [e.event] else []
  {
    assert [e][..0] == [];
    assert EventsOf([e], id, isRoot)
        == EventsOf([e][..0], id, isRoot)
           + if e.sessionNodeId == Some(id) || (isRoot && e.sessionNodeId.None?) then [e.event] else [];
  }

  function OwnEffects(stringify: Json -> string, events: seq<NodeEvent>, nodes: seq<SourceNode>, i: nat): seq<Effect>
    requires i < |nodes|
  {
    Effects(stringify, EventsOf(events, nodes[i].id, Root(nodes) == Some(i)))
  }

  function States(stringify: Json -> string, events: seq<NodeEvent>, nodes: seq<SourceNode>): (states: seq<Fold.State>)
    ensures |states| == |nodes|
  {
    seq(|nodes|, i requires 0 <= i < |nodes| => Fold.Fold(OwnEffects(stringify, events, nodes, i)))
  }

  // ---------------------------------------------------------------------------
  // The calls a view shows
  // ---------------------------------------------------------------------------

  function CallPlaces(items: seq<Fold.Item>): seq<nat> {
    if items == [] then []
    else
      var last := items[|items| - 1];
      CallPlaces(items[..|items| - 1]) + if last.Tool? then [last.call] else []
  }

  /** The places of the calls that the turns show, in order. */
  function ShownCalls(turns: seq<Fold.Turn>): seq<nat> {
    if turns == [] then [] else ShownCalls(turns[..|turns| - 1]) + CallPlaces(turns[|turns| - 1].items)
  }

  /** A session hangs on the call that opened it, or else on an agent call. */
  datatype Want = SessionCall(session: string) | AgentCall(nodeId: Option<string>)

  predicate Fits(want: Want, call: CallView) {
    match want
    case SessionCall(session) => call.childEveSessionId == Some(session)
    case AgentCall(nodeId) => call.isSubagent && (nodeId.Some? ==> call.targetNodeId == nodeId)
  }

  /** A call without a child that fits. */
  predicate Qualifies(state: Fold.State, used: set<nat>, want: Want, c: nat) {
    c < |state.calls| && c !in used && Fits(want, state.calls[c])
  }

  ghost predicate IsFirst(state: Fold.State, used: set<nat>, want: Want, order: seq<nat>, i: nat) {
    && i < |order| && Qualifies(state, used, want, order[i])
    && forall j | 0 <= j < i :: !Qualifies(state, used, want, order[j])
  }

  function FirstFit(state: Fold.State, used: set<nat>, want: Want, order: seq<nat>): (r: Option<nat>)
    ensures r.None? ==> forall c <- order :: !Qualifies(state, used, want, c)
    ensures r.Some? ==> exists i: nat :: IsFirst(state, used, want, order, i) && order[i] == r.value
  {
    if order == [] then None
    else if Qualifies(state, used, want, order[0]) then
      assert IsFirst(state, used, want, order, 0);
      Some(order[0])
    else
      var r := FirstFit(state, used, want, order[1..]);
      FoundLater(state, used, want, order);
      assert order == [order[0]] + order[1..];
      r
  }

  lemma FoundLater(state: Fold.State, used: set<nat>, want: Want, order: seq<nat>)
    requires order != [] && !Qualifies(state, used, want, order[0])
    ensures forall i: nat :: IsFirst(state, used, want, order[1..], i) ==> IsFirst(state, used, want, order, i + 1)
  {
    forall i: nat | IsFirst(state, used, want, order[1..], i) ensures IsFirst(state, used, want, order, i + 1) {
      forall j | 0 <= j < i + 1 ensures !Qualifies(state, used, want, order[j]) {
        if j > 0 { assert order[j] == order[1..][j - 1]; }
      }
    }
  }

  lemma FirstFitIs(state: Fold.State, used: set<nat>, want: Want, order: seq<nat>, i: nat)
    requires IsFirst(state, used, want, order, i)
    ensures FirstFit(state, used, want, order) == Some(order[i])
  {
    var r := FirstFit(state, used, want, order);
    assert order[i] in order;
    var j: nat :| IsFirst(state, used, want, order, j) && order[j] == r.value;
    assert i == j;
  }

  // ---------------------------------------------------------------------------
  // Where every node goes
  // ---------------------------------------------------------------------------

  /** The call created as number `call` in the view of node `parent`. */
  datatype Slot = Slot(parent: nat, call: nat)

  function FindId(nodes: seq<SourceNode>, id: string, i: nat): (r: Option<nat>)
    requires i <= |nodes|
    ensures r.Some? ==> r.value < |nodes| && nodes[r.value].id == id
    ensures r.None? ==> forall j | i <= j < |nodes| :: nodes[j].id != id
    decreases |nodes| - i
  {
    if i == |nodes| then None else if nodes[i].id == id then Some(i) else FindId(nodes, id, i + 1)
  }

  /** The node it names as its parent; the empty name is none. */
  function ParentOf(nodes: seq<SourceNode>, k: nat): (r: Option<nat>)
    requires k < |nodes|
    ensures r.Some? ==> r.value < |nodes| && nodes[k].parentNodeId == Some(nodes[r.value].id)
    ensures r.None? ==> var id := nodes[k].parentNodeId;
              id.None? || id.value == "" || forall j | 0 <= j < |nodes| :: nodes[j].id != id.value
  {
    var id := Truthy(nodes[k].parentNodeId);
    if id.None? then None else FindId(nodes, id.value, 0)
  }

  /** The call that takes a node: the first that opened its session, or else the first open agent call. */
  function CallFor(state: Fold.State, used: set<nat>, node: SourceNode): Option<nat> {
    var order := ShownCalls(state.turns);
    var bySession := if node.eveSessionId.None? then None
                     else FirstFit(state, used, SessionCall(node.eveSessionId.value), order);
    if bySession.Some? then bySession else FirstFit(state, used, AgentCall(node.nodeId), order)
  }

  function UsedIn(taken: set<Slot>, parent: nat): set<nat> {
    set s | s in taken && s.parent == parent :: s.call
  }

  function SlotFor(nodes: seq<SourceNode>, states: seq<Fold.State>, taken: set<Slot>, k: nat): Option<Slot>
    requires k < |nodes| == |states|
  {
    var parent := ParentOf(nodes, k);
    if parent.None? then None
    else
      var call := CallFor(states[parent.value], UsedIn(taken, parent.value), nodes[k]);
      if call.None? then None else Some(Slot(parent.value, call.value))
  }

  function Taken(placement: seq<Option<Slot>>): set<Slot> {
    set k | 0 <= k < |placement| && placement[k].Some? :: placement[k].value
  }

  /** Where the first `n` nodes go, one after the other. */
  function Placement(nodes: seq<SourceNode>, states: seq<Fold.State>, n: nat): (placement: seq<Option<Slot>>)
    requires n <= |nodes| == |states|
    ensures |placement| == n
  {
    if n == 0 then []
    else
      var before := Placement(nodes, states, n - 1);
      before + [SlotFor(nodes, states, Taken(before), n - 1)]
  }

  /** Where the nodes of a transcript go. */
  function PlacementOf(stringify: Json -> string, events: seq<NodeEvent>, nodes: seq<SourceNode>): seq<Option<Slot>> {
    Placement(nodes, States(stringify, events, nodes), |nodes|)
  }

  lemma TakenSnoc(placement: seq<Option<Slot>>, last: Option<Slot>)
    ensures Taken(placement + [last]) == Taken(placement) + if last.Some? then {last.value} else {}
  {
    var more := placement + [last];
    assert forall k | 0 <= k < |placement| :: more[k] == placement[k];
    assert more[|placement|] == last;
  }

  /** The whole placement agrees with what it was when node `k` had its turn. */
  lemma {:induction false} PlacementAt(nodes: seq<SourceNode>, states: seq<Fold.State>, n: nat, k: nat)
    requires k < n <= |nodes| == |states|
    ensures Placement(nodes, states, n)[..k] == Placement(nodes, states, k)
    ensures Placement(nodes, states, n)[k] == SlotFor(nodes, states, Taken(Placement(nodes, states, k)), k)
    decreases n
  {
    var before := Placement(nodes, states, n - 1);
    assert Placement(nodes, states, n)[..n - 1] == before;
    if k < n - 1 {
      PlacementAt(nodes, states, n - 1, k);
      assert Placement(nodes, states, n)[..k] == before[..k];
    }
  }

  ghost predicate Open(state: Fold.State, used: set<nat>, node: SourceNode, c: nat) {
    || (node.eveSessionId.Some? && Qualifies(state, used, SessionCall(node.eveSessionId.value), c))
    || Qualifies(state, used, AgentCall(node.nodeId), c)
  }

  /**
   A node hangs nowhere exactly when it has no parent here or none of its parent's calls was open
   for it in its turn; otherwise it hangs on the first open call that opened its session, or, if
   none did, on the first open agent call.
   */
  lemma PlacedWhenOpen(nodes: seq<SourceNode>, states: seq<Fold.State>, k: nat)
    requires k < |nodes| == |states|
    ensures var slot, parent := Placement(nodes, states, |nodes|)[k], ParentOf(nodes, k);
            if parent.None? then slot.None?
            else
              var state, used := states[parent.value], UsedIn(Taken(Placement(nodes, states, k)), parent.value);
              var order := ShownCalls(state.turns);
              && (slot.None? <==> forall c <- order :: !Open(state, used, nodes[k], c))
              && (slot.Some? ==>
                    slot.value.parent == parent.value && TakesFirst(state, used, nodes[k], slot.value.call))
  {
    PlacementAt(nodes, states, |nodes|, k);
    var parent := ParentOf(nodes, k);
    if parent.Some? {
      var used := UsedIn(Taken(Placement(nodes, states, k)), parent.value);
      CallForIsFirst(states[parent.value], used, nodes[k]);
    }
  }

  ghost predicate AnyFits(state: Fold.State, used: set<nat>, want: Want) {
    exists c <- ShownCalls(state.turns) :: Qualifies(state, used, want, c)
  }

  ghost predicate TakesFirst(state: Fold.State, used: set<nat>, node: SourceNode, c: nat) {
    if node.eveSessionId.Some? && AnyFits(state, used, SessionCall(node.eveSessionId.value)) then
      TheFirst(state, used, SessionCall(node.eveSessionId.value), c)
    else
      TheFirst(state, used, AgentCall(node.nodeId), c)
  }

  /** `c` is the first shown call without a child that fits. */
  ghost predicate TheFirst(state: Fold.State, used: set<nat>, want: Want, c: nat) {
    var order := ShownCalls(state.turns);
    exists i: nat :: IsFirst(state, used, want, order, i) && order[i] == c
  }

  lemma CallForIsFirst(state: Fold.State, used: set<nat>, node: SourceNode)
    ensures var call, order := CallFor(state, used, node), ShownCalls(state.turns);
            && (call.None? <==> forall c <- order :: !Open(state, used, node, c))
            && (call.Some? ==> TakesFirst(state, used, node, call.value) && call.value !in used)
  {
    var order := ShownCalls(state.turns);
    if node.eveSessionId.Some? { FitIsFirst(state, used, SessionCall(node.eveSessionId.value)); }
    FitIsFirst(state, used, AgentCall(node.nodeId));
    var call := CallFor(state, used, node);
    if call.Some? {
      assert call.value in order && Open(state, used, node, call.value);
    }
  }

  lemma FitIsFirst(state: Fold.State, used: set<nat>, want: Want)
    ensures var r := FirstFit(state, used, want, ShownCalls(state.turns));
            && (r.Some? <==> AnyFits(state, used, want))
            && (r.Some? ==> r.value in ShownCalls(state.turns) && TheFirst(state, used, want, r.value)
                            && Qualifies(state, used, want, r.value))
  {
  }

  /** The call opened the node's session, or is an agent's call that waits for the node, or for any. */
  predicate IsFor(call: CallView, node: SourceNode) {
    || (node.eveSessionId.Some? && call.childEveSessionId == node.eveSessionId)
    || (call.isSubagent && (node.nodeId.None? || call.targetNodeId == node.nodeId))
  }

  /** A node hangs on a call that is for it, and hangs nowhere only if every such call is taken. */
  lemma HangsOnItsCall(nodes: seq<SourceNode>, states: seq<Fold.State>, k: nat)
    requires k < |nodes| == |states| && ParentOf(nodes, k).Some?
    ensures var slot, parent := Placement(nodes, states, |nodes|)[k], ParentOf(nodes, k).value;
            var calls, taken := states[parent].calls, Taken(Placement(nodes, states, k));
            && (slot.Some? ==>
                  && slot.value.parent == parent && slot.value.call < |calls|
                  && IsFor(calls[slot.value.call], nodes[k]) && slot.value !in taken)
            && (slot.None? ==>
                  forall c <- ShownCalls(states[parent].turns) | c < |calls| && IsFor(calls[c], nodes[k]) ::
                    Slot(parent, c) in taken)
  {
    PlacedWhenOpen(nodes, states, k);
    var parent := ParentOf(nodes, k).value;
    var state, taken := states[parent], Taken(Placement(nodes, states, k));
    var used := UsedIn(taken, parent);
    assert forall c: nat :: c in used <==> Slot(parent, c) in taken by { UsedMeans(taken, parent); }
    PlacementAt(nodes, states, |nodes|, k);
    CallForIsFirst(state, used, nodes[k]);
    var slot := Placement(nodes, states, |nodes|)[k];
    if slot.None? {
      forall c <- ShownCalls(state.turns) | c < |state.calls| && IsFor(state.calls[c], nodes[k])
        ensures Slot(parent, c) in taken
      {
        assert !Open(state, used, nodes[k], c);
      }
    }
  }

  lemma UsedMeans(taken: set<Slot>, parent: nat)
    ensures forall c: nat :: c in UsedIn(taken, parent) <==> Slot(parent, c) in taken
  {
    forall c: nat ensures c in UsedIn(taken, parent) <==> Slot(parent, c) in taken {
      if Slot(parent, c) in taken { assert Slot(parent, c).parent == parent; }
    }
  }

  /** No call takes two nodes. */
  lemma SlotOnce(nodes: seq<SourceNode>, states: seq<Fold.State>, n: nat, j: nat, k: nat)
    requires j < k < n <= |nodes| == |states|
    requires Placement(nodes, states, n)[j].Some?
    ensures Placement(nodes, states, n)[j] != Placement(nodes, states, n)[k]
  {
    PlacementAt(nodes, states, n, k);
    var before := Placement(nodes, states, k);
    assert before[j] == Placement(nodes, states, n)[..k][j];
    if Placement(nodes, states, n)[k].Some? { NotTaken(nodes, states, Taken(before), k); }
  }

  lemma NotTaken(nodes: seq<SourceNode>, states: seq<Fold.State>, taken: set<Slot>, k: nat)
    requires k < |nodes| == |states| && SlotFor(nodes, states, taken, k).Some?
    ensures SlotFor(nodes, states, taken, k).value !in taken
  {
    var slot := SlotFor(nodes, states, taken, k).value;
    var used := UsedIn(taken, slot.parent);
    CallForIsFirst(states[slot.parent], used, nodes[k]);
    assert slot.call !in used;
  }
}
