/** buildSessionTranscript (packages/core/src/transcript.ts:90-148): child sessions on the calls that opened them. */
module TranscriptForest {
  import opened Prelude
  import opened TranscriptEvents
  import opened TranscriptBuilder
  import opened TranscriptSlots
  import Fold = TranscriptFold

  // ---------------------------------------------------------------------------
  // Finding the call a session hangs on
  // ---------------------------------------------------------------------------

  predicate OpenedSession(call: ToolCall, session: string)
    reads call
  {
    call.child == null && call.childEveSessionId == Some(session)
  }

  predicate OpenAgentCall(call: ToolCall, nodeId: Option<string>)
    reads call
  {
    call.isSubagent && call.child == null && (nodeId.Some? ==> call.targetNodeId == nodeId)
  }

  method FindCallThatOpened(view: SessionNode, eveSessionId: Option<string>) returns (slot: ToolCall?)
    requires view.Valid()
    ensures slot != null ==> slot in view.calls && eveSessionId.Some? && OpenedSession(slot, eveSessionId.value)
    ensures slot != null ==> exists i | 0 <= i < |view.calls| && view.calls[i] == slot ::
                               forall j | 0 <= j < i :: !OpenedSession(view.calls[j], eveSessionId.value)
    ensures slot == null && eveSessionId.Some? ==> forall c <- view.calls :: !OpenedSession(c, eveSessionId.value)
  {
    if eveSessionId.None? { return null; }
    var calls := view.Calls();
    for i := 0 to |calls|
      invariant forall j | 0 <= j < i :: !OpenedSession(calls[j], eveSessionId.value)
    {
      if OpenedSession(calls[i], eveSessionId.value) { return calls[i]; }
    }
    return null;
  }

  method FindOpenSubagentCall(view: SessionNode, nodeId: Option<string>) returns (slot: ToolCall?)
    requires view.Valid()
    ensures slot != null ==> slot in view.calls && OpenAgentCall(slot, nodeId)
    ensures slot != null ==> exists i | 0 <= i < |view.calls| && view.calls[i] == slot ::
                               forall j | 0 <= j < i :: !OpenAgentCall(view.calls[j], nodeId)
    ensures slot == null ==> forall c <- view.calls :: !OpenAgentCall(c, nodeId)
  {
    var calls := view.Calls();
    for i := 0 to |calls|
      invariant forall j | 0 <= j < i :: !OpenAgentCall(calls[j], nodeId)
    {
      if OpenAgentCall(calls[i], nodeId) { return calls[i]; }
    }
    return null;
  }

  // ---------------------------------------------------------------------------
  // Every node's own view
  // ---------------------------------------------------------------------------

  /** A view shows the turns of a fold. */
  ghost predicate Renders(view: SessionNode, state: Fold.State)
    reads view.turns
  {
    && view.Valid()
    && |view.turns| == |state.turns|
    && forall k | 0 <= k < |view.turns| :: view.turns[k].View() == state.turns[k]
  }

  /** The calls of a view are those of a fold, shown in the same order. */
  ghost predicate Mirrors(view: SessionNode, state: Fold.State)
    reads view.pool
  {
    && |view.pool| == |state.calls|
    && (forall c {:trigger view.pool[c]} | 0 <= c < |view.pool| ::
          view.pool[c].place == c && view.pool[c].View() == state.calls[c])
    && InOrder(view.calls, view.pool, ShownCalls(state.turns))
  }

  ghost predicate InOrder(calls: seq<ToolCall>, pool: seq<ToolCall>, order: seq<nat>) {
    && |calls| == |order|
    && forall i {:trigger order[i]} {:trigger calls[i]} | 0 <= i < |order| ::
         order[i] < |pool| && calls[i] == pool[order[i]]
  }

  /** No two views share a call. */
  ghost predicate Separate(views: seq<SessionNode>) {
    forall i, j, c {:trigger c in views[i].pool, c in views[j].pool} |
      0 <= i < |views| && 0 <= j < |views| && c in views[i].pool && c in views[j].pool :: i == j
  }

  lemma {:induction false} ItemCallsInOrder(items: seq<RowItem>, pool: seq<ToolCall>)
    requires Shows(items, pool)
    ensures InOrder(ItemCalls(items), pool, CallPlaces(Seen(items)))
  {
    if items != [] {
      var last := |items| - 1;
      assert Seen(items)[..last] == Seen(items[..last]);
      ItemCallsInOrder(items[..last], pool);
    }
  }

  lemma {:induction false} TurnCallsInOrder(turns: seq<Turn>, folded: seq<Fold.Turn>, pool: seq<ToolCall>)
    requires |turns| == |folded|
    requires forall k | 0 <= k < |turns| :: turns[k].View() == folded[k] && Shows(turns[k].items, pool)
    ensures InOrder(TurnCalls(turns), pool, ShownCalls(folded))
  {
    if turns != [] {
      var last := |turns| - 1;
      TurnCallsInOrder(turns[..last], folded[..last], pool);
      ItemCallsInOrder(turns[last].items, pool);
      assert folded[last].items == Seen(turns[last].items);
    }
  }

  method BuildView(id: Option<string>, effects: seq<Effect>) returns (view: SessionNode)
    ensures fresh(view) && view.sessionNodeId == id
    ensures Renders(view, Fold.Fold(effects)) && Mirrors(view, Fold.Fold(effects))
    ensures forall c <- view.pool :: fresh(c) && c.child == null
    ensures forall t <- view.turns :: fresh(t)
  {
    var b := BuildTurns(effects);
    view := new SessionNode(id, b.turns, b.calls);
    assert forall k | 0 <= k < |b.turns| :: TurnIs(b.turns[k], k, b.state.turns[k]) && Shows(b.turns[k].items, b.calls);
    assert forall c | 0 <= c < |b.calls| :: CallIs(b.calls[c], c, b.state.calls[c]);
    TurnCallsInOrder(b.turns, b.state.turns, b.calls);
  }

  // ---------------------------------------------------------------------------
  // Hanging the child sessions
  // ---------------------------------------------------------------------------

  /** The calls of all views. */
  ghost function Pool(views: seq<SessionNode>): set<ToolCall> {
    set i, c | 0 <= i < |views| && c in views[i].pool :: c
  }

  ghost predicate ViewsOf(nodes: seq<SourceNode>, views: seq<SessionNode>) {
    && DistinctIds(nodes)
    && |views| == |nodes|
    && (forall i | 0 <= i < |nodes| :: views[i].sessionNodeId == Some(nodes[i].id))
    && Separate(views)
  }

  ghost predicate AllMirror(views: seq<SessionNode>, states: seq<Fold.State>)
    reads Pool(views)
  {
    && |views| <= |states|
    && forall i {:trigger views[i]} | 0 <= i < |views| ::
         assert forall c <- views[i].pool :: c in Pool(views);
         Mirrors(views[i], states[i])
  }

  /** The call in a slot holds the view of the node placed there, and any other call holds nothing. */
  ghost predicate Holds(views: seq<SessionNode>, placement: seq<Option<Slot>>, i: nat, c: nat)
    requires i < |views| && c < |views[i].pool|
    reads views[i].pool[c]
  {
    && (views[i].pool[c].child != null <==> Slot(i, c) in Taken(placement))
    && forall k | 0 <= k < |placement| && k < |views| && placement[k] == Some(Slot(i, c)) ::
         views[i].pool[c].child == views[k]
  }

  ghost predicate Hung(views: seq<SessionNode>, placement: seq<Option<Slot>>)
    reads Pool(views)
  {
    forall i, c {:trigger Holds(views, placement, i, c)} | 0 <= i < |views| && 0 <= c < |views[i].pool| ::
      assert views[i].pool[c] in views[i].pool;
      assert views[i].pool[c] in Pool(views);
      Holds(views, placement, i, c)
  }

  /** The views of the nodes that hang nowhere, in order. */
  ghost function Detached(nodes: seq<SourceNode>, views: seq<SessionNode>, placement: seq<Option<Slot>>)
    : seq<SessionNode>
    requires |placement| <= |views|
  {
    if placement == [] then []
    else
      var k := |placement| - 1;
      Detached(nodes, views, placement[..k]) + if placement[k].None? && Root(nodes) != Some(k) then [views[k]] else []
  }

  lemma SkipKeeps(views: seq<SessionNode>, placement: seq<Option<Slot>>)
    requires Hung(views, placement)
    ensures Hung(views, placement + [None])
  {
    TakenSnoc(placement, None);
    forall i, c | 0 <= i < |views| && 0 <= c < |views[i].pool| ensures Holds(views, placement + [None], i, c) {
      assert Holds(views, placement, i, c);
    }
  }

  lemma HeldNew(views: seq<SessionNode>, placement: seq<Option<Slot>>, s: Slot)
    requires |placement| < |views| && s.parent < |views| && s.call < |views[s.parent].pool|
    requires s !in Taken(placement) && views[s.parent].pool[s.call].child == views[|placement|]
    ensures Holds(views, placement + [Some(s)], s.parent, s.call)
  {
    TakenSnoc(placement, Some(s));
    assert forall k | 0 <= k < |placement| && placement[k].Some? :: placement[k].value in Taken(placement);
  }

  lemma HeldOld(views: seq<SessionNode>, placement: seq<Option<Slot>>, s: Slot, i: nat, c: nat)
    requires i < |views| && c < |views[i].pool| && Slot(i, c) != s
    requires Holds(views, placement, i, c)
    ensures Holds(views, placement + [Some(s)], i, c)
  {
    TakenSnoc(placement, Some(s));
  }

  /** Hang the next node's view on a call that has no child yet. */
  method Hang(views: seq<SessionNode>, slot: ToolCall, view: SessionNode, ghost states: seq<Fold.State>,
        ghost placement: seq<Option<Slot>>, ghost s: Slot)
    requires Separate(views) && AllMirror(views, states) && Hung(views, placement)
    requires |placement| < |views| && view == views[|placement|]
    requires s.parent < |views| && s.call < |views[s.parent].pool| && slot == views[s.parent].pool[s.call]
    requires s !in Taken(placement)
    modifies slot`child
    ensures AllMirror(views, states) && Hung(views, placement + [Some(s)])
  {
    slot.child := view;
    assert AllMirror(views, states) by {
      forall i | 0 <= i < |views| ensures Mirrors(views[i], states[i]) {
        assert old(Mirrors(views[i], states[i]));
      }
    }
    forall i, c | 0 <= i < |views| && 0 <= c < |views[i].pool|
      ensures Holds(views, placement + [Some(s)], i, c)
    {
      if i == s.parent && c == s.call {
        HeldNew(views, placement, s);
      } else {
        if views[i].pool[c] == slot { SameCall(views, states, i, c, s.parent, s.call); }
        assert old(Holds(views, placement, i, c));
        HeldOld(views, placement, s, i, c);
      }
    }
  }

  lemma SameCall(views: seq<SessionNode>, states: seq<Fold.State>, i: nat, c: nat, j: nat, d: nat)
    requires Separate(views) && AllMirror(views, states)
    requires i < |views| && c < |views[i].pool| && j < |views| && d < |views[j].pool|
    requires views[i].pool[c] == views[j].pool[d]
    ensures i == j && c == d
  {
    assert views[i].pool[c] in views[i].pool && views[j].pool[d] in views[j].pool;
    assert Mirrors(views[i], states[i]);
  }

  // ---------------------------------------------------------------------------
  // The slot of a node
  // ---------------------------------------------------------------------------

  ghost predicate Suits(call: ToolCall, want: Want)
    reads call
  {
    call.child == null && Fits(want, call.View())
  }

  /** The calls of the view without a child are those that are not used. */
  ghost predicate Unused(view: SessionNode, used: set<nat>)
    reads view.pool
  {
    forall c | 0 <= c < |view.pool| :: view.pool[c].child != null <==> c in used
  }

  lemma SuitsIsQualifies(view: SessionNode, state: Fold.State, used: set<nat>, want: Want, i: nat)
    requires Mirrors(view, state) && Unused(view, used) && i < |view.calls|
    ensures var order := ShownCalls(state.turns);
            i < |order| && order[i] < |view.pool| && view.calls[i] == view.pool[order[i]]
            && (Suits(view.calls[i], want) <==> Qualifies(state, used, want, order[i]))
  {
  }

  /** The first suitable call that the view shows is the one the fold's calls determine. */
  lemma FirstSuited(view: SessionNode, state: Fold.State, used: set<nat>, want: Want, i: nat)
    requires Mirrors(view, state) && Unused(view, used)
    requires i < |view.calls| && Suits(view.calls[i], want)
    requires forall j | 0 <= j < i :: !Suits(view.calls[j], want)
    ensures var r := FirstFit(state, used, want, ShownCalls(state.turns));
            r.Some? && r.value < |view.pool| && view.calls[i] == view.pool[r.value]
  {
    forall j | 0 <= j <= i ensures j == i <==> Qualifies(state, used, want, ShownCalls(state.turns)[j]) {
      SuitsIsQualifies(view, state, used, want, j);
    }
    FirstFitIs(state, used, want, ShownCalls(state.turns), i);
  }

  lemma NoneSuited(view: SessionNode, state: Fold.State, used: set<nat>, want: Want)
    requires Mirrors(view, state) && Unused(view, used)
    requires forall c <- view.calls :: !Suits(c, want)
    ensures FirstFit(state, used, want, ShownCalls(state.turns)).None?
  {
    forall i | 0 <= i < |view.calls| ensures !Qualifies(state, used, want, ShownCalls(state.turns)[i]) {
      SuitsIsQualifies(view, state, used, want, i);
      assert view.calls[i] in view.calls;
    }
    FitIsFirst(state, used, want);
  }

  /** The call of a view that takes a node. */
  method FindCall(view: SessionNode, node: SourceNode, ghost state: Fold.State, ghost used: set<nat>)
    returns (slot: ToolCall?)
    requires view.Valid() && Mirrors(view, state) && Unused(view, used)
    ensures var c := CallFor(state, used, node);
            if slot == null then c.None? else c.Some? && c.value < |view.pool| && slot == view.pool[c.value]
  {
    slot := FindCallThatOpened(view, node.eveSessionId);
    if slot != null {
      ghost var want := SessionCall(node.eveSessionId.value);
      ghost var i :| 0 <= i < |view.calls| && view.calls[i] == slot
          && forall j | 0 <= j < i :: !Suits(view.calls[j], want);
      FirstSuited(view, state, used, want, i);
      return;
    }
    if node.eveSessionId.Some? { NoneSuited(view, state, used, SessionCall(node.eveSessionId.value)); }
    slot := FindOpenSubagentCall(view, node.nodeId);
    ghost var want := AgentCall(node.nodeId);
    if slot != null {
      ghost var i :| 0 <= i < |view.calls| && view.calls[i] == slot
          && forall j | 0 <= j < i :: !Suits(view.calls[j], want);
      FirstSuited(view, state, used, want, i);
    } else {
      NoneSuited(view, state, used, want);
    }
  }

  ghost predicate IndexOf(nodes: seq<SourceNode>, views: seq<SessionNode>, byId: map<string, SessionNode>)
    requires |views| <= |nodes|
  {
    && (forall i | 0 <= i < |views| :: nodes[i].id in byId)
    && (forall id | id in byId :: exists i | 0 <= i < |views| :: nodes[i].id == id && byId[id] == views[i])
  }

  /** What the look-up of a node's parent finds. */
  lemma ParentIndexed(nodes: seq<SourceNode>, views: seq<SessionNode>, byId: map<string, SessionNode>, k: nat)
    requires ViewsOf(nodes, views) && IndexOf(nodes, views, byId) && k < |nodes|
    ensures var id, parent := nodes[k].parentNodeId, ParentOf(nodes, k);
            && (parent.None? <==> id.None? || id.value == "" || id.value !in byId)
            && (parent.Some? ==> byId[id.value] == views[parent.value])
  {
    var id, parent := nodes[k].parentNodeId, ParentOf(nodes, k);
    if parent.Some? {
      var i :| 0 <= i < |views| && nodes[i].id == id.value && byId[id.value] == views[i];
      assert i == parent.value;
    }
  }

  lemma UsedHere(views: seq<SessionNode>, placement: seq<Option<Slot>>, parent: nat)
    requires Hung(views, placement) && parent < |views|
    ensures Unused(views[parent], UsedIn(Taken(placement), parent))
  {
    var taken := Taken(placement);
    forall c | 0 <= c < |views[parent].pool|
      ensures views[parent].pool[c].child != null <==> c in UsedIn(taken, parent)
    {
      assert Holds(views, placement, parent, c);
      assert Slot(parent, c) in taken ==> Slot(parent, c).parent == parent;
    }
  }

  /** The call that takes node `k`, if it has a parent and one is open. */
  method FindSlot(nodes: seq<SourceNode>, views: seq<SessionNode>, byId: map<string, SessionNode>, k: nat,
        ghost states: seq<Fold.State>, ghost placement: seq<Option<Slot>>)
    returns (slot: ToolCall?)
    requires ViewsOf(nodes, views) && IndexOf(nodes, views, byId) && k < |nodes| == |states|
    requires forall v <- views :: v.Valid()
    requires AllMirror(views, states) && Hung(views, placement)
    ensures var s := SlotFor(nodes, states, Taken(placement), k);
            if slot == null then s.None?
            else s.Some? && s.value.parent < |views| && s.value.call < |views[s.value.parent].pool|
                 && slot == views[s.value.parent].pool[s.value.call]
  {
    ParentIndexed(nodes, views, byId, k);
    var id := nodes[k].parentNodeId;
    if id.None? || id.value == "" || id.value !in byId { return null; }
    ghost var parent := ParentOf(nodes, k).value;
    UsedHere(views, placement, parent);
    assert Mirrors(views[parent], states[parent]);
    slot := FindCall(byId[id.value], nodes[k], states[parent], UsedIn(Taken(placement), parent));
  }

  lemma PlacementSnoc(nodes: seq<SourceNode>, states: seq<Fold.State>, k: nat)
    requires k < |nodes| == |states|
    ensures var before := Placement(nodes, states, k);
            Placement(nodes, states, k + 1) == before + [SlotFor(nodes, states, Taken(before), k)]
  {
  }

  lemma DetachedSnoc(nodes: seq<SourceNode>, views: seq<SessionNode>, placement: seq<Option<Slot>>, last: Option<Slot>)
    requires |placement| < |views|
    ensures Detached(nodes, views, placement + [last])
         == Detached(nodes, views, placement)
            + if last.None? && Root(nodes) != Some(|placement|) then [views[|placement|]] else []
  {
    assert (placement + [last])[..|placement|] == placement;
  }

  /** Hang the next node's view, or add it to the detached ones. */
  method HangNext(nodes: seq<SourceNode>, views: seq<SessionNode>, byId: map<string, SessionNode>, k: nat,
        detached: seq<SessionNode>, ghost states: seq<Fold.State>)
    returns (more: seq<SessionNode>)
    requires ViewsOf(nodes, views) && IndexOf(nodes, views, byId) && k < |nodes| == |states|
    requires forall v <- views :: v.Valid()
    requires AllMirror(views, states) && Hung(views, Placement(nodes, states, k))
    requires detached == Detached(nodes, views, Placement(nodes, states, k))
    modifies Pool(views)`child
    ensures AllMirror(views, states) && Hung(views, Placement(nodes, states, k + 1))
    ensures more == Detached(nodes, views, Placement(nodes, states, k + 1))
  {
    ghost var placement := Placement(nodes, states, k);
    ghost var s := SlotFor(nodes, states, Taken(placement), k);
    PlacementSnoc(nodes, states, k);
    DetachedSnoc(nodes, views, placement, s);
    more := detached;
    if Root(nodes) == Some(k) {
      SkipKeeps(views, placement);
      return;
    }
    var slot := FindSlot(nodes, views, byId, k, states, placement);
    if slot != null {
      NotTaken(nodes, states, Taken(placement), k);
      assert slot in views[s.value.parent].pool;
      Hang(views, slot, views[k], states, placement, s.value);
    } else {
      more := detached + [views[k]];
      SkipKeeps(views, placement);
    }
  }

  method HangAll(nodes: seq<SourceNode>, views: seq<SessionNode>, byId: map<string, SessionNode>,
        ghost states: seq<Fold.State>)
    returns (detached: seq<SessionNode>)
    requires ViewsOf(nodes, views) && IndexOf(nodes, views, byId) && forall v <- views :: v.Valid()
    requires |states| == |nodes| && AllMirror(views, states)
    requires forall c <- Pool(views) :: c.child == null
    modifies Pool(views)`child
    ensures AllMirror(views, states) && Hung(views, Placement(nodes, states, |nodes|))
    ensures detached == Detached(nodes, views, Placement(nodes, states, |nodes|))
  {
    detached := [];
    NothingHung(views);
    for k := 0 to |nodes|
      invariant AllMirror(views, states) && Hung(views, Placement(nodes, states, k))
      invariant detached == Detached(nodes, views, Placement(nodes, states, k))
      invariant forall v <- views :: v.Valid()
    {
      detached := HangNext(nodes, views, byId, k, detached, states);
    }
  }

  lemma NothingHung(views: seq<SessionNode>)
    requires forall c <- Pool(views) :: c.child == null
    ensures Hung(views, [])
  {
    forall i, c | 0 <= i < |views| && 0 <= c < |views[i].pool| ensures Holds(views, [], i, c) {
      assert views[i].pool[c] in views[i].pool;
      assert views[i].pool[c] in Pool(views);
    }
  }

  // ---------------------------------------------------------------------------
  // The whole transcript
  // ---------------------------------------------------------------------------

  /** The turns of all views. */
  ghost function Rows(views: seq<SessionNode>): set<Turn> {
    set i, t | 0 <= i < |views| && t in views[i].turns :: t
  }

  /** Every view shows the fold of its node's own events, whatever hangs where. */
  ghost predicate AllRender(views: seq<SessionNode>, states: seq<Fold.State>)
    reads Rows(views)
  {
    && |views| <= |states|
    && forall i {:trigger views[i]} | 0 <= i < |views| ::
         assert forall t <- views[i].turns :: t in Rows(views);
         Renders(views[i], states[i])
  }

  ghost predicate Indexed(nodes: seq<SourceNode>, views: seq<SessionNode>, byId: map<string, SessionNode>) {
    && |views| <= |nodes|
    && Separate(views)
    && (forall i | 0 <= i < |views| :: views[i].sessionNodeId == Some(nodes[i].id))
    && IndexOf(nodes, views, byId)
  }

  lemma IndexedSnoc(nodes: seq<SourceNode>, views: seq<SessionNode>, byId: map<string, SessionNode>, view: SessionNode)
    requires Indexed(nodes, views, byId) && |views| < |nodes| && DistinctIds(nodes)
    requires view.sessionNodeId == Some(nodes[|views|].id)
    requires forall c <- view.pool :: c !in Pool(views)
    ensures Indexed(nodes, views + [view], byId[nodes[|views|].id := view])
  {
    var more, index := views + [view], byId[nodes[|views|].id := view];
    assert forall i, c | 0 <= i < |views| && c in views[i].pool :: c in Pool(views);
    forall id | id in index ensures exists i | 0 <= i < |more| :: nodes[i].id == id && index[id] == more[i] {
      if id == nodes[|views|].id {
        assert more[|views|] == view;
      } else {
        var i :| 0 <= i < |views| && nodes[i].id == id && byId[id] == views[i];
        assert more[i] == views[i];
      }
    }
  }

  /** The views built so far, none of whose calls has a child. */
  ghost predicate Built(nodes: seq<SourceNode>, states: seq<Fold.State>, views: seq<SessionNode>,
        byId: map<string, SessionNode>)
    reads Rows(views), Pool(views)
  {
    && Indexed(nodes, views, byId) && AllRender(views, states) && AllMirror(views, states)
    && forall c <- Pool(views) :: c.child == null
  }

  lemma ViewsSnoc(states: seq<Fold.State>, views: seq<SessionNode>, view: SessionNode)
    requires AllRender(views, states) && AllMirror(views, states) && |views| < |states|
    requires Renders(view, states[|views|]) && Mirrors(view, states[|views|])
    ensures AllRender(views + [view], states) && AllMirror(views + [view], states)
    ensures forall c | c in Pool(views + [view]) :: c in Pool(views) || c in view.pool
  {
    var more := views + [view];
    forall i | 0 <= i < |more| ensures Renders(more[i], states[i]) && Mirrors(more[i], states[i]) {
      if i < |views| { assert more[i] == views[i]; }
    }
  }

  lemma BuiltSnoc(nodes: seq<SourceNode>, states: seq<Fold.State>, views: seq<SessionNode>,
        byId: map<string, SessionNode>, view: SessionNode)
    requires Built(nodes, states, views, byId) && DistinctIds(nodes) && |views| < |nodes| == |states|
    requires view.sessionNodeId == Some(nodes[|views|].id)
    requires Renders(view, states[|views|]) && Mirrors(view, states[|views|])
    requires forall c <- view.pool :: c !in Pool(views) && c.child == null
    ensures Built(nodes, states, views + [view], byId[nodes[|views|].id := view])
    ensures forall c | c in Pool(views + [view]) :: c in Pool(views) || c in view.pool
  {
    IndexedSnoc(nodes, views, byId, view);
    ViewsSnoc(states, views, view);
  }

  /** One more view, apart from those built so far. */
  method AddView(id: string, effects: seq<Effect>, views: seq<SessionNode>, byId: map<string, SessionNode>,
        ghost nodes: seq<SourceNode>, ghost states: seq<Fold.State>)
    returns (view: SessionNode)
    requires Built(nodes, states, views, byId) && DistinctIds(nodes) && |views| < |nodes| == |states|
    requires id == nodes[|views|].id && states[|views|] == Fold.Fold(effects)
    ensures Built(nodes, states, views + [view], byId[id := view])
    ensures forall c | c in Pool(views + [view]) :: c in Pool(views) || fresh(c)
  {
    view := BuildView(Some(id), effects);
    BuiltSnoc(nodes, states, views, byId, view);
  }

  method BuildViews(stringify: Json -> string, events: seq<NodeEvent>, nodes: seq<SourceNode>)
    returns (views: seq<SessionNode>, byId: map<string, SessionNode>)
    requires DistinctIds(nodes)
    ensures |views| == |nodes| && Built(nodes, States(stringify, events, nodes), views, byId)
    ensures forall c <- Pool(views) :: fresh(c)
  {
    views, byId := [], map[];
    ghost var states := States(stringify, events, nodes);
    for i := 0 to |nodes|
      invariant |views| == i && Built(nodes, states, views, byId)
      invariant forall c <- Pool(views) :: fresh(c)
    {
      var view := AddView(nodes[i].id, OwnEffects(stringify, events, nodes, i), views, byId, nodes, states);
      views, byId := views + [view], byId[nodes[i].id := view];
    }
  }

  function AllEvents(events: seq<NodeEvent>): seq<Event> {
    seq(|events|, i requires 0 <= i < |events| => events[i].event)
  }

  method BuildSessionTranscript(stringify: Json -> string, events: seq<NodeEvent>, nodes: seq<SourceNode>)
    returns (root: SessionNode?, detached: seq<SessionNode>, ghost views: seq<SessionNode>)
    requires DistinctIds(nodes)
    ensures ViewsOf(nodes, views)
    ensures AllRender(views, States(stringify, events, nodes)) && AllMirror(views, States(stringify, events, nodes))
    ensures Hung(views, PlacementOf(stringify, events, nodes))
    ensures detached == Detached(nodes, views, PlacementOf(stringify, events, nodes))
    ensures Root(nodes).Some? ==> root == views[Root(nodes).value]
    ensures Root(nodes).None? ==> (root == null <==> nodes != [] || events == [])
    ensures Root(nodes).None? && root != null ==>
              Renders(root, Fold.Fold(Effects(stringify, AllEvents(events))))
  {
    var all, byId := BuildViews(stringify, events, nodes);
    views := all;
    var rootNode := Root(nodes);
    root := null;
    if rootNode.Some? {
      root := all[rootNode.value];
    } else if nodes == [] && events != [] {
      root := BuildView(None, Effects(stringify, AllEvents(events)));
    }
    detached := HangAll(nodes, all, byId, States(stringify, events, nodes));
  }
}
