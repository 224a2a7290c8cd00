/**
 When a session is missing from the transcript: exactly when, and only then, some events can make it
 so. The witness lets every node be asked for often enough that each finds an open agent call.
 */
module TranscriptCircles {
  import opened Prelude
  import opened TranscriptEvents
  import opened TranscriptSlots
  import opened TranscriptPlaces
  import Fold = TranscriptFold

  // ---------------------------------------------------------------------------
  // Events that open a call for everybody
  // ---------------------------------------------------------------------------

  /** The request for an agent call that only the node's own target, if it has one, may take. */
  function Ask(node: SourceNode): Json {
    var asked := map["kind" := Text("subagent")];
    Object(if node.nodeId.Some? then asked["nodeId" := Text(node.nodeId.value)] else asked)
  }

  function Asks(nodes: seq<SourceNode>): seq<Json> {
    seq(|nodes|, i requires 0 <= i < |nodes| => Ask(nodes[i]))
  }

  /** Everybody is asked for `m` times. */
  function Rounds(nodes: seq<SourceNode>, m: nat): seq<Json> {
    if m == 0 then [] else Rounds(nodes, m - 1) + Asks(nodes)
  }

  function AskAll(nodes: seq<SourceNode>): Event {
    Event(ActionsRequested, Object(map["actions" := List(Rounds(nodes, |nodes|))]), "")
  }

  /** Each of the first `n` nodes has that one event. */
  function EveryoneAsks(nodes: seq<SourceNode>, n: nat): (events: seq<NodeEvent>)
    requires n <= |nodes|
  {
    seq(n, i requires 0 <= i < n => NodeEvent(AskAll(nodes), Some(nodes[i].id)))
  }

  lemma {:induction false} OwnEvent(nodes: seq<SourceNode>, n: nat, i: nat, isRoot: bool)
    requires DistinctIds(nodes) && n <= |nodes| && i < |nodes|
    ensures EventsOf(EveryoneAsks(nodes, n), nodes[i].id, isRoot) == if i < n then [AskAll(nodes)] else []
  {
    if n > 0 {
      assert EveryoneAsks(nodes, n)[..n - 1] == EveryoneAsks(nodes, n - 1);
      OwnEvent(nodes, n - 1, i, isRoot);
    }
  }

  /** A call as the request for it is first shown. */
  predicate Asked(call: CallView, node: SourceNode) {
    Fits(AgentCall(node.nodeId), call)
  }

  lemma AskIsAgentCall(node: SourceNode, at: string)
    ensures Ask(node).Object? && Asked(RequestedCall(AsRecord(Some(Ask(node))), at), node)
  {
    var fields := AsRecord(Some(Ask(node)));
    assert KindOf(fields) == "subagent";
    assert StartsWith("subagent", "subagent");
    assert node.nodeId.Some? ==> Str(fields, "nodeId") == node.nodeId;
  }

  predicate AllObjects(asks: seq<Json>) {
    forall i | 0 <= i < |asks| :: asks[i].Object?
  }

  lemma {:induction false} RequestedOneByOne(asks: seq<Json>, at: string)
    requires AllObjects(asks)
    ensures var calls := RequestedCalls(asks, at);
            |calls| == |asks|
            && forall i | 0 <= i < |asks| :: calls[i] == RequestedCall(AsRecord(Some(asks[i])), at)
  {
    if asks != [] {
      RequestedOneByOne(asks[1..], at);
      assert asks[0].Object?;
    }
  }

  lemma {:induction false} RoundsAreObjects(nodes: seq<SourceNode>, m: nat)
    ensures AllObjects(Rounds(nodes, m))
    decreases m
  {
    if m > 0 { RoundsAreObjects(nodes, m - 1); }
  }

  /** Fewer calls than rounds leave, for each node, one of the calls asked for it. */
  lemma {:induction false} OneLeft(nodes: seq<SourceNode>, m: nat, k: nat, used: set<nat>) returns (c: nat)
    requires k < |nodes| && |used| < m
    ensures c < |Rounds(nodes, m)| && c !in used && Rounds(nodes, m)[c] == Ask(nodes[k])
    decreases m
  {
    var before := Rounds(nodes, m - 1);
    c := |before| + k;
    if c in used {
      var mine := c;
      c := OneLeft(nodes, m - 1, k, used - {mine});
      assert c != mine;
    }
  }

  // ---------------------------------------------------------------------------
  // The view of a node with that event
  // ---------------------------------------------------------------------------

  lemma {:induction false} CallsShown(calls: nat)
    ensures CallPlaces(Fold.Tools(0, calls)) == Fold.Numbers(0, calls)
  {
    if calls > 0 {
      CallsShown(calls - 1);
      assert Fold.Tools(0, calls)[..calls - 1] == Fold.Tools(0, calls - 1);
    }
  }

  /** One request: its calls, shown in order. */
  lemma FoldOne(at: string, calls: seq<CallView>)
    ensures var s := Fold.Fold([Request(None, at, calls)]);
            s.calls == calls && ShownCalls(s.turns) == Fold.Numbers(0, |calls|)
  {
    var e := Request(None, at, calls);
    assert [e][..1] == [e] && [e][..0] == [];
    Fold.FromSnoc(Fold.EMPTY, [e], 0);
    var entered := Fold.Enter(Fold.EMPTY, None, at);
    Fold.AddCallsAll(entered, 0, calls);
    Fold.AddCallsItems(entered, 0, calls);
    CallsShown(|calls|);
    var turns := Fold.Fold([e]).turns;
    assert |turns| == 1 && turns[0].items == Fold.Tools(0, |calls|);
    assert turns[..0] == [];
    assert ShownCalls(turns) == ShownCalls([]) + CallPlaces(turns[0].items);
  }

  /** Whatever is used by fewer than all nodes, the view still has an open agent call for each. */
  ghost predicate Welcoming(state: Fold.State, nodes: seq<SourceNode>) {
    forall k, used: set<nat> {:trigger AnyFits(state, used, AgentCall(nodes[k].nodeId))} |
      0 <= k < |nodes| && |used| < |nodes| :: AnyFits(state, used, AgentCall(nodes[k].nodeId))
  }

  lemma AskedWelcomes(stringify: Json -> string, nodes: seq<SourceNode>)
    ensures Welcoming(Fold.Fold([Decode(stringify, AskAll(nodes))]), nodes)
  {
    var asks := Rounds(nodes, |nodes|);
    var calls := RequestedCalls(asks, "");
    assert Decode(stringify, AskAll(nodes)) == Request(None, "", calls);
    FoldOne("", calls);
    RoundsAreObjects(nodes, |nodes|);
    RequestedOneByOne(asks, "");
    var state := Fold.Fold([Request(None, "", calls)]);
    forall k, used: set<nat> | 0 <= k < |nodes| && |used| < |nodes|
      ensures AnyFits(state, used, AgentCall(nodes[k].nodeId))
    {
      var c := OneLeft(nodes, |nodes|, k, used);
      AskIsAgentCall(nodes[k], "");
      assert Qualifies(state, used, AgentCall(nodes[k].nodeId), c);
      assert Fold.Numbers(0, |calls|)[c] == c;
      assert c in ShownCalls(state.turns);
    }
  }

  lemma EveryoneWelcomes(stringify: Json -> string, nodes: seq<SourceNode>, i: nat)
    requires DistinctIds(nodes) && i < |nodes|
    ensures Welcoming(States(stringify, EveryoneAsks(nodes, |nodes|), nodes)[i], nodes)
  {
    OwnEvent(nodes, |nodes|, i, Root(nodes) == Some(i));
    assert OwnEffects(stringify, EveryoneAsks(nodes, |nodes|), nodes, i) == [Decode(stringify, AskAll(nodes))];
    AskedWelcomes(stringify, nodes);
  }

  // ---------------------------------------------------------------------------
  // Then every node with a parent hangs
  // ---------------------------------------------------------------------------

  lemma OneMore(a: set<nat>, b: set<nat>, x: nat)
    requires a <= b + {x}
    ensures |a| <= |b| + 1
  {
    var more := a - b;
    assert more <= {x};
    assert |more| <= 1 by { if more != {} { assert more == {x}; } }
    assert a == (a * b) + more;
    assert b == (a * b) + (b - a);
  }

  lemma {:induction false} FewUsed(placement: seq<Option<Slot>>, parent: nat)
    ensures |UsedIn(Taken(placement), parent)| <= |placement|
  {
    if placement != [] {
      var init, last := placement[..|placement| - 1], placement[|placement| - 1];
      FewUsed(init, parent);
      TakenSnoc(init, last);
      assert placement == init + [last];
      OneMore(
        UsedIn(Taken(placement), parent), UsedIn(Taken(init), parent), if last.Some? then last.value.call else 0);
    }
  }

  /** When everyone asks for everyone, the nodes hang exactly as their parents are named. */
  lemma AllHang(stringify: Json -> string, nodes: seq<SourceNode>)
    requires DistinctIds(nodes)
    ensures Ups(PlacementOf(stringify, EveryoneAsks(nodes, |nodes|), nodes)) == Parents(nodes)
  {
    var states := States(stringify, EveryoneAsks(nodes, |nodes|), nodes);
    var placement := Placement(nodes, states, |nodes|);
    forall k | 0 <= k < |nodes| ensures Ups(placement)[k] == Parents(nodes)[k] {
      PlacementAt(nodes, states, |nodes|, k);
      var before, parent := Placement(nodes, states, k), ParentOf(nodes, k);
      if parent.Some? {
        var used := UsedIn(Taken(before), parent.value);
        FewUsed(before, parent.value);
        EveryoneWelcomes(stringify, nodes, parent.value);
        assert AnyFits(states[parent.value], used, AgentCall(nodes[k].nodeId));
        FitIsFirst(states[parent.value], used, AgentCall(nodes[k].nodeId));
      }
    }
  }

  // ---------------------------------------------------------------------------
  // The exact condition
  // ---------------------------------------------------------------------------

  /** Node `i` lies under the root or a detached node. */
  ghost predicate ShownIn(stringify: Json -> string, events: seq<NodeEvent>, nodes: seq<SourceNode>, i: nat)
    requires i < |nodes|
  {
    var up := Ups(PlacementOf(stringify, events, nodes));
    InRange(up) && exists top: nat :: ShownUnder(up, top, i)
  }

  /**
   A node is shown whatever the events are, exactly if no node that it reaches by going from child
   to named parent reaches itself.
   */
  lemma AlwaysShownIff(stringify: Json -> string, nodes: seq<SourceNode>, i: nat)
    requires DistinctIds(nodes) && i < |nodes|
    ensures (forall events: seq<NodeEvent> :: ShownIn(stringify, events, nodes, i)) <==> !CircleAbove(Parents(nodes), i)
  {
    if CircleAbove(Parents(nodes), i) {
      AllHang(stringify, nodes);
      ShownUnlessCircle(Parents(nodes), i);
      assert !ShownIn(stringify, EveryoneAsks(nodes, |nodes|), nodes, i);
    } else {
      forall events: seq<NodeEvent> ensures ShownIn(stringify, events, nodes, i) {
        var states := States(stringify, events, nodes);
        NoCircleHung(nodes, states, i);
        ShownUnlessCircle(Ups(PlacementOf(stringify, events, nodes)), i);
      }
    }
  }

  /** Two nodes that name each other as parents. */
  function Pair(): seq<SourceNode> {
    [SourceNode("a", None, Some("b"), None), SourceNode("b", None, Some("a"), None)]
  }

  /** If each of the two has an open agent call, both are missing and the transcript is empty. */
  lemma MutualParentsVanish(stringify: Json -> string)
    ensures DistinctIds(Pair()) && Root(Pair()).None?
    ensures var events := EveryoneAsks(Pair(), 2);
            && Ups(PlacementOf(stringify, events, Pair())) == [Some(1), Some(0)]
            && !ShownIn(stringify, events, Pair(), 0) && !ShownIn(stringify, events, Pair(), 1)
  {
    var nodes := Pair();
    AllHang(stringify, nodes);
    assert FindId(nodes, "a", 0) == Some(0) && FindId(nodes, "b", 1) == Some(1) && FindId(nodes, "b", 0) == Some(1);
    var up: seq<Option<nat>> := [Some(1), Some(0)];
    assert Parents(nodes) == up;
    forall i | 0 <= i < 2 ensures !ShownIn(stringify, EveryoneAsks(nodes, 2), nodes, i) {
      Circling(up, i);
      ShownUnlessCircle(up, i);
    }
  }

  lemma Circling(up: seq<Option<nat>>, i: nat)
    requires up == [Some(1), Some(0)] && i < 2
    ensures InRange(up) && CircleAbove(up, i)
  {
    assert Climb(up, i, 0) == Some(i);
    assert Climb(up, 1 - i, 1) == Climb(up, i, 0);
    assert Climb(up, i, 2) == Climb(up, 1 - i, 1);
    assert Circle(up, i, 0, i, 2);
  }

  /** Without open calls the two are detached, and shown. */
  lemma MutualParentsWithoutCalls(stringify: Json -> string)
    ensures Ups(PlacementOf(stringify, [], Pair())) == [None, None]
    ensures ShownIn(stringify, [], Pair(), 0) && ShownIn(stringify, [], Pair(), 1)
  {
    var nodes := Pair();
    var states := States(stringify, [], nodes);
    forall k | 0 <= k < 2 ensures Placement(nodes, states, 2)[k].None? {
      PlacementAt(nodes, states, 2, k);
      var parent := ParentOf(nodes, k);
      if parent.Some? {
        assert OwnEffects(stringify, [], nodes, parent.value) == [];
        assert ShownCalls(states[parent.value].turns) == [];
      }
    }
    var up := Ups(PlacementOf(stringify, [], nodes));
    assert up == [None, None];
    TopShown(up, 0);
    TopShown(up, 1);
  }

  lemma TopShown(up: seq<Option<nat>>, i: nat)
    requires InRange(up) && i < |up| && up[i].None?
    ensures exists top: nat :: ShownUnder(up, top, i)
  {
    assert Climb(up, i, 0) == Some(i);
    assert ShownUnder(up, i, i);
  }
}
