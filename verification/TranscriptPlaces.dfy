/** Where buildSessionTranscript leaves each node: placed once, and shown once unless its ancestors run in a circle. */
module TranscriptPlaces {
  import opened Prelude
  import opened TranscriptBuilder
  import opened TranscriptSlots
  import opened TranscriptForest
  import Fold = TranscriptFold

  // ---------------------------------------------------------------------------
  // Placed exactly once
  // ---------------------------------------------------------------------------

  lemma SameView(nodes: seq<SourceNode>, views: seq<SessionNode>, j: nat, k: nat)
    requires ViewsOf(nodes, views) && j < |nodes| && k < |nodes| && views[j] == views[k]
    ensures j == k
  {
    assert nodes[j].id == nodes[k].id;
  }

  /** A node's view is in the detached list exactly when it hangs nowhere and is not the root. */
  lemma {:induction false} DetachedHolds(nodes: seq<SourceNode>, views: seq<SessionNode>,
        placement: seq<Option<Slot>>, k: nat)
    requires ViewsOf(nodes, views) && |placement| <= |nodes| && k < |nodes|
    ensures views[k] in Detached(nodes, views, placement)
       <==> k < |placement| && placement[k].None? && Root(nodes) != Some(k)
  {
    if placement != [] {
      var last := |placement| - 1;
      DetachedHolds(nodes, views, placement[..last], k);
      if views[k] == views[last] { SameView(nodes, views, k, last); }
    }
  }

  lemma {:induction false} DetachedOnce(nodes: seq<SourceNode>, views: seq<SessionNode>,
        placement: seq<Option<Slot>>, i: nat, j: nat)
    requires ViewsOf(nodes, views) && |placement| <= |nodes| && i < j < |Detached(nodes, views, placement)|
    ensures Detached(nodes, views, placement)[i] != Detached(nodes, views, placement)[j]
  {
    var last := |placement| - 1;
    var before := Detached(nodes, views, placement[..last]);
    if j < |before| {
      DetachedOnce(nodes, views, placement[..last], i, j);
    } else {
      DetachedHolds(nodes, views, placement[..last], last);
      assert before[i] in before;
    }
  }

  /** The call in a view's slot. */
  ghost function CallAt(views: seq<SessionNode>, s: Slot): ToolCall
    requires s.parent < |views| && s.call < |views[s.parent].pool|
  {
    views[s.parent].pool[s.call]
  }

  ghost predicate InSlot(views: seq<SessionNode>, slot: Option<Slot>, call: ToolCall) {
    && slot.Some? && slot.value.parent < |views| && slot.value.call < |views[slot.value.parent].pool|
    && call == CallAt(views, slot.value)
  }

  /** A node's slot is a call that its parent's view shows. */
  lemma SlotShown(nodes: seq<SourceNode>, views: seq<SessionNode>, states: seq<Fold.State>, k: nat)
    requires k < |nodes| == |states| && |views| == |nodes| && AllMirror(views, states)
    requires Placement(nodes, states, |nodes|)[k].Some?
    ensures var s := Placement(nodes, states, |nodes|)[k].value;
            && s.parent < |nodes| && nodes[k].parentNodeId == Some(nodes[s.parent].id)
            && s.call < |views[s.parent].pool| && CallAt(views, s) in views[s.parent].calls
  {
    PlacementAt(nodes, states, |nodes|, k);
    var s := Placement(nodes, states, |nodes|)[k].value;
    CallForIsFirst(states[s.parent], UsedIn(Taken(Placement(nodes, states, k)), s.parent), nodes[k]);
    var order := ShownCalls(states[s.parent].turns);
    var i :| 0 <= i < |order| && order[i] == s.call;
    assert Mirrors(views[s.parent], states[s.parent]);
    assert views[s.parent].calls[i] == CallAt(views, s);
  }

  /**
   Every node is the child of the one call that is its slot, or of none if it has no slot; in the
   latter case it is detached or the root.
   */
  lemma PlacedOnce(nodes: seq<SourceNode>, views: seq<SessionNode>, states: seq<Fold.State>, k: nat)
    requires ViewsOf(nodes, views) && |states| == |nodes| && AllMirror(views, states) && k < |nodes|
    requires Hung(views, Placement(nodes, states, |nodes|))
    ensures var placement := Placement(nodes, states, |nodes|);
            var holders := set c | c in Pool(views) && c.child == views[k];
            match placement[k]
            case None => holders == {} && (views[k] in Detached(nodes, views, placement) <==> Root(nodes) != Some(k))
            case Some(s) =>
              && views[k] !in Detached(nodes, views, placement)
              && s.parent < |nodes| && nodes[k].parentNodeId == Some(nodes[s.parent].id)
              && s.call < |views[s.parent].pool| && CallAt(views, s) in views[s.parent].calls
              && holders == {CallAt(views, s)}
  {
    var placement := Placement(nodes, states, |nodes|);
    DetachedHolds(nodes, views, placement, k);
    forall c | c in Pool(views) && c.child == views[k]
      ensures InSlot(views, placement[k], c)
    {
      HolderIsSlot(nodes, views, placement, c, k);
    }
    if placement[k].Some? {
      var s := placement[k].value;
      SlotShown(nodes, views, states, k);
      assert CallAt(views, s) in views[s.parent].pool;
      assert Holds(views, placement, s.parent, s.call);
    }
  }

  lemma HolderIsSlot(nodes: seq<SourceNode>, views: seq<SessionNode>, placement: seq<Option<Slot>>, c: ToolCall, k: nat)
    requires ViewsOf(nodes, views) && |placement| == |nodes| && Hung(views, placement)
    requires k < |nodes| && c in Pool(views) && c.child == views[k]
    ensures InSlot(views, placement[k], c)
  {
    var i :| 0 <= i < |views| && c in views[i].pool;
    var n :| 0 <= n < |views[i].pool| && views[i].pool[n] == c;
    assert Holds(views, placement, i, n);
    var j :| 0 <= j < |placement| && placement[j] == Some(Slot(i, n));
    SameView(nodes, views, j, k);
  }

  // ---------------------------------------------------------------------------
  // Climbing from a node to the one it hangs under
  // ---------------------------------------------------------------------------

  ghost predicate InRange(up: seq<Option<nat>>) {
    forall k | 0 <= k < |up| && up[k].Some? :: up[k].value < |up|
  }

  /** The node `n` levels above. */
  function Climb(up: seq<Option<nat>>, i: nat, n: nat): (r: Option<nat>)
    requires InRange(up) && i < |up|
    ensures r.Some? ==> r.value < |up|
    decreases n
  {
    if n == 0 then Some(i) else if up[i].None? then None else Climb(up, up[i].value, n - 1)
  }

  lemma {:induction false} ClimbSplit(up: seq<Option<nat>>, i: nat, a: nat, b: nat)
    requires InRange(up) && i < |up| && Climb(up, i, a).Some?
    ensures Climb(up, i, a + b) == Climb(up, Climb(up, i, a).value, b)
    decreases a
  {
    if a > 0 { ClimbSplit(up, up[i].value, a - 1, b); }
  }

  /** A top: the root or a detached node. The forest shows what lies below its tops. */
  ghost predicate ShownUnder(up: seq<Option<nat>>, top: nat, i: nat)
    requires InRange(up) && i < |up|
  {
    top < |up| && up[top].None? && exists n: nat :: Climb(up, i, n) == Some(top)
  }

  ghost predicate CircleAbove(up: seq<Option<nat>>, i: nat)
    requires InRange(up) && i < |up|
  {
    exists m: nat, c: nat, n: nat :: Circle(up, i, m, c, n)
  }

  /** `c` is an ancestor of `i` and a proper ancestor of itself. */
  ghost predicate Circle(up: seq<Option<nat>>, i: nat, m: nat, c: nat, n: nat)
    requires InRange(up) && i < |up|
  {
    c < |up| && n > 0 && Climb(up, i, m) == Some(c) && Climb(up, c, n) == Some(c)
  }

  lemma ClimbShorter(up: seq<Option<nat>>, i: nat, a: nat, b: nat)
    requires InRange(up) && i < |up| && a <= b && Climb(up, i, b).Some?
    ensures Climb(up, i, a).Some?
    decreases a
  {
    if a > 0 { ClimbShorter(up, up[i].value, a - 1, b - 1); }
  }

  /** No node is under two tops. */
  lemma OneTop(up: seq<Option<nat>>, s: nat, t: nat, i: nat)
    requires InRange(up) && i < |up| && ShownUnder(up, s, i) && ShownUnder(up, t, i)
    ensures s == t
  {
    var m: nat :| Climb(up, i, m) == Some(s);
    var n: nat :| Climb(up, i, n) == Some(t);
    if m < n { ClimbSplit(up, i, m, n - m); }
    if n < m { ClimbSplit(up, i, n, m - n); }
  }

  lemma {:induction false} CircleNeverEnds(up: seq<Option<nat>>, c: nat, n: nat, k: nat)
    requires InRange(up) && c < |up| && n > 0 && Climb(up, c, n) == Some(c)
    ensures Climb(up, c, k).Some?
    decreases k
  {
    if k <= n {
      ClimbShorter(up, c, k, n);
    } else {
      CircleNeverEnds(up, c, n, k - n);
      ClimbSplit(up, c, n, k - n);
    }
  }

  /** More values than there are to choose from: one of them repeats. */
  lemma {:induction false} Pigeonhole(s: seq<nat>, n: nat) returns (a: nat, b: nat)
    requires |s| > n && forall i | 0 <= i < |s| :: s[i] < n
    ensures a < b < |s| && s[a] == s[b]
    decreases n
  {
    var last := |s| - 1;
    if i :| 0 <= i < last && s[i] == s[last] {
      return i, last;
    }
    var t := seq(last, i requires 0 <= i < last => if s[i] == n - 1 then s[last] else s[i]);
    assert forall i | 0 <= i < last :: t[i] < n - 1;
    a, b := Pigeonhole(t, n - 1);
  }

  /** Climbing either ends at a top or goes round in a circle. */
  lemma ShownOrCircle(up: seq<Option<nat>>, i: nat)
    requires InRange(up) && i < |up|
    ensures (exists t: nat :: ShownUnder(up, t, i)) || CircleAbove(up, i)
  {
    var n := |up|;
    if Climb(up, i, n).Some? {
      forall k | 0 <= k <= n ensures Climb(up, i, k).Some? { ClimbShorter(up, i, k, n); }
      var chain: seq<nat> := seq(n + 1, k requires 0 <= k <= n => Climb(up, i, k).value);
      var a, b := Pigeonhole(chain, n);
      ClimbSplit(up, i, a, b - a);
      assert Circle(up, i, a, chain[a], b - a);
    } else {
      var t := TopAbove(up, i, n);
    }
  }

  lemma {:induction false} TopAbove(up: seq<Option<nat>>, i: nat, n: nat) returns (t: nat)
    requires InRange(up) && i < |up| && Climb(up, i, n).None?
    ensures ShownUnder(up, t, i)
    decreases n
  {
    if up[i].None? {
      t := i;
      assert Climb(up, i, 0) == Some(t);
    } else {
      t := TopAbove(up, up[i].value, n - 1);
      var m: nat :| Climb(up, up[i].value, m) == Some(t);
      assert Climb(up, i, m + 1) == Some(t);
    }
  }

  /** A node is in the transcript exactly when no ancestor of it is an ancestor of itself. */
  lemma ShownUnlessCircle(up: seq<Option<nat>>, i: nat)
    requires InRange(up) && i < |up|
    ensures (exists t: nat :: ShownUnder(up, t, i)) <==> !CircleAbove(up, i)
  {
    ShownOrCircle(up, i);
    if t: nat :| ShownUnder(up, t, i) {
      var k: nat :| Climb(up, i, k) == Some(t);
      if m: nat, c: nat, n: nat :| Circle(up, i, m, c, n) {
        CircleNeverEnds(up, c, n, k + 1);
        ClimbSplit(up, i, m, k + 1);
        ClimbShorter(up, i, k + 1, m + (k + 1));
        ClimbSplit(up, i, k, 1);
      }
    }
  }

  // ---------------------------------------------------------------------------
  // Shown exactly once
  // ---------------------------------------------------------------------------

  /** The node each one hangs under. */
  function Ups(placement: seq<Option<Slot>>): (up: seq<Option<nat>>)
    ensures |up| == |placement|
  {
    seq(|placement|, k requires 0 <= k < |placement| =>
      if placement[k].None? then None else Some(placement[k].value.parent))
  }

  /** The node each one names as its parent. */
  function Parents(nodes: seq<SourceNode>): (up: seq<Option<nat>>)
    ensures |up| == |nodes| && InRange(up)
  {
    seq(|nodes|, k requires 0 <= k < |nodes| => ParentOf(nodes, k))
  }

  /** A node hangs under its parent or nowhere. */
  lemma UpsAreParents(nodes: seq<SourceNode>, states: seq<Fold.State>)
    requires |nodes| == |states|
    ensures var up := Ups(Placement(nodes, states, |nodes|));
            InRange(up) && forall k | 0 <= k < |nodes| && up[k].Some? :: up[k] == Parents(nodes)[k]
  {
    var placement := Placement(nodes, states, |nodes|);
    var up := Ups(placement);
    forall k | 0 <= k < |nodes| && up[k].Some? ensures up[k] == Parents(nodes)[k] {
      PlacementAt(nodes, states, |nodes|, k);
    }
  }

  lemma {:induction false} ClimbParents(up: seq<Option<nat>>, parents: seq<Option<nat>>, i: nat, n: nat)
    requires InRange(up) && InRange(parents) && |up| == |parents| && i < |up| && Climb(up, i, n).Some?
    requires forall k | 0 <= k < |up| && up[k].Some? :: up[k] == parents[k]
    ensures Climb(parents, i, n) == Climb(up, i, n)
    decreases n
  {
    if n > 0 { ClimbParents(up, parents, up[i].value, n - 1); }
  }

  /** `top` is the root or a detached node, and the only such node that `i` is under. */
  ghost predicate OnlyTop(nodes: seq<SourceNode>, views: seq<SessionNode>, placement: seq<Option<Slot>>,
        top: nat, i: nat)
    requires ViewsOf(nodes, views) && |placement| == |nodes| && InRange(Ups(placement)) && i < |nodes|
  {
    && ShownUnder(Ups(placement), top, i)
    && (Root(nodes) == Some(top) || views[top] in Detached(nodes, views, placement))
    && forall t: nat | ShownUnder(Ups(placement), t, i) :: t == top
  }

  /**
   A node whose named ancestors do not run in a circle is under exactly one of the root and the
   detached nodes.
   */
  lemma ShownOnce(nodes: seq<SourceNode>, views: seq<SessionNode>, states: seq<Fold.State>, i: nat)
    requires ViewsOf(nodes, views) && |states| == |nodes| && i < |nodes|
    requires !CircleAbove(Parents(nodes), i)
    ensures var placement := Placement(nodes, states, |nodes|);
            InRange(Ups(placement)) && exists top: nat :: OnlyTop(nodes, views, placement, top, i)
  {
    var placement := Placement(nodes, states, |nodes|);
    UpsAreParents(nodes, states);
    NoCircleHung(nodes, states, i);
    ShownOrCircle(Ups(placement), i);
    var top: nat :| ShownUnder(Ups(placement), top, i);
    DetachedHolds(nodes, views, placement, top);
    forall t: nat | ShownUnder(Ups(placement), t, i) ensures t == top { OneTop(Ups(placement), t, top, i); }
    assert OnlyTop(nodes, views, placement, top, i);
  }

  /** A circle of hung nodes is a circle of parents. */
  lemma NoCircleHung(nodes: seq<SourceNode>, states: seq<Fold.State>, i: nat)
    requires |states| == |nodes| && i < |nodes| && !CircleAbove(Parents(nodes), i)
    ensures var up := Ups(Placement(nodes, states, |nodes|)); InRange(up) && !CircleAbove(up, i)
  {
    var up := Ups(Placement(nodes, states, |nodes|));
    UpsAreParents(nodes, states);
    if m: nat, c: nat, n: nat :| Circle(up, i, m, c, n) {
      ClimbParents(up, Parents(nodes), i, m);
      ClimbParents(up, Parents(nodes), c, n);
      assert Circle(Parents(nodes), i, m, c, n);
    }
  }
}
