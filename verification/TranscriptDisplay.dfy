/** groupTranscriptItems and activityStatus (packages/core/src/transcript.ts:600-655). */
module TranscriptDisplay {
  import opened Prelude
  import opened TranscriptEvents
  import opened TranscriptFold

  datatype ActivityStatus = ActivityDone | ActivityFailed | ActivityCancelled | ActivityRunning

  datatype Display = Message(item: Item) | Activity(status: ActivityStatus, items: seq<Item>)

  predicate IsMessage(item: Item) {
    item.Plain? && (item.entry.User? || item.entry.Assistant?)
  }

  predicate IncludesFrom(s: string, part: string, i: nat)
    decreases |s| - i
  {
    i + |part| <= |s| && (s[i..i + |part|] == part || IncludesFrom(s, part, i + 1))
  }

  predicate Includes(s: string, part: string) {
    IncludesFrom(s, part, 0)
  }

  predicate HasStatus(calls: seq<CallView>, item: Item, status: CallStatus) {
    item.Tool? && item.call < |calls| && calls[item.call].status == status
  }

  predicate HeadingSays(item: Item, word: string) {
    item.Plain? && item.entry.System? && Includes(Lower(item.entry.heading), word)
  }

  function StatusOf(items: seq<Item>, turnStatus: TurnStatus, trailing: bool, calls: seq<CallView>): ActivityStatus {
    if exists item <- items :: HasStatus(calls, item, CallFailed) || HeadingSays(item, "failed") then ActivityFailed
    else if exists item <- items :: HasStatus(calls, item, CallCancelled) || HeadingSays(item, "cancelled") then
      ActivityCancelled
    else if exists item <- items :: HasStatus(calls, item, Pending) then ActivityRunning
    else if turnStatus.Incomplete? && trailing then ActivityRunning
    else ActivityDone
  }

  /** A text holds another exactly if that stands somewhere in it. */
  lemma {:induction false} IncludesIff(s: string, part: string, i: nat)
    ensures IncludesFrom(s, part, i) <==> exists j: nat :: i <= j && StandsAt(s, part, j)
    decreases |s| - i
  {
    if i + |part| <= |s| {
      IncludesIff(s, part, i + 1);
      if StandsAt(s, part, i) { assert IncludesFrom(s, part, i); }
    }
  }

  predicate StandsAt(s: string, part: string, j: nat) {
    j + |part| <= |s| && s[j..j + |part|] == part
  }

  /** Something in the group failed: a call, or what a notice tells of. */
  predicate AnyFailed(items: seq<Item>, calls: seq<CallView>) {
    exists item <- items ::
      || (item.Tool? && item.call < |calls| && calls[item.call].status.CallFailed?)
      || (item.Plain? && item.entry.System? && Includes(Lower(item.entry.heading), "failed"))
  }

  predicate AnyCancelled(items: seq<Item>, calls: seq<CallView>) {
    exists item <- items ::
      || (item.Tool? && item.call < |calls| && calls[item.call].status.CallCancelled?)
      || (item.Plain? && item.entry.System? && Includes(Lower(item.entry.heading), "cancelled"))
  }

  predicate AnyPending(items: seq<Item>, calls: seq<CallView>) {
    exists item <- items :: item.Tool? && item.call < |calls| && calls[item.call].status.Pending?
  }

  /**
   A failure outweighs a cancellation, and that outweighs what still runs: a pending call, or the end
   of a turn that is incomplete.
   */
  lemma StatusIs(items: seq<Item>, turnStatus: TurnStatus, trailing: bool, calls: seq<CallView>)
    ensures var status := StatusOf(items, turnStatus, trailing, calls);
            && (status.ActivityFailed? <==> AnyFailed(items, calls))
            && (status.ActivityCancelled? <==> !AnyFailed(items, calls) && AnyCancelled(items, calls))
            && (status.ActivityRunning? <==>
                  && !AnyFailed(items, calls) && !AnyCancelled(items, calls)
                  && (AnyPending(items, calls) || (turnStatus.Incomplete? && trailing)))
  {
    assert AnyFailed(items, calls) <==>
      exists item <- items :: HasStatus(calls, item, CallFailed) || HeadingSays(item, "failed");
    assert AnyCancelled(items, calls) <==>
      exists item <- items :: HasStatus(calls, item, CallCancelled) || HeadingSays(item, "cancelled");
    assert AnyPending(items, calls) <==> exists item <- items :: HasStatus(calls, item, Pending);
  }

  function Shown(d: Display): seq<Item> {
    match d
    case Message(item) => [item]
    case Activity(_, items) => items
  }

  function Flatten(display: seq<Display>): seq<Item> {
    if display == [] then [] else Flatten(display[..|display| - 1]) + Shown(display[|display| - 1])
  }

  predicate GroupOk(d: Display) {
    match d
    case Message(item) => IsMessage(item)
    case Activity(_, items) => items != [] && forall item <- items :: !IsMessage(item)
  }

  predicate EntryOk(display: seq<Display>, i: nat)
    requires i < |display|
  {
    GroupOk(display[i]) && (i > 0 ==> display[i - 1].Message? || display[i].Message?)
  }

  /** Messages stand alone; what lies between them is gathered, leaving no empty and no split group. */
  ghost predicate Grouped(display: seq<Display>) {
    forall i {:trigger EntryOk(display, i)} | 0 <= i < |display| :: EntryOk(display, i)
  }

  predicate JudgedAt(display: seq<Display>, i: nat, trailing: nat, turnStatus: TurnStatus, calls: seq<CallView>)
    requires i < |display|
  {
    display[i].Activity? ==> display[i].status == StatusOf(display[i].items, turnStatus, i == trailing, calls)
  }

  /** Each group has the status of its items; only a group that ends the turn is trailing. */
  ghost predicate Judged(display: seq<Display>, trailing: nat, turnStatus: TurnStatus, calls: seq<CallView>) {
    forall i {:trigger JudgedAt(display, i, trailing, turnStatus, calls)} | 0 <= i < |display| ::
      JudgedAt(display, i, trailing, turnStatus, calls)
  }

  lemma FlattenSnoc(display: seq<Display>, d: Display)
    ensures Flatten(display + [d]) == Flatten(display) + Shown(d)
  {
    assert (display + [d])[..|display|] == display;
  }

  lemma GroupedSnoc(display: seq<Display>, d: Display)
    requires Grouped(display) && GroupOk(d)
    requires d.Message? || display == [] || display[|display| - 1].Message?
    ensures Grouped(display + [d])
  {
    forall i | 0 <= i < |display| + 1 ensures EntryOk(display + [d], i) {
      if i < |display| { EntryKept(display, d, i); }
    }
  }

  lemma EntryKept(display: seq<Display>, d: Display, i: nat)
    requires Grouped(display) && i < |display|
    ensures EntryOk(display + [d], i)
  {
    assert EntryOk(display, i);
    assert (display + [d])[i] == display[i] && (i > 0 ==> (display + [d])[i - 1] == display[i - 1]);
  }

  /** None of the groups so far is trailing, wherever the turn ends. */
  lemma JudgedSnoc(display: seq<Display>, d: Display, a: nat, b: nat, turnStatus: TurnStatus, calls: seq<CallView>)
    requires Judged(display, a, turnStatus, calls) && |display| <= a && |display| <= b
    requires d.Activity? ==> d.status == StatusOf(d.items, turnStatus, |display| == b, calls)
    ensures Judged(display + [d], b, turnStatus, calls)
  {
    var more := display + [d];
    forall i | 0 <= i < |more| ensures JudgedAt(more, i, b, turnStatus, calls) {
      if i < |display| { assert JudgedAt(display, i, a, turnStatus, calls); }
    }
  }

  lemma MessageLast(display: seq<Display>, turnStatus: TurnStatus, calls: seq<CallView>)
    requires display != [] && display[|display| - 1].Message? && Judged(display, |display|, turnStatus, calls)
    ensures Judged(display, |display| - 1, turnStatus, calls)
  {
    var last := |display| - 1;
    forall i | 0 <= i < |display| ensures JudgedAt(display, i, last, turnStatus, calls) {
      assert JudgedAt(display, i, |display|, turnStatus, calls);
    }
  }

  /** A message, after the items before it have been flushed. */
  method Say(display: seq<Display>, item: Item, turnStatus: TurnStatus,
        calls: seq<CallView>) returns (more: seq<Display>)
    requires Grouped(display) && Judged(display, |display|, turnStatus, calls) && IsMessage(item)
    ensures Grouped(more) && Judged(more, |more|, turnStatus, calls)
    ensures Flatten(more) == Flatten(display) + [item] && more != [] && more[|more| - 1].Message?
  {
    FlattenSnoc(display, Message(item));
    GroupedSnoc(display, Message(item));
    JudgedSnoc(display, Message(item), |display|, |display| + 1, turnStatus, calls);
    return display + [Message(item)];
  }

  method Flush(display: seq<Display>, activity: seq<Item>, turnStatus: TurnStatus, trailing: bool, calls: seq<CallView>)
    returns (more: seq<Display>)
    requires Grouped(display) && Judged(display, |display|, turnStatus, calls)
    requires display != [] ==> display[|display| - 1].Message?
    requires forall item <- activity :: !IsMessage(item)
    ensures Flatten(more) == Flatten(display) + activity
    ensures Grouped(more)
    ensures Judged(more, if trailing then |display| else |more|, turnStatus, calls)
    ensures |more| == |display| + if activity == [] then 0 else 1
    ensures activity == [] ==> more == display
  {
    if activity == [] { return display; }
    var group := Activity(StatusOf(activity, turnStatus, trailing, calls), activity);
    var at := if trailing then |display| else |display| + 1;
    FlattenSnoc(display, group);
    GroupedSnoc(display, group);
    JudgedSnoc(display, group, |display|, at, turnStatus, calls);
    return display + [group];
  }

  method GroupItems(items: seq<Item>, turnStatus: TurnStatus, calls: seq<CallView>) returns (display: seq<Display>)
    ensures Flatten(display) == items
    ensures Grouped(display)
    ensures display != [] ==> Judged(display, |display| - 1, turnStatus, calls)
  {
    display := [];
    var activity: seq<Item> := [];
    for i := 0 to |items|
      invariant Flatten(display) + activity == items[..i]
      invariant Grouped(display) && Judged(display, |display|, turnStatus, calls)
      invariant forall item <- activity :: !IsMessage(item)
      invariant display != [] ==> display[|display| - 1].Message?
    {
      assert items[..i + 1] == items[..i] + [items[i]];
      if IsMessage(items[i]) {
        display := Flush(display, activity, turnStatus, false, calls);
        activity := [];
        display := Say(display, items[i], turnStatus, calls);
      } else {
        activity := activity + [items[i]];
      }
    }
    assert items[..|items|] == items;
    if activity == [] && display != [] { MessageLast(display, turnStatus, calls); }
    display := Flush(display, activity, turnStatus, true, calls);
  }

  // ---------------------------------------------------------------------------
  // The grouping is the only one
  // ---------------------------------------------------------------------------

  /** All groups but the last. */
  function Init(display: seq<Display>): seq<Display>
    requires display != []
  {
    display[..|display| - 1]
  }

  function Last(display: seq<Display>): Display
    requires display != []
  {
    display[|display| - 1]
  }

  lemma GroupedInit(display: seq<Display>)
    requires Grouped(display) && display != []
    ensures Grouped(Init(display)) && GroupOk(Last(display))
    ensures Flatten(display) == Flatten(Init(display)) + Shown(Last(display))
    ensures Last(display).Activity? && Init(display) != [] ==> Last(Init(display)).Message?
  {
    assert EntryOk(display, |display| - 1);
    forall i | 0 <= i < |display| - 1 ensures EntryOk(Init(display), i) { assert EntryOk(display, i); }
  }

  lemma LastShown(display: seq<Display>)
    requires Grouped(display) && display != []
    ensures Flatten(display) != []
    ensures Last(display).Message? <==> IsMessage(Flatten(display)[|Flatten(display)| - 1])
  {
    GroupedInit(display);
    var items := Shown(Last(display));
    assert Flatten(display)[|Flatten(display)| - 1] == items[|items| - 1];
  }

  predicate QuietTail(all: seq<Item>, n: nat) {
    n <= |all| && forall i | |all| - n <= i < |all| :: !IsMessage(all[i])
  }

  /** A last group is the whole run of items since the last message. */
  lemma LastGroup(display: seq<Display>)
    requires Grouped(display) && display != [] && Last(display).Activity?
    ensures var n, all := |Shown(Last(display))|, Flatten(display);
            QuietTail(all, n) && (n < |all| ==> IsMessage(all[|all| - n - 1]))
  {
    GroupedInit(display);
    var all, items := Flatten(display), Shown(Last(display));
    forall i | |all| - |items| <= i < |all| ensures !IsMessage(all[i]) {
      assert all[i] == items[i - (|all| - |items|)];
    }
    if Init(display) != [] { LastShown(Init(display)); }
  }

  lemma SameLast(a: seq<Display>, b: seq<Display>)
    requires Grouped(a) && Grouped(b) && Flatten(a) == Flatten(b) && a != [] && b != []
    ensures Shown(Last(a)) == Shown(Last(b)) && (Last(a).Message? <==> Last(b).Message?)
    ensures Flatten(Init(a)) == Flatten(Init(b))
  {
    LastShown(a);
    LastShown(b);
    GroupedInit(a);
    GroupedInit(b);
    var all := Flatten(a);
    var m, n := |Shown(Last(a))|, |Shown(Last(b))|;
    if Last(a).Activity? {
      LastGroup(a);
      LastGroup(b);
    }
    assert m == n;
    assert Flatten(Init(a)) == all[..|all| - m] && Flatten(Init(b)) == all[..|all| - m];
    assert Shown(Last(a)) == all[|all| - m..] && Shown(Last(b)) == all[|all| - m..];
  }

  /** What is shown, without the statuses. */
  function Outline(display: seq<Display>): seq<(bool, seq<Item>)> {
    if display == [] then [] else Outline(Init(display)) + [(Last(display).Message?, Shown(Last(display)))]
  }

  /** Two groupings of the same items differ at most in the statuses they give. */
  lemma {:induction false} GroupingIsUnique(a: seq<Display>, b: seq<Display>)
    requires Grouped(a) && Grouped(b) && Flatten(a) == Flatten(b)
    ensures Outline(a) == Outline(b)
    decreases |a|
  {
    if a != [] && b != [] {
      SameLast(a, b);
      GroupedInit(a);
      GroupedInit(b);
      GroupingIsUnique(Init(a), Init(b));
    } else if a != [] {
      LastShown(a);
    } else if b != [] {
      LastShown(b);
    }
  }

  /** After a cancellation nothing in the turn is shown as running. */
  lemma CancelledIsNotRunning(s: State, e: Effect, items: seq<Item>, trailing: bool)
    requires Shaped(s) && e.Cancel?
    requires forall item <- items :: item in ItemsAt(Step(s, e), TurnAt(s, e.turnId))
    ensures var next := Step(s, e);
            var k := TurnAt(s, e.turnId);
            && k < |next.turns|
            && !StatusOf(items, next.turns[k].status, trailing, next.calls).ActivityRunning?
  {
    var next, k := Step(s, e), TurnAt(s, e.turnId);
    StepOnTurn(s, e);
    StepItems(s, e, k);
    forall item <- items ensures !HasStatus(next.calls, item, Pending) {
      if item.Tool? && item.call < |next.calls| {
        StepCallCount(s, e);
        CancelSettlesTheTurn(s, e, item.call);
      }
    }
  }
}
