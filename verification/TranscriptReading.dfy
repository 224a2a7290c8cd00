/**
 How the payload of an event is read (packages/core/src/transcript.ts:178-583, 682-739): which key
 wins, and what is skipped.
 */
module TranscriptReading {
  import opened Prelude
  import opened TranscriptEvents
  import opened TranscriptFold
  import opened TranscriptStatus

  /** The first of the keys that holds a text. */
  function FirstText(p: Fields, keys: seq<string>): Option<string> {
    if keys == [] then None
    else if keys[0] in p && p[keys[0]].Text? then AsString(Some(p[keys[0]]))
    else FirstText(p, keys[1..])
  }

  lemma FirstOfThree(p: Fields, a: string, b: string, c: string)
    ensures FirstText(p, [a, b, c]) == Or(Or(Str(p, a), Str(p, b)), Str(p, c))
  {
    assert [a, b, c][1..] == [b, c] && [b, c][1..] == [c] && [c][1..] == [];
    assert FirstText(p, [c]) == Str(p, c);
    assert FirstText(p, [b, c]) == Or(Str(p, b), Str(p, c));
  }

  /** A message is the first text among three keys, or the texts of its parts put together. */
  lemma MessageReads(p: Fields)
    ensures var direct := FirstText(p, ["message", "text", "content"]);
            if direct.Some? then MessageText(p) == direct.value
            else if "parts" in p && p["parts"].List? then
              p["parts"] == List(Parts(p)) && MessageText(p) == PartTexts(Parts(p))
            else MessageText(p) == ""
  {
    FirstOfThree(p, "message", "text", "content");
  }

  function Parts(p: Fields): seq<Json> {
    match Get(p, "parts")
    case Some(List(parts)) => parts
    case _ => []
  }

  /** Parts without a text count for nothing; the others follow one another. */
  lemma {:induction false} PartsFollow(a: seq<Json>, b: seq<Json>)
    ensures PartTexts(a + b) == PartTexts(a) + PartTexts(b)
    ensures |a| == 1 && Str(AsRecord(Some(a[0])), "text").Some? ==>
              PartTexts(a) == Str(AsRecord(Some(a[0])), "text").value
    ensures |a| == 1 && Str(AsRecord(Some(a[0])), "text").None? ==> PartTexts(a) == ""
  {
    if a == [] {
      assert a + b == b;
    } else {
      assert (a + b)[1..] == a[1..] + b;
      PartsFollow(a[1..], b);
    }
  }

  /** A call's name is the first text among three keys, or its kind, or "tool". */
  lemma NameReads(action: Fields, kind: string)
    ensures var named := FirstText(action, ["toolName", "name", "subagentName"]);
            ActionName(action, kind)
            == if named.Some? then named.value else if kind == "" then "tool" else kind
  {
    FirstOfThree(action, "toolName", "name", "subagentName");
  }

  /** An error is a text, or has a message; else the reason tells, or the message beside it. */
  lemma ErrorReads(p: Fields)
    ensures ErrorMessage(p)
         == if "error" in p && p["error"].Text? then FirstText(p, ["error"])
            else
              var inner := FirstText(Rec(p, "error"), ["message"]);
              if inner.Some? then inner else FirstText(p, ["reason", "message"])
  {
    assert ["error"][1..] == [] && ["message"][1..] == [] && ["reason", "message"][1..] == ["message"];
    assert FirstText(Rec(p, "error"), ["message"]) == Str(Rec(p, "error"), "message");
    assert FirstText(p, ["message"]) == Str(p, "message");
    assert FirstText(p, ["reason", "message"]) == Or(Str(p, "reason"), Str(p, "message"));
    assert FirstText(p, ["error"]) == Str(p, "error");
  }

  // ---------------------------------------------------------------------------
  // Tokens
  // ---------------------------------------------------------------------------

  /** What a counted event reports under a key of its usage. */
  function Amount(event: Event, key: string): real {
    if Counts(event) then AsNumber(Get(Rec(Payload(event), "usage"), key)) else 0.0
  }

  lemma CountedAmounts(event: Event)
    ensures UsageCounted(event)
         == Usage(Amount(event, "inputTokens"), Amount(event, "outputTokens"),
                  Amount(event, "cacheReadTokens"), Amount(event, "cacheWriteTokens"))
  {
  }

  function SumOf(events: seq<Event>, key: string): real {
    if events == [] then 0.0 else SumOf(events[..|events| - 1], key) + Amount(events[|events| - 1], key)
  }

  function Sums(events: seq<Event>, a: string, b: string, c: string, d: string): Usage {
    Usage(SumOf(events, a), SumOf(events, b), SumOf(events, c), SumOf(events, d))
  }

  lemma SumsLast(events: seq<Event>, a: string, b: string, c: string, d: string)
    requires events != []
    ensures var last := events[|events| - 1];
            Sums(events, a, b, c, d)
            == Plus(Sums(events[..|events| - 1], a, b, c, d),
                    Usage(Amount(last, a), Amount(last, b), Amount(last, c), Amount(last, d)))
  {
  }

  /** Each count of the turns together is the sum of the counts reported under its own key. */
  lemma {:induction false} TokensAreSummed(events: seq<Event>)
    ensures Reported(events) == Sums(events, "inputTokens", "outputTokens", "cacheReadTokens", "cacheWriteTokens")
  {
    if events != [] {
      TokensAreSummed(events[..|events| - 1]);
      CountedAmounts(events[|events| - 1]);
      SumsLast(events, "inputTokens", "outputTokens", "cacheReadTokens", "cacheWriteTokens");
    }
  }

  // ---------------------------------------------------------------------------
  // Requests
  // ---------------------------------------------------------------------------

  /** The objects among the actions. */
  function Actions(actions: seq<Json>): seq<Fields> {
    if actions == [] then []
    else (match actions[0] case Object(fields) => [fields] case _ => []) + Actions(actions[1..])
  }

  /** A call as an action asks for it. */
  predicate AskedBy(call: CallView, action: Fields, at: string) {
    && call.callId == Str(action, "callId") && call.targetNodeId == Str(action, "nodeId") && call.eventAt == at
    && call.input == (if "input" in action then action["input"] else Null)
    && (call.isSubagent <==> "kind" in action && action["kind"].Text? && StartsWith(KindOf(action), "subagent"))
  }

  lemma {:induction false} ActionsAreAsked(actions: seq<Json>, at: string)
    ensures var calls := RequestedCalls(actions, at);
            |calls| == |Actions(actions)|
            && forall i | 0 <= i < |calls| :: AskedBy(calls[i], Actions(actions)[i], at)
  {
    if actions != [] { ActionsAreAsked(actions[1..], at); }
  }

  /** Task controls are no calls; any other capability is one, for an agent exactly if its kind says so. */
  lemma CapabilityIsAsked(stringify: Json -> string, event: Event)
    requires event.kind.CallRequested?
    ensures var e, p := Decode(stringify, event), Payload(event);
            var capability := Rec(p, "capability");
            var kind := FirstText(capability, ["kind"]);
            && (e.Request? <==> kind != Some("control"))
            && (e.Request? ==>
                  && |e.calls| == 1 && e.calls[0].callId == Str(p, "callId") && e.calls[0].eventAt == event.eventAt
                  && e.calls[0].input == (if "input" in p then p["input"] else Null)
                  && (e.calls[0].isSubagent <==> kind == Some("agent")) && e.calls[0].targetNodeId.None?)
  {
    assert ["kind"][1..] == [];
    assert FirstText(Rec(Payload(event), "capability"), ["kind"]) == Str(Rec(Payload(event), "capability"), "kind");
  }

  /** Nothing else asks for calls. */
  lemma OnlyRequestsAsk(stringify: Json -> string, event: Event)
    ensures Decode(stringify, event).Request? ==> event.kind.ActionsRequested? || event.kind.CallRequested?
    ensures event.kind.ActionsRequested? ==>
              var e, p := Decode(stringify, event), Payload(event);
              && e.Request?
              && (if "actions" in p && p["actions"].List? then
                    p["actions"] == List(ActionList(p)) && e.calls == RequestedCalls(ActionList(p), event.eventAt)
                  else e.calls == [])
  {
  }

  function ActionList(p: Fields): seq<Json> {
    match Get(p, "actions")
    case Some(List(actions)) => actions
    case _ => []
  }
}
