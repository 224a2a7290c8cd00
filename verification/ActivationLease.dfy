/**
 The activation lease of one proxied request, from its grant on: the second half of
 executeGatewaySessionProxy, cancelUpstreamAndReleaseActivation and manageActivationResponse
 (apps/gateway/src/gateway-request-lifecycle.ts).
 */
module ActivationLease {

  datatype Call = Renew | Release

  function Releases(calls: seq<Call>): nat {
    if calls == [] then 0 else Releases(calls[..|calls| - 1]) + if calls[|calls| - 1].Release? then 1 else 0
  }

  /** No call of any kind follows a release. */
  predicate ReleaseLast(calls: seq<Call>) {
    forall i | 0 <= i < |calls| - 1 :: calls[i].Renew?
  }

  /** The activation client, seen as the log of the calls made about one lease. */
  class ActivationClient {
    var calls: seq<Call>

    constructor ()
      ensures calls == []
    {
      calls := [];
    }

    method Renew()
      modifies this
      ensures calls == old(calls) + [Call.Renew]
    {
      calls := calls + [Call.Renew];
    }

    method Release()
      modifies this
      ensures calls == old(calls) + [Call.Release]
    {
      calls := calls + [Call.Release];
    }
  }

  /** What the client-facing stream can see next; pulls and the cancellation settle in any order. */
  datatype BodyEvent = ReadChunk | ReadDone | ReadFailed | Cancelled | TimerFired

  predicate Terminal(e: BodyEvent) {
    e.ReadDone? || e.ReadFailed? || e.Cancelled?
  }

  predicate Over(events: seq<BodyEvent>) {
    exists e <- events :: Terminal(e)
  }

  /** The call an event causes, after a body that is over or not. */
  function Caused(over: bool, e: BodyEvent): seq<Call> {
    if over then [] else if Terminal(e) then [Release] else if e.TimerFired? then [Renew] else []
  }

  /** The calls of a whole schedule. */
  function BodyCalls(events: seq<BodyEvent>): (calls: seq<Call>) {
    if events == [] then []
    else
      var init := events[..|events| - 1];
      BodyCalls(init) + Caused(Over(init), events[|events| - 1])
  }

  /** The stream that manageActivationResponse puts around the upstream body. */
  class ManagedBody {
    const client: ActivationClient
    var finalized: bool
    var timerRunning: bool

    ghost predicate Valid()
      reads this
    {
      timerRunning == !finalized
    }

    constructor (client: ActivationClient)
      ensures Valid() && !finalized && this.client == client
    {
      this.client := client;
      finalized := false;
      timerRunning := true;
    }

    method Finalize()
      requires Valid()
      modifies this, client
      ensures Valid() && finalized
      ensures client.calls == if old(finalized) then old(client.calls) else old(client.calls) + [Release]
    {
      if finalized { return; }
      finalized := true;
      timerRunning := false;
      client.Release();
    }

    /** A `reader.read()` of some pull settled. */
    method OnRead(e: BodyEvent)
      requires Valid() && (e.ReadChunk? || e.ReadDone? || e.ReadFailed?)
      modifies this, client
      ensures Valid() && finalized == (old(finalized) || Terminal(e))
      ensures client.calls == if !old(finalized) && Terminal(e) then old(client.calls) + [Release]
              else old(client.calls)
    {
      if !e.ReadChunk? { Finalize(); }
    }

    /** The cancellation of the upstream reader settled. */
    method OnCancel()
      requires Valid()
      modifies this, client
      ensures Valid() && finalized
      ensures client.calls == if old(finalized) then old(client.calls) else old(client.calls) + [Release]
    {
      Finalize();
    }

    /** The interval fired; a cleared interval does not. */
    method OnTimer()
      requires Valid()
      modifies client
      ensures client.calls == if old(finalized) then old(client.calls) else old(client.calls) + [Renew]
    {
      if timerRunning { client.Renew(); }
    }

    method On(e: BodyEvent)
      requires Valid()
      modifies this, client
      ensures Valid() && finalized == (old(finalized) || Terminal(e))
      ensures client.calls == old(client.calls) + Caused(old(finalized), e)
    {
      match e
      case TimerFired => OnTimer();
      case Cancelled => OnCancel();
      case _ => OnRead(e);
    }

    /** Any schedule of settled reads, cancellations and timer ticks. */
    method Drive(events: seq<BodyEvent>)
      requires Valid() && !finalized
      modifies this, client
      ensures Valid()
      ensures finalized <==> Over(events)
      ensures client.calls == old(client.calls) + BodyCalls(events)
    {
      ghost var before := client.calls;
      for i := 0 to |events|
        invariant Valid()
        invariant finalized <==> Over(events[..i])
        invariant client.calls == before + BodyCalls(events[..i])
      {
        assert events[..i + 1][..i] == events[..i];
        On(events[i]);
      }
      assert events[..|events|] == events;
    }
  }

  /** What the outside does to one request that holds a lease. */
  datatype Forward = Forwarded | BodyTooLarge | ClientGone | ForwardFailed

  datatype World = World(
    forward: Forward,
    observationRejects: bool,
    bindingFails: bool,
    responseFails: bool,
    status: nat,
    hasBody: bool,
    events: seq<BodyEvent>)

  datatype Outcome = Answered(status: nat) | Threw | Streaming

  /**
   executeGatewaySessionProxy after `activate` returned.  The observation read and the
   construction of the response stand outside every `try`.
   */
  method Execute(client: ActivationClient, world: World) returns (outcome: Outcome)
    requires client.calls == []
    modifies client
    ensures Releases(client.calls) <= 1 && ReleaseLast(client.calls)
    ensures Releases(client.calls) == 1 <==> !KeepsLease(world)
    ensures outcome.Threw? <==>
              || world.forward.ForwardFailed?
              || (world.forward.Forwarded? && (world.observationRejects || world.bindingFails || world.responseFails))
    ensures outcome.Streaming? <==>
              && world.forward.Forwarded? && world.hasBody
              && !world.observationRejects && !world.bindingFails && !world.responseFails
    ensures outcome.Streaming? ==> client.calls == BodyCalls(world.events)
    ensures outcome.Answered? ==>
      && client.calls == [Release]
      && outcome.status == match world.forward case BodyTooLarge => 413 case ClientGone => 499 case _ => world.status
    ensures outcome.Threw? ==>
      var released := world.forward.ForwardFailed? || (!world.observationRejects && world.bindingFails);
      client.calls == if released then [Release] else []
  {
    if !world.forward.Forwarded? {
      client.Release();
      return match world.forward case BodyTooLarge => Answered(413) case ClientGone => Answered(499) case _ => Threw;
    }
    if world.observationRejects { return Threw; }
    if world.bindingFails {
      client.Release();
      return Threw;
    }
    if world.responseFails { return Threw; }
    if !world.hasBody {
      client.Release();
      return Answered(world.status);
    }
    var body := new ManagedBody(client);
    body.Drive(world.events);
    BodyReleasesOnce(world.events);
    assert client.calls == BodyCalls(world.events);
    return Streaming;
  }

  /**
   The lease is left to its TTL: the observation read rejected, the response could not be built,
   or the client has neither finished nor dropped the stream.
   */
  predicate KeepsLease(world: World) {
    && world.forward.Forwarded?
    && (|| world.observationRejects
        || (!world.bindingFails &&
              (world.responseFails || (world.hasBody && !Over(world.events)))))
  }

  /** Under every schedule the body releases at most once, last, and exactly once when it is over. */
  lemma {:induction false} BodyReleasesOnce(events: seq<BodyEvent>)
    ensures Releases(BodyCalls(events)) == if Over(events) then 1 else 0
    ensures ReleaseLast(BodyCalls(events))
    ensures !Over(events) ==> forall call <- BodyCalls(events) :: call.Renew?
  {
    if events != [] {
      var init, e := events[..|events| - 1], events[|events| - 1];
      BodyReleasesOnce(init);
      assert Over(events) <==> Over(init) || Terminal(e);
      ReleasesSnoc(BodyCalls(init), Caused(Over(init), e));
    }
  }

  /** The body was read to its end, failed or was cancelled. */
  predicate Ended(events: seq<BodyEvent>) {
    ReadDone in events || ReadFailed in events || Cancelled in events
  }

  /** The ticks of the timer before that. */
  function LiveTicks(events: seq<BodyEvent>): nat {
    if events == [] then 0
    else
      var init, last := events[..|events| - 1], events[|events| - 1];
      LiveTicks(init) + if last.TimerFired? && !Ended(init) then 1 else 0
  }

  /** A lease is renewed at each tick until the body ends, and released exactly if it does. */
  lemma {:induction false} LeaseLives(events: seq<BodyEvent>)
    ensures |BodyCalls(events)| == LiveTicks(events) + if Ended(events) then 1 else 0
    ensures Release in BodyCalls(events) <==> Ended(events)
  {
    if events != [] {
      var init, last := events[..|events| - 1], events[|events| - 1];
      LeaseLives(init);
      assert events == init + [last];
      EndedIsOver(init);
    }
  }

  lemma EndedIsOver(events: seq<BodyEvent>)
    ensures Ended(events) <==> Over(events)
  {
    if ReadDone in events { assert Terminal(ReadDone); }
    if ReadFailed in events { assert Terminal(ReadFailed); }
    if Cancelled in events { assert Terminal(Cancelled); }
  }

  lemma ReleasesSnoc(calls: seq<Call>, more: seq<Call>)
    requires |more| <= 1
    ensures Releases(calls + more) == Releases(calls) + if more == [Release] then 1 else 0
  {
    if more == [] { assert calls + more == calls; } else { assert (calls + more)[..|calls|] == calls; }
  }

  /** A renewal is never preceded by the release. */
  lemma NoRenewalAfterRelease(events: seq<BodyEvent>, i: nat, j: nat)
    requires i < j < |BodyCalls(events)| && BodyCalls(events)[j].Renew?
    ensures BodyCalls(events)[i].Renew?
  {
    BodyReleasesOnce(events);
  }
}
