/** withNdjsonIdleHeartbeat and readLimitedBody (apps/gateway/src/gateway-transport.ts). */
module GatewayTransport {
  import opened EveEvents
  import opened Lines
  import opened StreamMonitor

  // ---------------------------------------------------------------------------
  // The heartbeat stream
  // ---------------------------------------------------------------------------

  /** What is enqueued: a chunk of the source, or the bare newline. */
  datatype Emission = Source(chunk: string) | Heartbeat

  datatype Ending = Closes | Fails | StaysOpen

  datatype StreamState = Open | Closed | Errored

  function Chunk(e: Emission): string {
    match e
    case Source(chunk) => chunk
    case Heartbeat => "\n"
  }

  /** The chunks the client is sent. */
  function Sent(output: seq<Emission>): seq<string> {
    seq(|output|, i requires 0 <= i < |output| => Chunk(output[i]))
  }

  /** The source's own chunks among them. */
  function Erased(output: seq<Emission>): seq<string> {
    if output == [] then []
    else
      var before, last := Erased(output[..|output| - 1]), output[|output| - 1];
      if last.Source? then before + [last.chunk] else before
  }

  /** How many races of a schedule the pending read wins. */
  function Reads(schedule: seq<bool>): nat {
    if schedule == [] then 0
    else Reads(schedule[..|schedule| - 1]) + if schedule[|schedule| - 1] then 0 else 1
  }

  /** How many of the source's chunks that many reads deliver. */
  function Delivered(chunks: seq<string>, won: nat): nat {
    if won < |chunks| then won else |chunks|
  }

  /** The read after the last chunk finds the end of the source, unless it stays open. */
  function StateAfter(chunks: seq<string>, ending: Ending, won: nat): StreamState {
    if won <= |chunks| || ending.StaysOpen? then Open else if ending.Closes? then Closed else Errored
  }

  /** What a race adds to the output after the reads so far. */
  function Answer(chunks: seq<string>, ending: Ending, won: nat, timerWins: bool): seq<Emission> {
    if StateAfter(chunks, ending, won) != Open then []
    else if timerWins then [Heartbeat]
    else if won < |chunks| then [Source(chunks[won])]
    else if ending.StaysOpen? then [Heartbeat]
    else []
  }

  /** All that a schedule of races makes of a source. */
  function Output(chunks: seq<string>, ending: Ending, schedule: seq<bool>): seq<Emission> {
    if schedule == [] then []
    else
      var before := schedule[..|schedule| - 1];
      Output(chunks, ending, before) + Answer(chunks, ending, Reads(before), schedule[|schedule| - 1])
  }

  lemma ErasedMore(output: seq<Emission>, e: Emission)
    ensures Erased(output + [e]) == Erased(output) + if e.Source? then [e.chunk] else []
  {
    assert (output + [e])[..|output|] == output;
  }

  /** One race adds the next chunk exactly if the read wins and there is one. */
  lemma AnswerErased(chunks: seq<string>, ending: Ending, won: nat, timerWins: bool, output: seq<Emission>)
    requires Erased(output) == chunks[..Delivered(chunks, won)]
    ensures Erased(output + Answer(chunks, ending, won, timerWins))
         == chunks[..Delivered(chunks, won + if timerWins then 0 else 1)]
  {
    var answer := Answer(chunks, ending, won, timerWins);
    if answer == [] {
      assert output + answer == output;
    } else {
      assert answer == [answer[0]];
      ErasedMore(output, answer[0]);
    }
  }

  /** Nothing of the source is lost, doubled or reordered: as many chunks are sent as reads won. */
  lemma {:induction false} OutputErased(chunks: seq<string>, ending: Ending, schedule: seq<bool>)
    ensures Erased(Output(chunks, ending, schedule)) == chunks[..Delivered(chunks, Reads(schedule))]
    decreases |schedule|
  {
    if schedule != [] {
      var before, last := schedule[..|schedule| - 1], schedule[|schedule| - 1];
      OutputErased(chunks, ending, before);
      AnswerErased(chunks, ending, Reads(before), last, Output(chunks, ending, before));
    }
  }

  class HeartbeatStream {
    const chunks: seq<string>
    const ending: Ending
    /** `reader.read()` calls made so far, and whether the last one is still awaited. */
    var started: nat
    var pending: bool
    var output: seq<Emission>
    var state: StreamState

    ghost predicate Valid()
      reads this
    {
      pending ==> started > 0
    }

    /** The reads that have been answered. */
    function Settled(): int
      reads this
    {
      started - if pending then 1 else 0
    }

    constructor (chunks: seq<string>, ending: Ending)
      ensures Valid() && output == [] && state == Open && Settled() == 0
      ensures this.chunks == chunks && this.ending == ending
    {
      this.chunks, this.ending := chunks, ending;
      started, pending, output, state := 0, false, [], Open;
    }

    /**
     One pull; `timerWins` decides the race between the pending read and the heartbeat. A read that
     loses, as one that a source never answers does, stays pending for the next pull.
     */
    method Pull(timerWins: bool)
      requires Valid() && state == Open && 0 <= Settled() <= |chunks|
      modifies this
      ensures Valid()
      ensures if timerWins || (old(Settled()) == |chunks| && ending == StaysOpen) then
                state == Open && output == old(output) + [Heartbeat] && Settled() == old(Settled())
              else if old(Settled()) < |chunks| then
                && state == Open && output == old(output) + [Source(chunks[old(Settled())])]
                && Settled() == old(Settled()) + 1
              else
                && state == (if ending == Closes then Closed else Errored) && output == old(output)
                && Settled() == |chunks| + 1
    {
      if !pending { started, pending := started + 1, true; }
      var next := started - 1;
      if timerWins || (next == |chunks| && ending == StaysOpen) {
        output := output + [Heartbeat];
        return;
      }
      pending := false;
      if next < |chunks| {
        output := output + [Source(chunks[next])];
      } else {
        state := if ending == Closes then Closed else Errored;
      }
    }

    /** Pulls for as long as the stream is open. */
    method Drive(schedule: seq<bool>)
      requires Valid() && state == Open && output == [] && Settled() == 0
      modifies this
      ensures Valid()
      ensures output == Output(chunks, ending, schedule) && state == StateAfter(chunks, ending, Reads(schedule))
    {
      for i := 0 to |schedule|
        invariant Valid() && 0 <= Settled()
        invariant output == Output(chunks, ending, schedule[..i])
        invariant state == StateAfter(chunks, ending, Reads(schedule[..i]))
        invariant state == Open ==> Settled() == Delivered(chunks, Reads(schedule[..i]))
      {
        assert schedule[..i + 1][..i] == schedule[..i];
        if state == Open { Pull(schedule[i]); }
      }
      assert schedule[..|schedule|] == schedule;
    }
  }

  /**
   The same run, as values: exactly the reads that won are answered, in order, and the stream ends
   exactly when one more was than the source has chunks.
   */
  method Stream(chunks: seq<string>, ending: Ending, schedule: seq<bool>)
    returns (output: seq<Emission>, state: StreamState)
    ensures output == Output(chunks, ending, schedule)
    ensures Erased(output) == chunks[..Delivered(chunks, Reads(schedule))]
    ensures state == Closed <==> ending == Closes && Reads(schedule) > |chunks|
    ensures state == Errored <==> ending == Fails && Reads(schedule) > |chunks|
  {
    var s := new HeartbeatStream(chunks, ending);
    s.Drive(schedule);
    OutputErased(chunks, ending, schedule);
    return s.output, s.state;
  }

  // ---------------------------------------------------------------------------
  // Heartbeats seen by the monitor
  // ---------------------------------------------------------------------------

  /** What has been sent before place `i`, followed by what the source still has to send. */
  function Mixed(output: seq<Emission>, i: nat): string
    requires i <= |output|
  {
    Flatten(Sent(output[..i])) + Flatten(Erased(output[i..]))
  }

  /** A heartbeat that cuts a line in two: something but blanks stands before and behind it. */
  predicate Cuts(output: seq<Emission>, i: nat)
    requires i < |output|
  {
    && output[i].Heartbeat?
    && !Blank(Tail(Flatten(Sent(output[..i]))))
    && !Blank(Head(Flatten(Erased(output[i + 1..]))))
  }

  /** How many heartbeats cut a line, from place `i` on. */
  function CutsFrom(output: seq<Emission>, i: nat): nat
    requires i <= |output|
    decreases |output| - i
  {
    if i == |output| then 0 else (if Cuts(output, i) then 1 else 0) + CutsFrom(output, i + 1)
  }

  lemma {:induction false} FlattenCons(first: string, rest: seq<string>)
    ensures Flatten([first] + rest) == first + Flatten(rest)
    decreases |rest|
  {
    var all := [first] + rest;
    if rest == [] {
      assert all[..0] == [] && all == [first];
      assert Flatten(all) == Flatten(all[..0]) + first;
    } else {
      var n := |rest| - 1;
      assert all[..|all| - 1] == [first] + rest[..n];
      FlattenCons(first, rest[..n]);
    }
  }

  lemma {:induction false} ErasedCons(first: Emission, rest: seq<Emission>)
    ensures Erased([first] + rest) == (if first.Source? then [first.chunk] else []) + Erased(rest)
    decreases |rest|
  {
    var all := [first] + rest;
    if rest == [] {
      assert all[..0] == [] && all == [first];
    } else {
      var n := |rest| - 1;
      assert all[..|all| - 1] == [first] + rest[..n];
      ErasedCons(first, rest[..n]);
    }
  }

  /** A source chunk moves from one side to the other; a heartbeat is put between them. */
  lemma MixedStep(output: seq<Emission>, i: nat)
    requires i < |output|
    ensures var before, after := Flatten(Sent(output[..i])), Flatten(Erased(output[i + 1..]));
            match output[i]
            case Source(chunk) => Mixed(output, i) == Mixed(output, i + 1)
            case Heartbeat => Mixed(output, i) == before + after && Mixed(output, i + 1) == before + "\n" + after
  {
    var rest := output[i + 1..];
    assert output[i..] == [output[i]] + rest;
    ErasedCons(output[i], rest);
    assert output[..i + 1][..i] == output[..i];
    SentSnoc(output[..i + 1]);
    if output[i].Source? {
      FlattenCons(output[i].chunk, Erased(rest));
      Regrouped(Flatten(Sent(output[..i])), output[i].chunk, Flatten(Erased(rest)));
    } else {
      assert [] + Erased(rest) == Erased(rest);
    }
  }

  lemma {:induction false} LinesFrom(output: seq<Emission>, i: nat)
    requires i <= |output|
    ensures |Projected(Mixed(output, |output|))| == |Projected(Mixed(output, i))| + CutsFrom(output, i)
    ensures CutsFrom(output, i) == 0 ==> Projected(Mixed(output, |output|)) == Projected(Mixed(output, i))
    decreases |output| - i
  {
    if i < |output| {
      LinesFrom(output, i + 1);
      MixedStep(output, i);
      if output[i].Heartbeat? {
        InsertNewline(Flatten(Sent(output[..i])), Flatten(Erased(output[i + 1..])));
      }
    }
  }

  /**
   Whatever the schedule, the monitor projects one line more for every heartbeat that cuts one,
   and the very lines of the source exactly when none does.
   */
  lemma HeartbeatsInvisibleIff(output: seq<Emission>)
    ensures |Projected(Flatten(Sent(output)))| == |Projected(Flatten(Erased(output)))| + CutsFrom(output, 0)
    ensures Projected(Flatten(Sent(output))) == Projected(Flatten(Erased(output)))
       <==> forall i | 0 <= i < |output| :: !Cuts(output, i)
  {
    LinesFrom(output, 0);
    MixedStart(output);
    MixedEnd(output);
    NoCuts(output, 0);
  }

  lemma MixedStart(output: seq<Emission>)
    ensures Mixed(output, 0) == Flatten(Erased(output))
  {
    assert output[0..] == output && Sent(output[..0]) == [];
  }

  lemma MixedEnd(output: seq<Emission>)
    ensures Mixed(output, |output|) == Flatten(Sent(output))
  {
    assert output[..|output|] == output && Erased(output[|output|..]) == [];
  }

  lemma {:induction false} NoCuts(output: seq<Emission>, i: nat)
    requires i <= |output|
    ensures CutsFrom(output, i) == 0 <==> forall j | i <= j < |output| :: !Cuts(output, j)
    decreases |output| - i
  {
    if i < |output| { NoCuts(output, i + 1); }
  }

  predicate IsSuffix(a: string, b: string) {
    |a| <= |b| && b[|b| - |a|..] == a
  }

  /** The unfinished line of `line + more`, where `line` has no newline but `more` has. */
  lemma TailGlue(line: string, more: string, rest: string)
    requires Newline(line) == |line| && Newline(more) < |more| && rest == more[Newline(more) + 1..]
    ensures Tail(line + more) == Tail(rest)
  {
    NewlineGlue(line, more);
    Slices(line, more, Newline(more));
    TailCut(line + more, rest);
  }

  lemma TailCut(text: string, rest: string)
    requires Newline(text) < |text| && rest == text[Newline(text) + 1..]
    ensures Tail(text) == Tail(rest)
  {
  }

  lemma TailWhole(text: string)
    requires Newline(text) == |text|
    ensures Tail(text) == text
  {
  }

  /** Appending the same text keeps one unfinished line a suffix of the other. */
  lemma SuffixTail(a: string, b: string, more: string)
    requires IsSuffix(a, b) && Newline(a) == |a| && Newline(b) == |b|
    ensures IsSuffix(Tail(a + more), Tail(b + more))
  {
    if Newline(more) < |more| {
      TailGlue(a, more, more[Newline(more) + 1..]);
      TailGlue(b, more, more[Newline(more) + 1..]);
    } else {
      NewlineGlue(a, more);
      NewlineGlue(b, more);
      TailWhole(a + more);
      TailWhole(b + more);
      SuffixSnoc(a, b, more);
    }
  }

  lemma SuffixSnoc(a: string, b: string, more: string)
    requires IsSuffix(a, b)
    ensures IsSuffix(a + more, b + more)
  {
    assert b + more == b[..|b| - |a|] + (a + more);
  }

  lemma SentSnoc(output: seq<Emission>)
    requires output != []
    ensures var init := output[..|output| - 1];
            Flatten(Sent(output)) == Flatten(Sent(init)) + Chunk(output[|output| - 1])
  {
    assert Sent(output)[..|output| - 1] == Sent(output[..|output| - 1]);
  }

  /** The unfinished line sent is the end of the source's: a heartbeat only ever cuts it short. */
  lemma {:induction false} SentTail(output: seq<Emission>)
    ensures IsSuffix(Tail(Flatten(Sent(output))), Tail(Flatten(Erased(output))))
  {
    if output != [] {
      var init, last := output[..|output| - 1], output[|output| - 1];
      SentTail(init);
      SentSnoc(output);
      var s, e := Flatten(Sent(init)), Flatten(Erased(init));
      TailHasNoNewline(s);
      TailHasNoNewline(e);
      Append(s, Chunk(last));
      match last
      case Source(chunk) =>
        Append(e, chunk);
        ErasedSnoc(output, chunk);
        SuffixTail(Tail(s), Tail(e), chunk);
      case Heartbeat =>
        CutAt(Tail(s) + "\n", |Tail(s)|);
        assert (Tail(s) + "\n")[|Tail(s)| + 1..] == "";
    }
  }

  lemma ErasedSnoc(output: seq<Emission>, chunk: string)
    requires output != [] && output[|output| - 1] == Source(chunk)
    ensures Flatten(Erased(output)) == Flatten(Erased(output[..|output| - 1])) + chunk
  {
    var before := Erased(output[..|output| - 1]);
    assert Erased(output) == before + [chunk];
    assert (before + [chunk])[..|before|] == before;
  }

  lemma SuffixBlank(a: string, b: string)
    requires IsSuffix(a, b) && Blank(b)
    ensures Blank(a)
  {
    assert forall i | 0 <= i < |a| :: a[i] == b[|b| - |a| + i];
  }

  lemma Regrouped(a: string, b: string, c: string)
    ensures a + b + c == a + (b + c)
  {
  }

  predicate EndsLine(chunk: string) {
    chunk == "" || chunk[|chunk| - 1] == '\n'
  }

  lemma {:induction false} LineEndsTail(chunks: seq<string>)
    requires forall c <- chunks :: EndsLine(c)
    ensures Tail(Flatten(chunks)) == ""
  {
    if chunks != [] {
      var init, last := chunks[..|chunks| - 1], chunks[|chunks| - 1];
      LineEndsTail(init);
      Append(Flatten(init), last);
      assert "" + last == last;
      assert EndsLine(last);
      if last != "" { EndsLineTail(last); }
    }
  }

  lemma {:induction false} EndsLineTail(chunk: string)
    requires chunk != "" && chunk[|chunk| - 1] == '\n'
    ensures Tail(chunk) == ""
    decreases |chunk|
  {
    var n := Newline(chunk);
    var rest := chunk[n + 1..];
    if rest != "" { EndsLineTail(rest); }
  }

  /** When every chunk of the source ends a line, every schedule's heartbeats are invisible. */
  lemma LineEndsHarmless(output: seq<Emission>, chunks: seq<string>)
    requires Erased(output) <= chunks && forall c <- chunks :: EndsLine(c)
    ensures Projected(Flatten(Sent(output))) == Projected(Flatten(Erased(output)))
  {
    forall i | 0 <= i < |output| ensures !Cuts(output, i) {
      ErasedPrefix(output, i);
      assert forall c <- Erased(output[..i]) :: c in chunks;
      LineEndsTail(Erased(output[..i]));
      SentTail(output[..i]);
      SuffixBlank(Tail(Flatten(Sent(output[..i]))), "");
    }
    HeartbeatsInvisibleIff(output);
  }

  lemma {:induction false} ErasedPrefix(output: seq<Emission>, i: nat)
    requires i <= |output|
    ensures Erased(output[..i]) <= Erased(output)
    decreases |output|
  {
    if i < |output| {
      ErasedPrefix(output[..|output| - 1], i);
      assert output[..|output| - 1][..i] == output[..i];
    } else {
      assert output[..i] == output;
    }
  }

  /**
   Two services: an upstream whose chunks end lines is streamed with heartbeats and monitored; at every
   point the session is where the text that the reads delivered leads, and when one read more was
   answered than there are chunks, the stream is closed and that is the upstream's whole text.
   */
  method GatewayThenMonitor(parse: string -> seq<Fact>, chunks: seq<string>, schedule: seq<bool>)
    returns (status: SessionStatus, writes: seq<Write>, state: StreamState)
    requires forall c <- chunks :: EndsLine(c)
    ensures var lines := Projected(Flatten(chunks[..Delivered(chunks, Reads(schedule))]));
            status == Fold(Facts(parse, lines), Running) && Wrote(parse, lines, writes)
    ensures state == Closed <==> Reads(schedule) > |chunks|
    ensures state == Closed ==> chunks[..Delivered(chunks, Reads(schedule))] == chunks
  {
    var output, end := Stream(chunks, Closes, schedule);
    LineEndsHarmless(output, chunks);
    var forwarded, final, written := RunMonitor(parse, Sent(output));
    return final, written, end;
  }

  // ---------------------------------------------------------------------------
  // readLimitedBody
  // ---------------------------------------------------------------------------

  datatype Body = Read(bytes: seq<bv8>) | TooLarge | Aborted

  function Joined(chunks: seq<seq<bv8>>): seq<bv8> {
    if chunks == [] then [] else Joined(chunks[..|chunks| - 1]) + chunks[|chunks| - 1]
  }

  lemma {:induction false} JoinedGrows(chunks: seq<seq<bv8>>, i: nat)
    requires i <= |chunks|
    ensures |Joined(chunks[..i])| <= |Joined(chunks)|
    decreases |chunks|
  {
    if i < |chunks| {
      JoinedGrows(chunks[..|chunks| - 1], i);
      assert chunks[..|chunks| - 1][..i] == chunks[..i];
    } else {
      assert chunks[..i] == chunks;
    }
  }

  /** The request signal is seen aborted from the `abortAt`-th turn of the read loop on. */
  method ReadLimitedBody(chunks: seq<seq<bv8>>, maxBytes: nat, abortAt: nat) returns (body: Body)
    ensures body.Read? <==> |chunks| < abortAt && |Joined(chunks)| <= maxBytes
    ensures body.Read? ==> body.bytes == Joined(chunks)
    ensures body.Aborted? <==> abortAt <= |chunks| && |Joined(chunks[..abortAt])| <= maxBytes
  {
    var total := 0;
    var i := 0;
    while true
      invariant i <= |chunks| && i <= abortAt
      invariant total == |Joined(chunks[..i])| && total <= maxBytes
      decreases |chunks| - i
    {
      if i == abortAt { return Aborted; }
      if i == |chunks| { break; }
      assert chunks[..i + 1][..i] == chunks[..i];
      total := total + |chunks[i]|;
      if total > maxBytes {
        JoinedGrows(chunks, i + 1);
        if abortAt <= |chunks| {
          JoinedGrows(chunks[..abortAt], i + 1);
          assert chunks[..abortAt][..i + 1] == chunks[..i + 1];
        }
        return TooLarge;
      }
      i := i + 1;
    }
    assert chunks[..i] == chunks;
    var joined := new bv8[total](_ => 0);
    var offset := 0;
    for k := 0 to |chunks|
      invariant offset == |Joined(chunks[..k])| <= total
      invariant joined[..offset] == Joined(chunks[..k])
    {
      assert chunks[..k + 1][..k] == chunks[..k];
      JoinedGrows(chunks, k + 1);
      forall j | 0 <= j < |chunks[k]| { joined[offset + j] := chunks[k][j]; }
      assert joined[..offset + |chunks[k]|] == joined[..offset] + chunks[k];
      offset := offset + |chunks[k]|;
    }
    return Read(joined[..]);
  }
}
