/**
 monitorPlaygroundStream and projectPlaygroundStreamLine (apps/api/src/app-support.ts): a tee that
 forwards a session stream and projects its lines onto the stored session status.
 */
module StreamMonitor {
  import opened Prelude
  import opened EveEvents
  import opened Lines

  /** A completeSession call; the failing fact is what the error text is made from. */
  datatype Write = Write(status: SessionStatus, failure: Option<Fact>)

  // ---------------------------------------------------------------------------
  // One line
  // ---------------------------------------------------------------------------

  function LastFailing(facts: seq<Fact>): Option<Fact> {
    if facts == [] then None
    else
      var n := |facts| - 1;
      if Fails(facts[n]) then Some(facts[n]) else LastFailing(facts[..n])
  }

  /**
   A line whose facts move the status is written once, with the status they lead to; a failed
   session is given the last fact that failed it.
   */
  predicate LineWrite(facts: seq<Fact>, current: SessionStatus, writes: seq<Write>) {
    if !Moves(facts, current) then writes == []
    else
      var status := Fold(facts, current);
      && writes == [Write(status, if status.Failed? then LastFailing(facts) else None)]
      && (status.Failed? ==> LastFailing(facts).Some?)
  }

  lemma {:induction false} MovesSnoc(facts: seq<Fact>, fact: Fact, current: SessionStatus)
    ensures Moves(facts + [fact], current) <==> Moves(facts, current) || StatusFrom(fact, Fold(facts, current)).Some?
  {
    if facts == [] {
      assert [] + [fact] == [fact];
      assert [fact][1..] == [];
    } else {
      assert (facts + [fact])[1..] == facts[1..] + [fact];
      MovesSnoc(facts[1..], fact, After(facts[0], current));
    }
  }

  /** While no fact has moved the status it is the one the line started from. */
  lemma {:induction false} UnmovedFold(facts: seq<Fact>, current: SessionStatus)
    requires !Moves(facts, current)
    ensures Fold(facts, current) == current
  {
    if facts != [] { UnmovedFold(facts[1..], After(facts[0], current)); }
  }

  method ProjectLine(facts: seq<Fact>, current: SessionStatus) returns (status: SessionStatus, writes: seq<Write>)
    ensures status == Fold(facts, current)
    ensures LineWrite(facts, current, writes)
  {
    status := current;
    var projected := false;
    var failure: Option<Fact> := None;
    for i := 0 to |facts|
      invariant status == Fold(facts[..i], current)
      invariant projected == Moves(facts[..i], current)
      invariant failure == LastFailing(facts[..i])
      invariant projected && status.Failed? ==> failure.Some?
    {
      assert facts[..i + 1] == facts[..i] + [facts[i]];
      MovesSnoc(facts[..i], facts[i], current);
      FoldSnoc(facts[..i], facts[i], current);
      MovedBy(facts[i], status);
      var next := StatusFrom(facts[i], status);
      if next.Some? {
        if next.value.Failed? { failure := Some(facts[i]); }
        projected, status := true, next.value;
      }
    }
    assert facts[..|facts|] == facts;
    if !projected {
      UnmovedFold(facts, current);
      return current, [];
    }
    writes := [Write(status, if status.Failed? then failure else None)];
  }

  // ---------------------------------------------------------------------------
  // The stream
  // ---------------------------------------------------------------------------

  /** The facts of all lines, in order. */
  function Facts(parse: string -> seq<Fact>, lines: seq<string>): seq<Fact> {
    if lines == [] then [] else Facts(parse, lines[..|lines| - 1]) + parse(lines[|lines| - 1])
  }

  /** The writes are those of the lines, one after the other. */
  ghost predicate Wrote(parse: string -> seq<Fact>, lines: seq<string>, writes: seq<Write>)
    decreases |lines|, 1
  {
    if lines == [] then writes == []
    else exists n: nat :: n <= |writes| && WroteLast(parse, lines, writes, n)
  }

  ghost predicate WroteLast(parse: string -> seq<Fact>, lines: seq<string>, writes: seq<Write>, n: nat)
    requires lines != [] && n <= |writes|
    decreases |lines|, 0
  {
    var before := lines[..|lines| - 1];
    && Wrote(parse, before, writes[..n])
    && LineWrite(parse(lines[|lines| - 1]), Fold(Facts(parse, before), Running), writes[n..])
  }

  /** One more line, projected from where the lines before it led. */
  lemma WroteSnoc(parse: string -> seq<Fact>, lines: seq<string>, writes: seq<Write>, line: string, more: seq<Write>)
    requires Wrote(parse, lines, writes)
    requires LineWrite(parse(line), Fold(Facts(parse, lines), Running), more)
    ensures Wrote(parse, lines + [line], writes + more)
    ensures Fold(Facts(parse, lines + [line]), Running) == Fold(parse(line), Fold(Facts(parse, lines), Running))
  {
    var all := lines + [line];
    assert all[..|all| - 1] == lines;
    FoldConcat(Facts(parse, lines), parse(line), Running);
    assert (writes + more)[..|writes|] == writes && (writes + more)[|writes|..] == more;
    assert WroteLast(parse, all, writes + more, |writes|);
  }

  function Flatten(chunks: seq<string>): string {
    if chunks == [] then "" else Flatten(chunks[..|chunks| - 1]) + chunks[|chunks| - 1]
  }

  lemma NextLine(lines: seq<string>, line: string, rest: seq<string>)
    ensures lines + NonBlank([line] + rest) == (lines + NonBlankLine(line)) + NonBlank(rest)
  {
    FirstOf(line, rest);
    Regroup(lines, NonBlankLine(line), NonBlank(rest));
  }

  class Monitor {
    const parse: string -> seq<Fact>
    var buffer: string
    var currentStatus: SessionStatus
    /** What the client was sent, and what the store was told. */
    var forwarded: seq<string>
    var writes: seq<Write>
    /** The lines projected so far. */
    ghost var lines: seq<string>

    ghost predicate Valid()
      reads this
    {
      && currentStatus == Fold(Facts(parse, lines), Running)
      && Wrote(parse, lines, writes)
    }

    /** Everything before the unfinished line is projected. */
    ghost predicate UpTo(text: string)
      reads this
    {
      lines == NonBlank(Complete(text)) && buffer == Tail(text)
    }

    constructor (parse: string -> seq<Fact>)
      ensures Valid() && UpTo("") && forwarded == [] && this.parse == parse && lines == []
    {
      this.parse := parse;
      buffer, currentStatus, forwarded, writes, lines := "", Running, [], [], [];
    }

    /** Project one trimmed line unless it is empty. */
    method Project(line: string)
      requires Valid()
      modifies this`currentStatus, this`writes, this`lines
      ensures Valid()
      ensures lines == old(lines) + if line == "" then [] else [line]
    {
      if line == "" { return; }
      var status, more := ProjectLine(parse(line), currentStatus);
      WroteSnoc(parse, lines, writes, line, more);
      currentStatus, writes, lines := status, writes + more, lines + [line];
    }

    /** One chunk read from upstream. */
    method OnChunk(chunk: string, ghost text: string)
      requires Valid() && UpTo(text)
      modifies this
      ensures Valid() && UpTo(text + chunk)
      ensures forwarded == old(forwarded) + [chunk]
    {
      forwarded := forwarded + [chunk];
      buffer := buffer + chunk;
      Append(text, chunk);
      NonBlankConcat(Complete(text), Complete(buffer));
      ghost var all := lines + NonBlank(Complete(buffer));
      ghost var tail := Tail(buffer);
      while true
        invariant Valid()
        invariant lines + NonBlank(Complete(buffer)) == all && Tail(buffer) == tail
        invariant forwarded == old(forwarded) + [chunk]
        decreases |buffer|
      {
        var newline := Newline(buffer);
        if newline == |buffer| { break; }
        var line, rest := buffer[..newline], buffer[newline + 1..];
        CutAt(buffer, newline);
        NextLine(lines, line, Complete(rest));
        Project(Trim(line));
        buffer := rest;
      }
      assert Complete(buffer) == [] && lines + [] == lines;
    }

    /** The end of the stream: the unfinished line counts too. */
    method OnDone(ghost text: string)
      requires Valid() && UpTo(text)
      modifies this`currentStatus, this`writes, this`lines
      ensures Valid() && lines == Projected(text) && forwarded == old(forwarded)
    {
      Project(Trim(buffer));
    }
  }

  /**
   However the text is cut into chunks, the client gets the chunks as they came, the projected
   lines are the trimmed non-blank lines of the whole text, and the final status is the fold of the
   status projection over all their facts.
   */
  method RunMonitor(parse: string -> seq<Fact>, chunks: seq<string>)
    returns (forwarded: seq<string>, status: SessionStatus, writes: seq<Write>)
    ensures forwarded == chunks
    ensures status == Fold(Facts(parse, Projected(Flatten(chunks))), Running)
    ensures Wrote(parse, Projected(Flatten(chunks)), writes)
  {
    var monitor := new Monitor(parse);
    for i := 0 to |chunks|
      invariant fresh(monitor) && monitor.Valid() && monitor.UpTo(Flatten(chunks[..i])) && monitor.parse == parse
      invariant monitor.forwarded == chunks[..i]
    {
      monitor.OnChunk(chunks[i], Flatten(chunks[..i]));
      assert chunks[..i + 1][..i] == chunks[..i];
    }
    assert chunks[..|chunks|] == chunks;
    monitor.OnDone(Flatten(chunks));
    return monitor.forwarded, monitor.currentStatus, monitor.writes;
  }

  /** The last thing the store is told, if anything, is the final status. */
  lemma {:induction false} LastWriteIsFinal(parse: string -> seq<Fact>, lines: seq<string>, writes: seq<Write>)
    requires Wrote(parse, lines, writes)
    ensures writes != [] ==> writes[|writes| - 1].status == Fold(Facts(parse, lines), Running)
    ensures writes == [] ==> Fold(Facts(parse, lines), Running) == Running
  {
    if lines != [] {
      var n: nat :| n <= |writes| && WroteLast(parse, lines, writes, n);
      var before, facts := lines[..|lines| - 1], parse(lines[|lines| - 1]);
      var current := Fold(Facts(parse, before), Running);
      LastWriteIsFinal(parse, before, writes[..n]);
      FoldConcat(Facts(parse, before), facts, Running);
      if !Moves(facts, current) { UnmovedFold(facts, current); }
    }
  }
}
