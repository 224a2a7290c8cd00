/** Splitting text at newlines and trimming, as the stream monitor of apps/api/src/app-support.ts does. */
module Lines {

  /** What `String.prototype.trim` strips: white space and line terminators. */
  predicate IsSpace(c: char) {
    || c == '\t' || c == '\n' || c == '\U{000B}' || c == '\U{000C}' || c == '\r' || c == ' '
    || c == '\U{00A0}' || c == '\U{1680}' || '\U{2000}' <= c <= '\U{200A}' || c == '\U{2028}' || c == '\U{2029}'
    || c == '\U{202F}' || c == '\U{205F}' || c == '\U{3000}' || c == '\U{FEFF}'
  }

  predicate Blank(s: string) {
    forall i | 0 <= i < |s| :: IsSpace(s[i])
  }

  function TrimStart(s: string): string {
    if s != [] && IsSpace(s[0]) then TrimStart(s[1..]) else s
  }

  function TrimEnd(s: string): string {
    if s != [] && IsSpace(s[|s| - 1]) then TrimEnd(s[..|s| - 1]) else s
  }

  function Trim(s: string): string {
    TrimEnd(TrimStart(s))
  }

  lemma {:induction false} TrimStartBlank(ws: string, s: string)
    requires Blank(ws)
    ensures TrimStart(ws + s) == TrimStart(s)
  {
    if ws == [] {
      assert ws + s == s;
    } else {
      assert (ws + s)[1..] == ws[1..] + s;
      TrimStartBlank(ws[1..], s);
    }
  }

  lemma {:induction false} TrimEndBlank(s: string, ws: string)
    requires Blank(ws)
    ensures TrimEnd(s + ws) == TrimEnd(s)
  {
    if ws == [] {
      assert s + ws == s;
    } else {
      assert (s + ws)[..|s + ws| - 1] == s + ws[..|ws| - 1];
      TrimEndBlank(s, ws[..|ws| - 1]);
    }
  }

  /** TrimStart splits its input into blank characters and a rest that is empty or starts with none. */
  lemma {:induction false} TrimStartSplits(s: string)
    ensures |TrimStart(s)| <= |s| && s[|s| - |TrimStart(s)|..] == TrimStart(s)
    ensures Blank(s[..|s| - |TrimStart(s)|])
    ensures TrimStart(s) == [] <==> Blank(s)
    ensures TrimStart(s) != [] ==> !IsSpace(TrimStart(s)[0])
  {
    if s != [] && IsSpace(s[0]) {
      TrimStartSplits(s[1..]);
      assert s == [s[0]] + s[1..];
    }
  }

  lemma {:induction false} TrimEndEmpty(s: string)
    ensures TrimEnd(s) == [] <==> Blank(s)
  {
    if s != [] && IsSpace(s[|s| - 1]) { TrimEndEmpty(s[..|s| - 1]); }
  }

  lemma TrimEmpty(s: string)
    ensures Trim(s) == [] <==> Blank(s)
  {
    TrimStartSplits(s);
    TrimEndEmpty(TrimStart(s));
  }

  /** Blank text around a line does not change what trimming leaves of it. */
  lemma TrimIgnoresBlank(before: string, s: string, after: string)
    requires Blank(before) && Blank(after)
    ensures Trim(before + s + after) == Trim(s)
  {
    assert before + s + after == before + (s + after);
    TrimStartBlank(before, s + after);
    TrimStartSplits(s);
    if Blank(s) {
      TrimEmpty(s);
      TrimEmpty(s + after);
    } else {
      var k := |s| - |TrimStart(s)|;
      assert s + after == s[..k] + (TrimStart(s) + after);
      TrimStartBlank(s[..k], TrimStart(s) + after);
      assert TrimStart(TrimStart(s) + after) == TrimStart(s) + after;
      TrimEndBlank(TrimStart(s), after);
    }
  }

  // ---------------------------------------------------------------------------
  // Lines
  // ---------------------------------------------------------------------------

  /** Where the first newline at or after `from` is. */
  function NewlineFrom(text: string, from: nat): (n: nat)
    requires from <= |text|
    ensures from <= n <= |text|
    ensures forall i | from <= i < n :: text[i] != '\n'
    ensures n < |text| ==> text[n] == '\n'
    decreases |text| - from
  {
    if from == |text| || text[from] == '\n' then from else NewlineFrom(text, from + 1)
  }

  function Newline(text: string): (n: nat)
    ensures n <= |text|
    ensures forall i | 0 <= i < n :: text[i] != '\n'
    ensures n < |text| ==> text[n] == '\n'
  {
    NewlineFrom(text, 0)
  }

  /** The lines that a newline ends. */
  function Complete(text: string): seq<string>
    decreases |text|
  {
    var n := Newline(text);
    if n == |text| then [] else [text[..n]] + Complete(text[n + 1..])
  }

  /** What follows the last newline. */
  function Tail(text: string): string
    decreases |text|
  {
    var n := Newline(text);
    if n == |text| then text else Tail(text[n + 1..])
  }

  /** The non-blank lines, trimmed: what the monitor projects. */
  function NonBlank(lines: seq<string>): seq<string> {
    if lines == [] then [] else NonBlankLine(lines[0]) + NonBlank(lines[1..])
  }

  function NonBlankLine(line: string): seq<string> {
    if Trim(line) == [] then [] else [Trim(line)]
  }

  /** The same for a whole text, its unfinished last line included. */
  function Projected(text: string): seq<string> {
    NonBlank(Complete(text)) + NonBlankLine(Tail(text))
  }

  lemma NewlineUnique(text: string, n: nat)
    requires n <= |text| && (forall i | 0 <= i < n :: text[i] != '\n') && (n < |text| ==> text[n] == '\n')
    ensures n == Newline(text)
  {
    var m := Newline(text);
    assert m < |text| ==> text[m] == '\n';
    assert !(m < n);
  }

  lemma CutAt(text: string, n: nat)
    requires n < |text| && (forall i | 0 <= i < n :: text[i] != '\n') && text[n] == '\n'
    ensures Complete(text) == [text[..n]] + Complete(text[n + 1..])
    ensures Tail(text) == Tail(text[n + 1..])
  {
    NewlineUnique(text, n);
  }

  /** Text that follows is split after the unfinished last line. */
  lemma {:induction false} Append(a: string, b: string)
    ensures Complete(a + b) == Complete(a) + Complete(Tail(a) + b)
    ensures Tail(a + b) == Tail(Tail(a) + b)
    decreases |a|
  {
    var n := Newline(a);
    if n < |a| {
      var rest := a[n + 1..];
      assert (a + b)[..n] == a[..n] && (a + b)[n + 1..] == rest + b;
      CutAt(a, n);
      CutAt(a + b, n);
      Append(rest, b);
      Assoc(a[..n], Complete(rest), Complete(Tail(rest) + b));
    }
  }

  lemma Assoc(line: string, a: seq<string>, b: seq<string>)
    ensures [line] + (a + b) == ([line] + a) + b
  {
  }

  lemma {:induction false} TailHasNoNewline(text: string)
    ensures Newline(Tail(text)) == |Tail(text)|
    decreases |text|
  {
    var n := Newline(text);
    if n < |text| { TailHasNoNewline(text[n + 1..]); }
  }

  lemma {:induction false} NonBlankConcat(a: seq<string>, b: seq<string>)
    ensures NonBlank(a + b) == NonBlank(a) + NonBlank(b)
  {
    if a == [] {
      assert a + b == b;
    } else {
      assert (a + b)[1..] == a[1..] + b;
      NonBlankConcat(a[1..], b);
    }
  }

  lemma ProjectedAppend(a: string, b: string)
    ensures Projected(a + b) == NonBlank(Complete(a)) + Projected(Tail(a) + b)
  {
    Append(a, b);
    NonBlankConcat(Complete(a), Complete(Tail(a) + b));
  }

  // ---------------------------------------------------------------------------
  // A newline inserted anywhere
  // ---------------------------------------------------------------------------

  /** The first line of a text, and the projection of all that follows it. */
  function Head(text: string): string {
    text[..Newline(text)]
  }

  function AfterHead(text: string): seq<string> {
    var n := Newline(text);
    if n == |text| then [] else Projected(text[n + 1..])
  }

  lemma CutProjected(text: string, n: nat, line: string, rest: string)
    requires n < |text| && (forall i | 0 <= i < n :: text[i] != '\n') && text[n] == '\n'
    requires line == text[..n] && rest == text[n + 1..]
    ensures Projected(text) == NonBlankLine(line) + Projected(rest)
  {
    CutAt(text, n);
    FirstOf(line, Complete(rest));
    Regroup(NonBlankLine(line), NonBlank(Complete(rest)), NonBlankLine(Tail(rest)));
  }

  lemma Regroup(a: seq<string>, b: seq<string>, c: seq<string>)
    ensures (a + b) + c == a + (b + c)
  {
  }

  lemma Slices(t: string, q: string, n: nat)
    requires n < |q| && q[n] == '\n'
    ensures (t + q)[..|t| + n] == t + q[..n] && (t + q)[|t| + n + 1..] == q[n + 1..] && (t + q)[|t| + n] == '\n'
  {
  }

  /** Text without a newline is glued to the first line of what follows. */
  lemma Glue(t: string, q: string)
    requires Newline(t) == |t|
    ensures Projected(t + q) == NonBlankLine(t + Head(q)) + AfterHead(q)
  {
    NewlineGlue(t, q);
    if Newline(q) < |q| { GlueFirst(t, q); } else { GlueLast(t, q); }
  }

  lemma GlueFirst(t: string, q: string)
    requires Newline(q) < |q| && Newline(t + q) == |t| + Newline(q)
    ensures Projected(t + q) == NonBlankLine(t + Head(q)) + AfterHead(q)
  {
    var n := Newline(q);
    Slices(t, q, n);
    CutProjected(t + q, |t| + n, t + q[..n], q[n + 1..]);
  }

  lemma GlueLast(t: string, q: string)
    requires Newline(q) == |q| && Newline(t + q) == |t + q|
    ensures Projected(t + q) == NonBlankLine(t + Head(q)) + AfterHead(q)
  {
    assert Head(q) == q;
    OneLine(t + q);
  }

  lemma NewlineGlue(t: string, q: string)
    requires Newline(t) == |t|
    ensures Newline(t + q) == |t| + Newline(q)
  {
    NewlineUnique(t + q, |t| + Newline(q));
  }

  lemma OneLine(text: string)
    requires Newline(text) == |text|
    ensures Projected(text) == NonBlankLine(text)
  {
  }

  lemma FirstOf(line: string, rest: seq<string>)
    ensures NonBlank([line] + rest) == NonBlankLine(line) + NonBlank(rest)
  {
    assert ([line] + rest)[1..] == rest;
  }

  /** A line cut in two is projected as one line exactly when one of the halves is blank, else as two. */
  lemma CutLine(t: string, h: string)
    ensures NonBlankLine(t) + NonBlankLine(h) == NonBlankLine(t + h) <==> Blank(t) || Blank(h)
    ensures !Blank(t) && !Blank(h) ==> |NonBlankLine(t)| + |NonBlankLine(h)| == 2 && |NonBlankLine(t + h)| == 1
  {
    TrimEmpty(t);
    TrimEmpty(h);
    TrimEmpty(t + h);
    if Blank(t) {
      TrimIgnoresBlank(t, h, "");
      assert t + h + "" == t + h;
    } else if Blank(h) {
      TrimIgnoresBlank("", t, h);
      assert "" + t + h == t + h;
    } else {
      var i :| 0 <= i < |t| && !IsSpace(t[i]);
      assert (t + h)[i] == t[i];
    }
  }

  /**
   A newline put between `p` and `q` leaves the projected lines as they were exactly when the
   line it falls into is blank on one of the two sides; otherwise there is one line more.
   */
  lemma InsertNewline(p: string, q: string)
    ensures Projected(p + "\n" + q) == Projected(p + q) <==> Blank(Tail(p)) || Blank(Head(q))
    ensures |Projected(p + "\n" + q)| == |Projected(p + q)| + if Blank(Tail(p)) || Blank(Head(q)) then 0 else 1
  {
    var t, h := Tail(p), Head(q);
    TailHasNoNewline(p);
    assert p + "\n" + q == p + ("\n" + q);
    ProjectedAppend(p, "\n" + q);
    ProjectedAppend(p, q);
    BreakAfter(t, q);
    Glue(t, q);
    FirstLine(q);
    CutLine(t, h);
    Compare(NonBlank(Complete(p)), NonBlankLine(t), NonBlankLine(h), NonBlankLine(t + h), AfterHead(q));
  }

  lemma FirstLine(q: string)
    ensures Projected(q) == NonBlankLine(Head(q)) + AfterHead(q)
  {
    Glue("", q);
    assert "" + q == q && "" + Head(q) == Head(q);
  }

  lemma BreakAfter(t: string, q: string)
    requires Newline(t) == |t|
    ensures Projected(t + ("\n" + q)) == NonBlankLine(t) + Projected(q)
  {
    Slices(t, "\n" + q, 0);
    assert ("\n" + q)[1..] == q && t + ("\n" + q)[..0] == t;
    CutProjected(t + ("\n" + q), |t|, t, q);
  }

  lemma Compare(a: seq<string>, t: seq<string>, h: seq<string>, th: seq<string>, rest: seq<string>)
    requires t + h == th || |t| + |h| == |th| + 1
    ensures a + (t + (h + rest)) == a + (th + rest) <==> t + h == th
    ensures |a + (t + (h + rest))| == |a + (th + rest)| + if t + h == th then 0 else 1
  {
    if t + h == th { assert t + (h + rest) == th + rest; }
  }
}
