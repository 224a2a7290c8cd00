/** slugifyProjectName and claimProjectSlug (packages/core/src/ids.ts:8-28 and 78-92). */
module Slugs {
  import opened Prelude

  const MAX_LENGTH: nat := 53

  predicate IsAlnum(c: char) {
    'a' <= c <= 'z' || '0' <= c <= '9'
  }

  predicate SlugChars(s: string) {
    forall i | 0 <= i < |s| :: IsAlnum(s[i]) || s[i] == '-'
  }

  /** PROJECT_SLUG_PATTERN */
  predicate MatchesPattern(s: string) {
    s != "" && SlugChars(s) && IsAlnum(s[0]) && IsAlnum(s[|s| - 1])
  }

  predicate SingleDashes(s: string) {
    forall i | 0 < i < |s| :: s[i - 1] != '-' || s[i] != '-'
  }

  // ---------------------------------------------------------------------------
  // Slugs
  // ---------------------------------------------------------------------------

  /** Every run of other characters becomes one dash; `open` says that the run before has one already. */
  function Dashed(s: string, open: bool): string {
    if s == "" then ""
    else if IsAlnum(s[0]) then [s[0]] + Dashed(s[1..], false)
    else (if open then "" else "-") + Dashed(s[1..], true)
  }

  function TrimDashesStart(s: string): string {
    if s != "" && s[0] == '-' then TrimDashesStart(s[1..]) else s
  }

  function TrimDashes(s: string): string {
    if s != "" && s[|s| - 1] == '-' then TrimDashes(s[..|s| - 1]) else s
  }

  /** `s.slice(0, end)`: a negative end counts from the back. */
  function Slice(s: string, end: int): string {
    var n := if end >= 0 then end else |s| + end;
    if n <= 0 then "" else if n >= |s| then s else s[..n]
  }

  /** `fold` is the normalization to NFKD, without diacritics, in lower case. */
  function Slugify(fold: string -> string, input: string): Option<string> {
    var slug := TrimDashes(Slice(TrimDashes(TrimDashesStart(Dashed(fold(input), false))), MAX_LENGTH));
    if slug == "" then None else Some(slug)
  }

  /** What the folding leaves alone. */
  ghost predicate FoldsNothing(fold: string -> string) {
    forall s | SlugChars(s) :: fold(s) == s
  }

  lemma {:induction false} DashedClean(s: string, open: bool)
    ensures SlugChars(Dashed(s, open)) && SingleDashes(Dashed(s, open))
    ensures open && Dashed(s, open) != "" ==> Dashed(s, open)[0] != '-'
  {
    if s != "" {
      if IsAlnum(s[0]) {
        DashedClean(s[1..], false);
      } else {
        DashedClean(s[1..], true);
        if open { assert Dashed(s, open) == Dashed(s[1..], true); }
      }
    }
  }

  lemma {:induction false} TrimStartClean(s: string)
    requires SlugChars(s) && SingleDashes(s)
    ensures var t := TrimDashesStart(s); SlugChars(t) && SingleDashes(t) && (t != "" ==> IsAlnum(t[0]))
  {
    if s != "" && s[0] == '-' {
      assert forall i | 0 <= i < |s| - 1 :: s[1..][i] == s[i + 1];
      TrimStartClean(s[1..]);
    }
  }

  lemma {:induction false} TrimEndClean(s: string)
    requires SlugChars(s) && SingleDashes(s) && (s != "" ==> IsAlnum(s[0]))
    ensures var t := TrimDashes(s);
            SlugChars(t) && SingleDashes(t) && |t| <= |s| && t == s[..|t|] && (t == "" <==> s == "")
                && (t != "" ==> MatchesPattern(t))
  {
    if s != "" && s[|s| - 1] == '-' { TrimEndClean(s[..|s| - 1]); }
  }

  lemma {:induction false} DashedFixed(s: string)
    requires SlugChars(s) && SingleDashes(s)
    ensures Dashed(s, false) == s
    ensures s != "" && s[0] != '-' ==> Dashed(s, true) == s
  {
    if s != "" {
      var rest := s[1..];
      assert forall i | 0 <= i < |rest| :: rest[i] == s[i + 1];
      DashedFixed(rest);
      assert s == [s[0]] + rest;
      if s[0] == '-' && rest == "" { assert Dashed(rest, true) == ""; }
    }
  }

  /** A slug matches the pattern, within the length, with no two dashes in a row. */
  lemma SlugIsClean(fold: string -> string, input: string)
    requires Slugify(fold, input).Some?
    ensures var slug := Slugify(fold, input).value;
            MatchesPattern(slug) && |slug| <= MAX_LENGTH && SingleDashes(slug)
  {
    var dashed := Dashed(fold(input), false);
    DashedClean(fold(input), false);
    TrimStartClean(dashed);
    var stripped := TrimDashes(TrimDashesStart(dashed));
    TrimEndClean(TrimDashesStart(dashed));
    TrimEndClean(Slice(stripped, MAX_LENGTH));
  }

  /** A name has a slug exactly when a letter or digit is left of it. */
  lemma SlugExists(fold: string -> string, input: string)
    ensures Slugify(fold, input).Some? <==> exists i | 0 <= i < |fold(input)| :: IsAlnum(fold(input)[i])
  {
    var s := fold(input);
    DashedClean(s, false);
    TrimStartClean(Dashed(s, false));
    var stripped := TrimDashesStart(Dashed(s, false));
    TrimEndClean(stripped);
    TrimEndClean(Slice(TrimDashes(stripped), MAX_LENGTH));
    DashedAlnum(s, false);
    TrimStartAlnum(Dashed(s, false));
  }

  /** The runs of letters and digits in a text. */
  function Words(s: string): (words: seq<string>)
    ensures s != "" && IsAlnum(s[0]) ==> words != []
  {
    if s == "" then []
    else
      var rest := Words(s[1..]);
      if !IsAlnum(s[0]) then rest
      else if |s| > 1 && IsAlnum(s[1]) then [[s[0]] + rest[0]] + rest[1..]
      else [[s[0]]] + rest
  }

  function Joined(words: seq<string>): string {
    if words == [] then ""
    else if |words| == 1 then words[0]
    else words[0] + "-" + Joined(words[1..])
  }

  /** The dash left where a text goes on after its last word. */
  function Trail(s: string): string {
    if Words(s) != [] && !IsAlnum(s[|s| - 1]) then "-" else ""
  }

  function Lead(s: string): string {
    if s != "" && !IsAlnum(s[0]) then "-" else ""
  }

  lemma {:induction false} DashedIsWords(s: string)
    ensures Dashed(s, true) == Joined(Words(s)) + Trail(s)
    ensures Dashed(s, false) == Lead(s) + (Joined(Words(s)) + Trail(s))
  {
    if s != "" {
      var rest := s[1..];
      DashedIsWords(rest);
      assert rest != "" ==> s[|s| - 1] == rest[|rest| - 1];
      if IsAlnum(s[0]) {
        WordBefore(s[0], rest);
        assert s == [s[0]] + rest;
      }
    }
  }

  /** A letter before a text begins its first word, or is a word of its own. */
  lemma WordBefore(c: char, rest: string)
    requires IsAlnum(c)
    ensures Joined(Words([c] + rest)) + Trail([c] + rest) == [c] + (Lead(rest) + (Joined(Words(rest)) + Trail(rest)))
  {
    if rest != "" && IsAlnum(rest[0]) { BeforeWord(c, rest); } else { BeforeGap(c, rest); }
  }

  lemma BeforeWord(c: char, rest: string)
    requires IsAlnum(c) && rest != "" && IsAlnum(rest[0])
    ensures Joined(Words([c] + rest)) + Trail([c] + rest) == [c] + (Lead(rest) + (Joined(Words(rest)) + Trail(rest)))
  {
    var s, words := [c] + rest, Words(rest);
    assert s[1..] == rest && s[|s| - 1] == rest[|rest| - 1];
    assert Words(s) == [[c] + words[0]] + words[1..];
    LongerFirst(c, words);
    Nested([c], Joined(words), Trail(rest));
  }

  lemma LongerFirst(c: char, words: seq<string>)
    requires words != []
    ensures Joined([[c] + words[0]] + words[1..]) == [c] + Joined(words)
  {
    var longer := [[c] + words[0]] + words[1..];
    assert longer[1..] == words[1..];
    if |words| > 1 { Nested([c], words[0] + "-", Joined(words[1..])); }
    if |words| > 1 { Nested([c], words[0], "-"); }
  }

  lemma Nested(a: string, b: string, c: string)
    ensures (a + b) + c == a + (b + c) && a + ("" + (b + c)) == a + (b + c)
  {
  }

  lemma BeforeGap(c: char, rest: string)
    requires IsAlnum(c) && !(rest != "" && IsAlnum(rest[0]))
    ensures Joined(Words([c] + rest)) + Trail([c] + rest) == [c] + (Lead(rest) + (Joined(Words(rest)) + Trail(rest)))
  {
    var s := [c] + rest;
    assert s[1..] == rest;
    assert Words(s) == [[c]] + Words(rest);
    assert Words(s)[1..] == Words(rest);
    if rest == "" {
      assert Joined(Words(s)) == [c] && Trail(s) == "";
    } else if Words(rest) == [] {
      NoWords(rest);
      assert s[|s| - 1] == rest[|rest| - 1];
      assert Joined(Words(s)) == [c] && Trail(s) == "-" && Joined(Words(rest)) + Trail(rest) == "";
    } else {
      assert s[|s| - 1] == rest[|rest| - 1];
      assert Trail(s) == Trail(rest);
      assert Joined(Words(s)) == [c] + "-" + Joined(Words(rest));
      Grouped([c], "-", Joined(Words(rest)), Trail(rest));
    }
  }

  lemma Grouped(a: string, b: string, c: string, d: string)
    ensures (a + b + c) + d == a + (b + (c + d))
  {
  }

  lemma {:induction false} NoWords(s: string)
    requires Words(s) == []
    ensures forall i | 0 <= i < |s| :: !IsAlnum(s[i])
  {
    if s != "" {
      NoWords(s[1..]);
      assert forall i | 0 < i < |s| :: s[i] == s[1..][i - 1];
    }
  }

  lemma {:induction false} WordsAreAlnum(s: string)
    ensures forall w <- Words(s) :: w != "" && forall i | 0 <= i < |w| :: IsAlnum(w[i])
  {
    if s != "" { WordsAreAlnum(s[1..]); }
  }

  lemma {:induction false} JoinedEnds(words: seq<string>)
    requires forall w <- words :: w != "" && forall i | 0 <= i < |w| :: IsAlnum(w[i])
    ensures var j := Joined(words); words != [] ==> j != "" && IsAlnum(j[0]) && IsAlnum(j[|j| - 1])
  {
    if |words| > 1 { JoinedEnds(words[1..]); }
  }

  lemma StripLead(lead: string, s: string)
    requires lead == "" || lead == "-"
    requires s != "" ==> s[0] != '-'
    ensures TrimDashesStart(lead + s) == s
  {
    if lead == "-" { assert (lead + s)[1..] == s; } else { assert lead + s == s; }
  }

  lemma StripTrail(s: string, trail: string)
    requires trail == "" || trail == "-"
    requires s != "" ==> s[|s| - 1] != '-'
    ensures TrimDashes(s + trail) == s
  {
    if trail == "-" { assert (s + trail)[..|s|] == s; } else { assert s + trail == s; }
  }

  /** A slug is the name's words joined by dashes, cut to the length, without a dash that the cut leaves at the end. */
  lemma SlugIsWords(fold: string -> string, input: string)
    ensures var slug, whole := Slugify(fold, input), Joined(Words(fold(input)));
            && (slug.None? <==> whole == "")
            && (slug.Some? ==>
                  || slug.value == Slice(whole, MAX_LENGTH)
                  || (|whole| > MAX_LENGTH && slug.value + "-" == Slice(whole, MAX_LENGTH)))
  {
    var s := fold(input);
    var words := Words(s);
    var whole := Joined(words);
    DashedIsWords(s);
    WordsAreAlnum(s);
    JoinedEnds(words);
    assert words == [] ==> whole == "" && Trail(s) == "";
    StripLead(Lead(s), whole + Trail(s));
    StripTrail(whole, Trail(s));
    assert TrimDashes(TrimDashesStart(Dashed(s, false))) == whole;
    DashedClean(s, false);
    WholeIsClean(s);
    CutLeaves(whole);
  }

  /** The whole slug, before the cut, has no two dashes in a row. */
  lemma WholeIsClean(s: string)
    ensures var whole := Joined(Words(s));
            SlugChars(whole) && SingleDashes(whole) && (whole != "" ==> IsAlnum(whole[0]))
  {
    DashedIsWords(s);
    DashedClean(s, true);
    WordsAreAlnum(s);
    JoinedEnds(Words(s));
    var whole := Joined(Words(s));
    assert forall i | 0 <= i < |whole| :: Dashed(s, true)[i] == whole[i];
  }

  /** The cut leaves one dash at the end at most. */
  lemma CutLeaves(whole: string)
    requires SlugChars(whole) && SingleDashes(whole) && (whole != "" ==> MatchesPattern(whole))
    ensures var cut := Slice(whole, MAX_LENGTH); TrimDashes(cut) == cut || TrimDashes(cut) + "-" == cut
    ensures TrimDashes(Slice(whole, MAX_LENGTH)) == "" <==> whole == ""
    ensures |whole| <= MAX_LENGTH ==> TrimDashes(Slice(whole, MAX_LENGTH)) == whole
  {
    var cut := Slice(whole, MAX_LENGTH);
    TrimEndClean(cut);
    if cut != "" && cut[|cut| - 1] == '-' {
      var shorter := cut[..|cut| - 1];
      assert shorter != "" ==> shorter[|shorter| - 1] != '-';
      assert TrimDashes(cut) == TrimDashes(shorter) == shorter;
    }
  }

  predicate HasAlnum(s: string) {
    exists i | 0 <= i < |s| :: IsAlnum(s[i])
  }

  lemma {:induction false} DashedAlnum(s: string, open: bool)
    ensures HasAlnum(Dashed(s, open)) <==> HasAlnum(s)
  {
    if s != "" {
      var rest := s[1..];
      var after := Dashed(rest, !IsAlnum(s[0]));
      DashedAlnum(rest, !IsAlnum(s[0]));
      Cons(s[0], rest);
      if IsAlnum(s[0]) { Cons(s[0], after); } else { Cons('-', after); }
      assert s == [s[0]] + rest;
      if !IsAlnum(s[0]) && open { assert Dashed(s, open) == after; }
    }
  }

  lemma Cons(c: char, s: string)
    ensures HasAlnum([c] + s) <==> IsAlnum(c) || HasAlnum(s)
  {
    assert forall i | 0 <= i < |s| :: ([c] + s)[i + 1] == s[i];
    assert ([c] + s)[0] == c;
  }

  lemma {:induction false} TrimStartAlnum(s: string)
    requires SlugChars(s)
    ensures TrimDashesStart(s) == "" <==> !HasAlnum(s)
  {
    if s != "" && s[0] == '-' {
      Cons(s[0], s[1..]);
      assert s == [s[0]] + s[1..];
      TrimStartAlnum(s[1..]);
    }
  }

  /** A slug is its own slug. */
  lemma SlugifyIsIdempotent(fold: string -> string, input: string)
    requires FoldsNothing(fold) && Slugify(fold, input).Some?
    ensures Slugify(fold, Slugify(fold, input).value) == Slugify(fold, input)
  {
    SlugIsClean(fold, input);
    DashedFixed(Slugify(fold, input).value);
  }

  // ---------------------------------------------------------------------------
  // Claiming one
  // ---------------------------------------------------------------------------

  function Digit(d: nat): char
    requires d < 10
  {
    '0' + d as char
  }

  function Decimal(n: nat): (s: string)
    ensures s != ""
  {
    if n < 10 then [Digit(n)] else Decimal(n / 10) + [Digit(n % 10)]
  }

  function Suffix(attempt: nat): string {
    if attempt == 0 then "" else "-" + Decimal(attempt)
  }

  function Candidate(base: string, attempt: nat): string {
    TrimDashes(Slice(base, MAX_LENGTH - |Suffix(attempt)|)) + Suffix(attempt)
  }

  /** What slugifyProjectName returns: the bases candidates are made from. */
  predicate IsSlug(s: string) {
    MatchesPattern(s) && |s| <= MAX_LENGTH && SingleDashes(s)
  }

  predicate AllDigits(s: string) {
    forall i | 0 <= i < |s| :: '0' <= s[i] <= '9'
  }

  lemma {:induction false} DecimalDigits(n: nat)
    ensures AllDigits(Decimal(n))
  {
    if n >= 10 { DecimalDigits(n / 10); }
  }

  lemma {:induction false} DecimalInjective(a: nat, b: nat)
    requires Decimal(a) == Decimal(b)
    ensures a == b
  {
    var s := Decimal(a);
    if a < 10 && b < 10 {
      assert s[0] == Digit(a) == Digit(b);
    } else if a >= 10 && b >= 10 {
      assert s[..|s| - 1] == Decimal(a / 10) == Decimal(b / 10);
      assert s[|s| - 1] == Digit(a % 10) == Digit(b % 10);
      DecimalInjective(a / 10, b / 10);
    }
  }

  /** Two texts that end in a dash and digits end in the same digits. */
  lemma SameTail(p: string, a: string, q: string, b: string)
    requires AllDigits(a) && AllDigits(b) && p + "-" + a == q + "-" + b
    ensures a == b
  {
    var s := p + "-" + a;
    assert s[|p|] == '-' && s[|q|] == '-';
    assert forall i | |p| < i < |s| :: s[i] == a[i - |p| - 1];
    assert forall i | |q| < i < |s| :: s[i] == b[i - |q| - 1];
    assert |p| == |q|;
    assert s[|p| + 1..] == a && s[|q| + 1..] == b;
  }

  lemma NumberedEnd(base: string, n: nat) returns (p: string)
    requires n > 0
    ensures Candidate(base, n) == p + "-" + Decimal(n)
  {
    p := TrimDashes(Slice(base, MAX_LENGTH - |Suffix(n)|));
    assert p + ("-" + Decimal(n)) == p + "-" + Decimal(n);
  }

  /** Candidates with different numbers differ, whatever was cut off to make room for them. */
  lemma CandidatesDiffer(base: string, i: nat, j: nat)
    requires 1 <= i < j
    ensures Candidate(base, i) != Candidate(base, j)
  {
    var p := NumberedEnd(base, i);
    var q := NumberedEnd(base, j);
    if Candidate(base, i) == Candidate(base, j) {
      DecimalDigits(i);
      DecimalDigits(j);
      SameTail(p, Decimal(i), q, Decimal(j));
      DecimalInjective(i, j);
    }
  }

  /** Candidates are slugs by pattern and length exactly as long as the number leaves room for a letter. */
  lemma CandidateValid(base: string, attempt: nat)
    requires IsSlug(base)
    ensures MatchesPattern(Candidate(base, attempt)) && |Candidate(base, attempt)| <= MAX_LENGTH
       <==> |Suffix(attempt)| < MAX_LENGTH
  {
    var suffix := Suffix(attempt);
    var cut := Slice(base, MAX_LENGTH - |suffix|);
    if attempt == 0 {
      assert cut == base;
      TrimEndClean(base);
      assert TrimDashes(base) == base;
      assert Candidate(base, 0) == base;
    } else {
      DecimalDigits(attempt);
      if |suffix| < MAX_LENGTH {
        assert cut == base[..|cut|] && cut != "" && cut[0] == base[0];
        TrimEndClean(cut);
      } else if |suffix| == MAX_LENGTH {
        assert cut == "" && Candidate(base, attempt)[0] == '-';
      }
    }
  }

  /**
   claimProjectSlug, where `refused` are the slugs for which the claim answers null: the first
   candidate that is not refused is claimed, within the attempts.
   */
  method ClaimProjectSlug(base: string, refused: set<string>, maxAttempts: nat) returns (claimed: Option<string>)
    ensures claimed.Some? ==>
              exists n :: 0 <= n < maxAttempts && FirstFree(base, refused, n) && claimed.value == Candidate(base, n)
    ensures claimed.None? ==> forall i | 0 <= i < maxAttempts :: Candidate(base, i) in refused
    ensures |refused| + 2 <= maxAttempts ==> claimed.Some?
  {
    for attempt := 0 to maxAttempts
      invariant forall i | 0 <= i < attempt :: Candidate(base, i) in refused
    {
      var suffix := if attempt == 0 then "" else "-" + Decimal(attempt);
      assert suffix == Suffix(attempt);
      var candidate := TrimDashes(Slice(base, MAX_LENGTH - |suffix|)) + suffix;
      assert candidate == Candidate(base, attempt);
      if candidate !in refused {
        assert FirstFree(base, refused, attempt);
        return Some(candidate);
      }
    }
    if |refused| + 2 <= maxAttempts { FewCannotRefuseAll(base, refused, maxAttempts - 1); }
    return None;
  }

  ghost predicate FirstFree(base: string, refused: set<string>, n: nat) {
    Candidate(base, n) !in refused && forall i | 0 <= i < n :: Candidate(base, i) in refused
  }

  function Numbered(base: string, n: nat): set<string> {
    if n == 0 then {} else Numbered(base, n - 1) + {Candidate(base, n)}
  }

  lemma {:induction false} NumberedCount(base: string, n: nat)
    ensures |Numbered(base, n)| == n
    ensures forall x <- Numbered(base, n) :: exists i :: 1 <= i <= n && Candidate(base, i) == x
  {
    if n > 0 {
      NumberedCount(base, n - 1);
      var last := Candidate(base, n);
      if last in Numbered(base, n - 1) {
        var i :| 1 <= i <= n - 1 && Candidate(base, i) == last;
        CandidatesDiffer(base, i, n);
      }
    }
  }

  /** `k` refused slugs cannot refuse `k + 1` numbered candidates. */
  lemma FewCannotRefuseAll(base: string, refused: set<string>, n: nat)
    requires |refused| < n
    ensures exists i | 1 <= i <= n :: Candidate(base, i) !in refused
  {
    NumberedCount(base, n);
    if forall i | 1 <= i <= n :: Candidate(base, i) in refused {
      Subset(Numbered(base, n), refused);
    }
  }

  lemma {:induction false} Subset(a: set<string>, b: set<string>)
    requires a <= b
    ensures |a| <= |b|
  {
    if x :| x in a { Subset(a - {x}, b - {x}); }
  }

  lemma TrimFixed(s: string)
    requires s != "" && s[|s| - 1] != '-'
    ensures TrimDashes(s) == s
  {
  }

  lemma SliceWhole(s: string, n: nat)
    requires |s| <= n
    ensures Slice(s, n) == s
  {
  }

  // ---------------------------------------------------------------------------
  // When the unnumbered candidate is also a numbered one
  // ---------------------------------------------------------------------------

  predicate EndsWith(s: string, end: string) {
    |end| < |s| && s[|s| - |end|..] == end
  }

  /** The base is as long as a slug may be, or one shorter, and ends like its `j`-th candidate. */
  predicate Coincides(base: string, j: nat) {
    |base| >= MAX_LENGTH - 1 && EndsWith(base, Suffix(j))
  }

  /** The cut is the base without its suffix, and perhaps the dash that follows. */
  lemma CutOfCoinciding(base: string, j: nat)
    requires IsSlug(base) && j > 0 && Coincides(base, j)
    ensures Candidate(base, j) == base
  {
    var suffix := Suffix(j);
    var at := |base| - |suffix|;
    assert base[at..][0] == base[at] == '-';
    assert base[at - 1] != '-';
    var stem := base[..at];
    TrimFixed(stem);
    var cut := Slice(base, MAX_LENGTH - |suffix|);
    if |base| == MAX_LENGTH {
      assert cut == stem;
    } else {
      assert cut == base[..at + 1] && cut[..|cut| - 1] == stem;
    }
    assert base == stem + suffix;
  }

  lemma {:induction false} TrimAtMostOne(s: string)
    requires SingleDashes(s)
    ensures |TrimDashes(s)| >= |s| - 1
  {
    if s != "" && s[|s| - 1] == '-' && |s| > 1 { TrimFixed(s[..|s| - 1]); }
  }

  /** A candidate that is the base ends like it, and was cut off where its suffix starts. */
  lemma CoincidingIsLong(base: string, j: nat)
    requires IsSlug(base) && j > 0 && Candidate(base, j) == base
    ensures Coincides(base, j)
  {
    var suffix := Suffix(j);
    var cut := Slice(base, MAX_LENGTH - |suffix|);
    CandidateValid(base, j);
    var stem := TrimDashes(cut);
    assert base == stem + suffix;
    assert base[|stem|..] == suffix;
    StemIsLong(base, suffix, cut, stem);
  }

  lemma StemIsLong(base: string, suffix: string, cut: string, stem: string)
    requires IsSlug(base) && |suffix| < MAX_LENGTH && suffix != ""
    requires cut == Slice(base, MAX_LENGTH - |suffix|) && stem == TrimDashes(cut) && |base| == |stem| + |suffix|
    ensures |base| >= MAX_LENGTH - 1 && stem != ""
  {
    TrimAtMostOne(cut);
    TrimFixed(base);
    TrimEndClean(cut);
  }

  lemma UnnumberedIsBase(base: string)
    requires IsSlug(base)
    ensures Candidate(base, 0) == base
  {
    SliceWhole(base, MAX_LENGTH);
    TrimFixed(base);
    assert base + Suffix(0) == base;
  }

  /** The `j`-th candidate is the unnumbered one exactly for long bases that end in its number. */
  lemma CoincideIff(base: string, j: nat)
    requires IsSlug(base) && j > 0
    ensures Candidate(base, j) == Candidate(base, 0) <==> Coincides(base, j)
  {
    UnnumberedIsBase(base);
    if Candidate(base, j) == base { CoincidingIsLong(base, j); }
    else if Coincides(base, j) { CutOfCoinciding(base, j); }
  }

  /** The slugs that the first `n` attempts ask for. */
  function Asked(base: string, n: nat): set<string> {
    if n == 0 then {} else {Candidate(base, 0)} + Numbered(base, n - 1)
  }

  lemma {:induction false} NumberedHas(base: string, n: nat, j: nat)
    requires 1 <= j <= n
    ensures Candidate(base, j) in Numbered(base, n)
  {
    if j < n { NumberedHas(base, n - 1, j); }
  }

  /** The base ends in the number of one of the attempts before `n`. */
  ghost predicate CoincidesBefore(base: string, n: nat) {
    exists j: nat :: 1 <= j < n && Coincides(base, j)
  }

  lemma CoincidingIsNumbered(base: string, n: nat, j: nat)
    requires IsSlug(base) && 1 <= j < n && Coincides(base, j)
    ensures base in Numbered(base, n - 1)
  {
    NumberedHas(base, n - 1, j);
    CutOfCoinciding(base, j);
  }

  lemma NumberedCoincides(base: string, n: nat)
    requires IsSlug(base) && n > 0 && base in Numbered(base, n - 1)
    ensures CoincidesBefore(base, n)
  {
    var j := NumberedMember(base, n - 1, base);
    if Candidate(base, j) == base { CoincidingIsLong(base, j); }
  }

  lemma {:induction false} NumberedMember(base: string, n: nat, x: string) returns (j: nat)
    requires x in Numbered(base, n)
    ensures 1 <= j <= n && Candidate(base, j) == x
  {
    if x == Candidate(base, n) { j := n; } else { j := NumberedMember(base, n - 1, x); }
  }

  lemma CountWith(x: string, others: set<string>)
    ensures |{x} + others| == |others| + if x in others then 0 else 1
  {
    if x in others { assert {x} + others == others; }
  }

  /** `n` attempts ask for `n` slugs, or for one fewer exactly when the base ends in one of their numbers. */
  lemma AskedCount(base: string, n: nat)
    requires IsSlug(base) && n > 0
    ensures |Asked(base, n)| == if CoincidesBefore(base, n) then n - 1 else n
  {
    var numbered := Numbered(base, n - 1);
    NumberedCount(base, n - 1);
    UnnumberedIsBase(base);
    CountWith(base, numbered);
    if base in numbered { NumberedCoincides(base, n); }
    if CoincidesBefore(base, n) {
      var j: nat :| 1 <= j < n && Coincides(base, j);
      CoincidingIsNumbered(base, n, j);
    }
  }

  /**
   `k` refused slugs can defeat `k + 1` attempts exactly when the base ends in the number of one of
   these attempts: no set of fewer slugs than attempts refuses them all otherwise.
   */
  lemma FewerRefusalsSuffice(base: string, k: nat)
    requires IsSlug(base)
    ensures (exists refused :: |refused| <= k && RefusesAll(base, refused, k + 1)) <==> CoincidesBefore(base, k + 1)
  {
    AskedCount(base, k + 1);
    AskedIsLeast(base, k + 1);
    if CoincidesBefore(base, k + 1) {
      assert |Asked(base, k + 1)| <= k && RefusesAll(base, Asked(base, k + 1), k + 1);
    }
    if refused :| |refused| <= k && RefusesAll(base, refused, k + 1) { Subset(Asked(base, k + 1), refused); }
  }

  ghost predicate RefusesAll(base: string, refused: set<string>, n: nat) {
    forall i | 0 <= i < n :: Candidate(base, i) in refused
  }

  lemma AskedIsLeast(base: string, n: nat)
    ensures RefusesAll(base, Asked(base, n), n)
    ensures forall refused | RefusesAll(base, refused, n) :: Asked(base, n) <= refused
  {
    forall i | 0 <= i < n ensures Candidate(base, i) in Asked(base, n) {
      if i > 0 { NumberedHas(base, n - 1, i); }
    }
    forall refused, x | RefusesAll(base, refused, n) && x in Asked(base, n) ensures x in refused {
      AskedBy(base, n, x);
    }
  }

  lemma AskedBy(base: string, n: nat, x: string)
    requires x in Asked(base, n)
    ensures exists i :: 0 <= i < n && Candidate(base, i) == x
  {
    if x != Candidate(base, 0) { var j := NumberedMember(base, n - 1, x); }
  }

  /** One refused slug, the base, defeats two attempts when the base ends in "-1" and is long enough. */
  lemma TwoAttemptsMayFail(base: string)
    requires IsSlug(base)
    ensures RefusesAll(base, {base}, 2) <==> Coincides(base, 1)
  {
    UnnumberedIsBase(base);
    CoincideIff(base, 1);
    if RefusesAll(base, {base}, 2) { assert Candidate(base, 1) in {base}; }
    else {
      var i :| 0 <= i < 2 && Candidate(base, i) !in {base};
      assert i == 1;
    }
  }
}
