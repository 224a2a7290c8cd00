/** createDeviceCodeRateLimiter (apps/api/src/app-control-plane-auth-boundary.ts:33-61). */
module Limiter {
  import opened Prelude

  const MAX_PER_WINDOW: nat := 10
  const WINDOW_MS: int := 600_000
  const MAX_SOURCES: nat := 4096

  // ---------------------------------------------------------------------------
  // What happened
  // ---------------------------------------------------------------------------

  /** A request, with the stamp it was let through with if it was; or a source forgotten to make room. */
  datatype Hit = Hit(source: string, stamp: Option<int>) | Forgotten(source: string)

  /** The stamps of a source's allowed requests since it was last forgotten. */
  function Granted(history: seq<Hit>, source: string): seq<int> {
    if history == [] then []
    else
      var init, last := history[..|history| - 1], history[|history| - 1];
      if last == Forgotten(source) then [] else Granted(init, source) + Stamp(last, source)
  }

  /** The same, evictions apart. */
  function EverGranted(history: seq<Hit>, source: string): seq<int> {
    if history == [] then []
    else
      var init, last := history[..|history| - 1], history[|history| - 1];
      EverGranted(init, source) + Stamp(last, source)
  }

  function Stamp(hit: Hit, source: string): seq<int> {
    if hit.Hit? && hit.source == source && hit.stamp.Some? then [hit.stamp.value] else []
  }

  /** When a source was last active, as a place in the history. */
  function LastHit(history: seq<Hit>, source: string): (n: int)
    ensures -1 <= n < |history|
  {
    if history == [] then -1
    else if history[|history| - 1].Hit? && history[|history| - 1].source == source then |history| - 1
    else LastHit(history[..|history| - 1], source)
  }

  /** The stamps after the cutoff. */
  function After(stamps: seq<int>, cutoff: int): seq<int> {
    if stamps == [] then []
    else
      var init, last := stamps[..|stamps| - 1], stamps[|stamps| - 1];
      After(init, cutoff) + if last > cutoff then [last] else []
  }

  // ---------------------------------------------------------------------------
  // Windows
  // ---------------------------------------------------------------------------

  /** Stamps in order, the tenth-next at least a window later. */
  ghost predicate Spaced(stamps: seq<int>) {
    && (forall i, j | 0 <= i < j < |stamps| :: stamps[i] <= stamps[j])
    && (forall i, j | 0 <= i && j == i + MAX_PER_WINDOW < |stamps| :: stamps[j] - stamps[i] >= WINDOW_MS)
  }

  lemma {:induction false} AfterSnoc(stamps: seq<int>, x: int, cutoff: int)
    ensures After(stamps + [x], cutoff) == After(stamps, cutoff) + if x > cutoff then [x] else []
  {
    assert (stamps + [x])[..|stamps|] == stamps;
  }

  /** Cutting again, later, is cutting later. */
  lemma {:induction false} AfterAfter(stamps: seq<int>, a: int, b: int)
    requires a <= b
    ensures After(After(stamps, a), b) == After(stamps, b)
  {
    if stamps != [] {
      var init, last := stamps[..|stamps| - 1], stamps[|stamps| - 1];
      AfterAfter(init, a, b);
      if last > a { AfterSnoc(After(init, a), last, b); } else { assert After(stamps, a) == After(init, a); }
    }
  }

  /** In ordered stamps, those after a cutoff are the last ones. */
  lemma {:induction false} AfterIsTail(stamps: seq<int>, cutoff: int)
    requires forall i, j | 0 <= i < j < |stamps| :: stamps[i] <= stamps[j]
    ensures var n := |After(stamps, cutoff)|;
            && n <= |stamps|
            && (n < |stamps| ==> stamps[|stamps| - n - 1] <= cutoff)
            && forall i | |stamps| - n <= i < |stamps| :: stamps[i] > cutoff
  {
    if stamps != [] {
      var init, last := stamps[..|stamps| - 1], stamps[|stamps| - 1];
      AfterIsTail(init, cutoff);
      if last <= cutoff {
        AllCut(init, cutoff);
        assert After(stamps, cutoff) == [];
      } else {
        assert After(stamps, cutoff) == After(init, cutoff) + [last];
      }
    }
  }

  lemma {:induction false} AllCut(stamps: seq<int>, cutoff: int)
    requires forall i | 0 <= i < |stamps| :: stamps[i] <= cutoff
    ensures After(stamps, cutoff) == []
  {
    if stamps != [] { AllCut(stamps[..|stamps| - 1], cutoff); }
  }

  /** One more stamp where fewer than ten were left after its cutoff. */
  lemma SpacedSnoc(stamps: seq<int>, at: int, stamp: int)
    requires Spaced(stamps) && at <= stamp && (forall i | 0 <= i < |stamps| :: stamps[i] <= stamp)
    requires |After(stamps, at - WINDOW_MS)| < MAX_PER_WINDOW
    ensures Spaced(stamps + [stamp])
  {
    AfterIsTail(stamps, at - WINDOW_MS);
    var more := stamps + [stamp];
    forall i, j | 0 <= i && j == i + MAX_PER_WINDOW < |more| ensures more[j] - more[i] >= WINDOW_MS {
      if j == |stamps| {
        var n := |After(stamps, at - WINDOW_MS)|;
        assert stamps[|stamps| - n - 1] <= at - WINDOW_MS;
        assert stamps[i] <= stamps[|stamps| - n - 1];
      }
    }
  }

  function CountIn(stamps: seq<int>, from: int, to: int): (n: nat)
    ensures n <= |stamps|
  {
    if stamps == [] then 0
    else
      var last := stamps[|stamps| - 1];
      CountIn(stamps[..|stamps| - 1], from, to) + if from < last <= to then 1 else 0
  }

  lemma {:induction false} NoneBefore(stamps: seq<int>, from: int, to: int)
    requires forall i | 0 <= i < |stamps| :: stamps[i] <= from
    ensures CountIn(stamps, from, to) == 0
  {
    if stamps != [] { NoneBefore(stamps[..|stamps| - 1], from, to); }
  }

  lemma {:induction false} CountTail(stamps: seq<int>, k: nat, from: int, to: int)
    requires k <= |stamps|
    ensures CountIn(stamps, from, to) <= CountIn(stamps[..k], from, to) + |stamps| - k
  {
    if k < |stamps| {
      assert stamps[..|stamps| - 1][..k] == stamps[..k];
      CountTail(stamps[..|stamps| - 1], k, from, to);
    } else {
      assert stamps[..k] == stamps;
    }
  }

  /** No window holds more than ten. */
  lemma {:induction false} WindowHoldsTen(stamps: seq<int>, from: int)
    requires Spaced(stamps)
    ensures CountIn(stamps, from, from + WINDOW_MS) <= MAX_PER_WINDOW
  {
    var n := |stamps|;
    if n <= MAX_PER_WINDOW { return; }
    var last := stamps[n - 1];
    if from < last <= from + WINDOW_MS {
      var k := n - MAX_PER_WINDOW;
      assert stamps[k - 1 + MAX_PER_WINDOW] - stamps[k - 1] >= WINDOW_MS;
      assert forall i | 0 <= i < k :: stamps[i] <= stamps[k - 1];
      NoneBefore(stamps[..k], from, from + WINDOW_MS);
      CountTail(stamps, k, from, from + WINDOW_MS);
    } else {
      WindowHoldsTen(stamps[..n - 1], from);
    }
  }

  // ---------------------------------------------------------------------------
  // The limiter
  // ---------------------------------------------------------------------------

  lemma HitSnoc(history: seq<Hit>, hit: Hit, source: string)
    ensures LastHit(history + [hit], source)
         == if hit.Hit? && hit.source == source then |history| else LastHit(history, source)
    ensures Granted(history + [hit], source)
         == if hit == Forgotten(source) then [] else Granted(history, source) + Stamp(hit, source)
  {
    assert (history + [hit])[..|history|] == history;
  }

  type Table = map<string, seq<int>>

  ghost predicate Regular(granted: seq<int>, clock: int) {
    Spaced(granted) && forall i | 0 <= i < |granted| :: granted[i] <= clock
  }

  /** What is kept for a source is what the history grants it, less what fell out of its window. */
  ghost predicate Kept(history: seq<Hit>, clock: int, requests: Table, cutoffs: map<string, int>, source: string) {
    var granted := Granted(history, source);
    && Regular(granted, clock)
    && if source in requests then
         && source in cutoffs && cutoffs[source] <= clock - WINDOW_MS
         && requests[source] == After(granted, cutoffs[source])
       else granted == []
  }

  ghost predicate AllKept(history: seq<Hit>, clock: int, requests: Table, cutoffs: map<string, int>) {
    forall source {:trigger Kept(history, clock, requests, cutoffs, source)} ::
      Kept(history, clock, requests, cutoffs, source)
  }

  ghost predicate Earlier(history: seq<Hit>, sources: seq<string>, i: nat, j: nat)
    requires i < j < |sources|
  {
    0 <= LastHit(history, sources[i]) < LastHit(history, sources[j])
  }

  /** Keys in the order of their last activity. */
  ghost predicate Sorted(history: seq<Hit>, sources: seq<string>) {
    forall i, j {:trigger Earlier(history, sources, i, j)} | 0 <= i < j < |sources| :: Earlier(history, sources, i, j)
  }

  function Remove(sources: seq<string>, x: string): (r: seq<string>)
    ensures forall y :: y in r <==> y in sources && y != x
  {
    if sources == [] then []
    else
      var init, last := sources[..|sources| - 1], sources[|sources| - 1];
      Remove(init, x) + if last == x then [] else [last]
  }

  lemma {:induction false} RemoveAbsent(sources: seq<string>, x: string)
    requires x !in sources
    ensures Remove(sources, x) == sources
  {
    if sources != [] { RemoveAbsent(sources[..|sources| - 1], x); }
  }

  lemma {:induction false} RemoveKeepsOrder(history: seq<Hit>, sources: seq<string>, x: string)
    requires Sorted(history, sources)
    ensures Sorted(history, Remove(sources, x))
    ensures |Remove(sources, x)| == |sources| - if x in sources then 1 else 0
    decreases |sources|
  {
    if sources != [] {
      var n := |sources| - 1;
      var init, r := sources[..n], Remove(sources, x);
      forall i, j | 0 <= i < j < n ensures Earlier(history, init, i, j) { assert Earlier(history, sources, i, j); }
      RemoveKeepsOrder(history, init, x);
      if sources[n] == x {
        assert r == Remove(init, x);
        if k :| 0 <= k < n && sources[k] == x { assert Earlier(history, sources, k, n); }
      } else {
        forall i, j | 0 <= i < j < |r| ensures Earlier(history, r, i, j) {
          if j == |r| - 1 {
            assert r[i] in init;
            var k :| 0 <= k < n && sources[k] == r[i];
            assert Earlier(history, sources, k, n);
          } else {
            assert Earlier(history, Remove(init, x), i, j);
          }
        }
      }
    }
  }

  lemma TouchKeepsOrder(history: seq<Hit>, sources: seq<string>, hit: Hit)
    requires Sorted(history, sources) && hit.Hit? && hit.source !in sources
             && (forall y <- sources :: LastHit(history, y) >= 0)
    ensures Sorted(history + [hit], sources + [hit.source])
    ensures forall y <- sources + [hit.source] :: LastHit(history + [hit], y) >= 0
  {
    forall y | y in sources + [hit.source] ensures LastHit(history + [hit], y) >= 0 { HitSnoc(history, hit, y); }
    var later, more := history + [hit], sources + [hit.source];
    forall i, j | 0 <= i < j < |more| ensures Earlier(later, more, i, j) {
      HitSnoc(history, hit, more[i]);
      HitSnoc(history, hit, more[j]);
      if j < |sources| { assert Earlier(history, sources, i, j); }
    }
  }

  /** The sources a history leaves in the map, the least recently active first. */
  function Active(history: seq<Hit>): seq<string> {
    if history == [] then []
    else
      var before, last := Active(history[..|history| - 1]), history[|history| - 1];
      Remove(before, last.source) + if last.Hit? then [last.source] else []
  }

  lemma ActiveSnoc(history: seq<Hit>, hit: Hit)
    ensures Active(history + [hit]) == Remove(Active(history), hit.source) + if hit.Hit? then [hit.source] else []
  {
    assert (history + [hit])[..|history|] == history;
  }

  lemma {:induction false} ActiveSorted(history: seq<Hit>)
    ensures Sorted(history, Active(history)) && forall y <- Active(history) :: LastHit(history, y) >= 0
  {
    if history != [] {
      var before, last := history[..|history| - 1], history[|history| - 1];
      ActiveSorted(before);
      RemoveKeepsOrder(before, Active(before), last.source);
      assert history == before + [last];
      if last.Hit? {
        TouchKeepsOrder(before, Remove(Active(before), last.source), last);
      } else {
        ForgetKeepsOrder(before, Remove(Active(before), last.source), last);
        assert Active(history) == Remove(Active(before), last.source);
      }
    }
  }

  lemma ForgetKeepsOrder(history: seq<Hit>, sources: seq<string>, hit: Hit)
    requires Sorted(history, sources) && hit.Forgotten?
    ensures Sorted(history + [hit], sources)
    ensures forall y :: LastHit(history + [hit], y) == LastHit(history, y)
  {
    forall y ensures LastHit(history + [hit], y) == LastHit(history, y) { HitSnoc(history, hit, y); }
    forall i, j | 0 <= i < j < |sources| ensures Earlier(history + [hit], sources, i, j) {
      assert Earlier(history, sources, i, j);
    }
  }

  lemma {:induction false} RemoveFirst(history: seq<Hit>, sources: seq<string>)
    requires Sorted(history, sources) && sources != []
    ensures Remove(sources, sources[0]) == sources[1..]
  {
    var n := |sources| - 1;
    if n > 0 {
      forall i, j | 0 <= i < j < n ensures Earlier(history, sources[..n], i, j) {
        assert Earlier(history, sources, i, j);
      }
      RemoveFirst(history, sources[..n]);
      assert Earlier(history, sources, 0, n);
      assert sources[1..] == sources[..n][1..] + [sources[n]];
    }
  }

  /** A source the request is not about keeps what it has. */
  lemma KeptApart(history: seq<Hit>, clock: int, requests: Table, cutoffs: map<string, int>, hit: Hit, now: int,
        next: Table, cuts: map<string, int>, y: string)
    requires Kept(history, clock, requests, cutoffs, y) && clock <= now && y != hit.source
    requires y in next <==> y in requests
    requires y in next ==> next[y] == requests[y]
    requires y in cutoffs ==> y in cuts && cuts[y] == cutoffs[y]
    ensures Kept(history + [hit], now, next, cuts, y)
  {
    HitSnoc(history, hit, y);
    assert Granted(history + [hit], y) == Granted(history, y);
  }

  /** A source let through: cut again, and longer by its stamp. */
  lemma KeptGranted(granted: seq<int>, clock: int, at: int, now: int)
    requires Regular(granted, clock) && clock <= at <= now && |After(granted, at - WINDOW_MS)| < MAX_PER_WINDOW
    ensures Regular(granted + [now], now)
    ensures After(granted + [now], at - WINDOW_MS) == After(granted, at - WINDOW_MS) + [now]
  {
    SpacedSnoc(granted, at, now);
    AfterSnoc(granted, now, at - WINDOW_MS);
  }

  /** The source itself: its list is what the history now grants it, cut at the new cutoff. */
  lemma KeptSelf(history: seq<Hit>, clock: int, requests: Table, cutoffs: map<string, int>, source: string,
        recent: seq<int>, stamp: Option<int>, at: int, now: int)
    requires Kept(history, clock, requests, cutoffs, source)
    requires clock <= at <= now && (stamp.Some? ==> stamp.value == now)
    requires stamp.Some? ==> |After(Granted(history, source), at - WINDOW_MS)| < MAX_PER_WINDOW
    requires recent == After(Granted(history, source), at - WINDOW_MS) + if stamp.Some? then [now] else []
    ensures var granted := Granted(history + [Hit(source, stamp)], source);
            Regular(granted, now) && recent == After(granted, at - WINDOW_MS)
  {
    HitSnoc(history, Hit(source, stamp), source);
    var granted := Granted(history, source);
    if stamp.Some? {
      KeptGranted(granted, clock, at, now);
    } else {
      assert Granted(history + [Hit(source, stamp)], source) == granted;
    }
  }

  lemma TouchKeepsAll(history: seq<Hit>, clock: int, requests: Table, cutoffs: map<string, int>, source: string,
        recent: seq<int>, stamp: Option<int>, at: int, now: int)
    requires AllKept(history, clock, requests, cutoffs)
    requires clock <= at <= now && (stamp.Some? ==> stamp.value == now)
    requires stamp.Some? ==> |After(Granted(history, source), at - WINDOW_MS)| < MAX_PER_WINDOW
    requires recent == After(Granted(history, source), at - WINDOW_MS) + if stamp.Some? then [now] else []
    ensures AllKept(history + [Hit(source, stamp)], now, requests[source := recent], cutoffs[source := at - WINDOW_MS])
  {
    var hit, next, cuts := Hit(source, stamp), requests[source := recent], cutoffs[source := at - WINDOW_MS];
    forall y ensures Kept(history + [hit], now, next, cuts, y) {
      assert Kept(history, clock, requests, cutoffs, y);
      if y == source {
        KeptSelf(history, clock, requests, cutoffs, source, recent, stamp, at, now);
      } else {
        KeptApart(history, clock, requests, cutoffs, hit, now, next, cuts, y);
      }
    }
  }

  lemma EvictKeepsAll(history: seq<Hit>, clock: int, requests: Table, cutoffs: map<string, int>, oldest: string)
    requires AllKept(history, clock, requests, cutoffs)
    ensures AllKept(history + [Forgotten(oldest)], clock, requests - {oldest}, cutoffs)
  {
    var hit := Forgotten(oldest);
    forall y ensures Kept(history + [hit], clock, requests - {oldest}, cutoffs, y) {
      assert Kept(history, clock, requests, cutoffs, y);
      HitSnoc(history, hit, y);
      if y != oldest { KeptApart(history, clock, requests, cutoffs, hit, clock, requests - {oldest}, cutoffs, y); }
    }
  }

  /** The list kept for a source, cut again, is its history's grants in the window. */
  lemma RecentGrants(history: seq<Hit>, clock: int, requests: Table, cutoffs: map<string, int>, source: string,
        cutoff: int)
    requires Kept(history, clock, requests, cutoffs, source) && clock - WINDOW_MS <= cutoff
    ensures After(if source in requests then requests[source] else [], cutoff)
            == After(Granted(history, source), cutoff)
  {
    if source in requests { AfterAfter(Granted(history, source), cutoffs[source], cutoff); }
  }

  datatype Request = Request(source: string, at: int, now: int)

  function HitOf(r: Request, ok: bool): Hit {
    Hit(r.source, if ok then Some(r.now) else None)
  }

  /** Whom a request makes the map forget: one let through that makes 4097 sources, the first. */
  function Forgets(history: seq<Hit>, r: Request, ok: bool): Option<string> {
    if ok && r.source !in Active(history) && |Active(history)| == MAX_SOURCES then Some(Active(history)[0]) else None
  }

  /** A request's entries in the history. */
  function Recorded(history: seq<Hit>, hit: Hit, forgotten: Option<string>): seq<Hit> {
    match forgotten
    case None => history + [hit]
    case Some(y) => history + [hit] + [Forgotten(y)]
  }

  /** A source with grants has not been forgotten. */
  lemma {:induction false} StillActive(history: seq<Hit>, source: string)
    requires Granted(history, source) != []
    ensures source in Active(history)
  {
    var last := history[|history| - 1];
    if last.source != source { StillActive(history[..|history| - 1], source); }
  }

  class DeviceCodeRateLimiter {
    /** The map: its keys in insertion order, and the stamps kept for each. */
    var sources: seq<string>
    var requests: Table
    /** All requests so far, the latest reading of the clock, and the cutoff each list was last cut at. */
    ghost var history: seq<Hit>
    ghost var clock: int
    ghost var cutoffs: map<string, int>

    /** All that holds but the bound on the table. */
    ghost predicate Consistent()
      reads this
    {
      && (forall source :: source in sources <==> source in requests)
      && AllKept(history, clock, requests, cutoffs)
      && sources == Active(history)
    }

    ghost predicate Valid()
      reads this
    {
      Consistent() && |sources| <= MAX_SOURCES
    }

    constructor (ghost start: int)
      ensures Valid() && history == [] && sources == [] && clock == start
    {
      sources, requests, history, clock, cutoffs := [], map[], [], start, map[];
    }

    /** Delete the source and insert it again, at the end, with the stamps it now has. */
    method Touch(source: string, recent: seq<int>, ghost stamp: Option<int>, ghost at: int, ghost now: int)
      requires Consistent() && clock <= at <= now && (stamp.Some? ==> stamp.value == now)
      requires stamp.Some? ==> |After(Granted(history, source), at - WINDOW_MS)| < MAX_PER_WINDOW
      requires recent == After(Granted(history, source), at - WINDOW_MS) + if stamp.Some? then [now] else []
      modifies this
      ensures Consistent() && clock == now
      ensures history == old(history) + [Hit(source, stamp)]
      ensures sources == Remove(old(sources), source) + [source]
      ensures |sources| == |old(sources)| + if source in old(requests) then 0 else 1
    {
      TouchKeepsAll(history, clock, requests, cutoffs, source, recent, stamp, at, now);
      ActiveSorted(history);
      RemoveKeepsOrder(history, sources, source);
      ActiveSnoc(history, Hit(source, stamp));
      sources, requests := Remove(sources, source) + [source], requests[source := recent];
      history, clock, cutoffs := history + [Hit(source, stamp)], now, cutoffs[source := at - WINDOW_MS];
    }

    /** Forget the first source of the map. */
    method Evict()
      requires Consistent() && sources != []
      modifies this`sources, this`requests, this`history
      ensures Consistent()
      ensures history == old(history) + [Forgotten(old(sources[0]))]
      ensures sources == old(sources)[1..]
    {
      var oldest := sources[0];
      EvictKeepsAll(history, clock, requests, cutoffs, oldest);
      ActiveSorted(history);
      RemoveFirst(history, sources);
      ActiveSnoc(history, Forgotten(oldest));
      sources, requests, history := sources[1..], requests - {oldest}, history + [Forgotten(oldest)];
    }

    /**
     `at` and `now` are the two readings of the clock. A request is let through exactly when fewer
     than ten were in the window before it; when that makes a source too many, the least recently
     active one is forgotten.
     */
    method Allow(source: string, at: int, now: int) returns (ok: bool)
      requires Valid() && clock <= at <= now
      modifies this
      ensures Valid() && clock == now
      ensures ok <==> |After(Granted(old(history), source), at - WINDOW_MS)| < MAX_PER_WINDOW
      ensures var r := Request(source, at, now);
              history == Recorded(old(history), HitOf(r, ok), Forgets(old(history), r, ok))
    {
      var cutoff := at - WINDOW_MS;
      var recent := After(if source in requests then requests[source] else [], cutoff);
      assert Kept(history, clock, requests, cutoffs, source);
      RecentGrants(history, clock, requests, cutoffs, source, cutoff);
      ghost var before := sources;
      if |recent| >= MAX_PER_WINDOW {
        Touch(source, recent, None, at, now);
        return false;
      }
      Touch(source, recent + [now], Some(now), at, now);
      if |sources| > MAX_SOURCES {
        RemoveAbsent(before, source);
        Evict();
      }
      return true;
    }
  }

  /** Whom a request makes the map forget is the least recently active. */
  lemma ForgetsLeast(history: seq<Hit>, r: Request, ok: bool)
    ensures var forgotten := Forgets(history, r, ok);
            forgotten.Some? ==> forall y <- Active(history) :: LastHit(history, forgotten.value) <= LastHit(history, y)
  {
    ActiveSorted(history);
    if Active(history) != [] { FirstIsOldest(history, Active(history)); }
  }

  /** The first key of the map is the least recently active. */
  lemma FirstIsOldest(history: seq<Hit>, sources: seq<string>)
    requires Sorted(history, sources) && sources != []
    ensures forall y <- sources :: LastHit(history, sources[0]) <= LastHit(history, y)
  {
    forall i | 0 < i < |sources| ensures LastHit(history, sources[0]) < LastHit(history, sources[i]) {
      assert Earlier(history, sources, 0, i);
    }
  }

  // ---------------------------------------------------------------------------
  // Whole runs
  // ---------------------------------------------------------------------------

  lemma {:induction false} NeverForgotten(history: seq<Hit>, source: string)
    requires Forgotten(source) !in history
    ensures Granted(history, source) == EverGranted(history, source)
  {
    if history != [] { NeverForgotten(history[..|history| - 1], source); }
  }

  predicate Timely(requests: seq<Request>, start: int) {
    && (forall i | 0 <= i < |requests| :: start <= requests[i].at <= requests[i].now)
    && (forall i | 0 < i < |requests| :: requests[i - 1].now <= requests[i].at)
  }

  /** The map stays within its bound. */
  lemma RecordedFew(history: seq<Hit>, r: Request, ok: bool)
    requires |Active(history)| <= MAX_SOURCES
    requires ok <==> |After(Granted(history, r.source), r.at - WINDOW_MS)| < MAX_PER_WINDOW
    ensures |Active(Recorded(history, HitOf(r, ok), Forgets(history, r, ok)))| <= MAX_SOURCES
  {
    if !ok { StillActive(history, r.source); }
    AddsOne(history, HitOf(r, ok));
    if Forgets(history, r, ok).Some? { ForgetsFirst(history, HitOf(r, ok)); }
  }

  lemma AddsOne(history: seq<Hit>, hit: Hit)
    requires hit.Hit?
    ensures Active(history + [hit])
         == if hit.source in Active(history) then Remove(Active(history), hit.source) + [hit.source]
            else Active(history) + [hit.source]
    ensures |Active(history + [hit])| == |Active(history)| + if hit.source in Active(history) then 0 else 1
  {
    ActiveSorted(history);
    RemoveKeepsOrder(history, Active(history), hit.source);
    ActiveSnoc(history, hit);
    if hit.source !in Active(history) { RemoveAbsent(Active(history), hit.source); }
  }

  lemma ForgetsFirst(history: seq<Hit>, hit: Hit)
    requires hit.Hit? && Active(history) != [] && hit.source !in Active(history)
    ensures |Active(history + [hit] + [Forgotten(Active(history)[0])])| == |Active(history)|
  {
    var next := history + [hit];
    AddsOne(history, hit);
    ActiveSorted(next);
    RemoveFirst(next, Active(next));
    ActiveSnoc(next, Forgotten(Active(history)[0]));
  }

  /** Request `i` is let through exactly if fewer than ten grants are in its window, and is recorded. */
  ghost predicate AnsweredAt(requests: seq<Request>, answers: seq<bool>, histories: seq<seq<Hit>>, i: nat)
    requires i < |requests| && i < |answers| && i + 1 < |histories|
  {
    var r, history := requests[i], histories[i];
    && (answers[i] <==> |After(Granted(history, r.source), r.at - WINDOW_MS)| < MAX_PER_WINDOW)
    && histories[i + 1] == Recorded(history, HitOf(r, answers[i]), Forgets(history, r, answers[i]))
  }

  /** The answers to the first `n` requests, and the history before and after each. */
  ghost predicate Answered(requests: seq<Request>, answers: seq<bool>, histories: seq<seq<Hit>>, n: nat) {
    && n <= |requests| && n == |answers| && n + 1 == |histories| && histories[0] == []
    && forall i {:trigger AnsweredAt(requests, answers, histories, i)} | 0 <= i < n ::
         AnsweredAt(requests, answers, histories, i)
  }

  lemma AnsweredSnoc(requests: seq<Request>, answers: seq<bool>, histories: seq<seq<Hit>>, n: nat, ok: bool,
        next: seq<Hit>)
    requires Answered(requests, answers, histories, n) && n < |requests|
    requires AnsweredAt(requests, answers + [ok], histories + [next], n)
    ensures Answered(requests, answers + [ok], histories + [next], n + 1)
  {
    forall i | 0 <= i < n + 1 ensures AnsweredAt(requests, answers + [ok], histories + [next], i) {
      if i < n { assert AnsweredAt(requests, answers, histories, i); }
    }
  }

  lemma StepFew(requests: seq<Request>, answers: seq<bool>, histories: seq<seq<Hit>>, i: nat)
    requires i < |requests| && i < |answers| && i + 1 < |histories| && AnsweredAt(requests, answers, histories, i)
    requires Few(histories[i])
    ensures Few(histories[i + 1])
  {
    RecordedFew(histories[i], requests[i], answers[i]);
  }

  predicate Few(history: seq<Hit>) {
    |Active(history)| <= MAX_SOURCES
  }

  lemma {:induction false} FewActive(requests: seq<Request>, answers: seq<bool>, histories: seq<seq<Hit>>,
        n: nat, k: nat)
    requires Answered(requests, answers, histories, n) && k <= n
    ensures Few(histories[k])
    decreases k
  {
    if k > 0 {
      FewActive(requests, answers, histories, n, k - 1);
      assert AnsweredAt(requests, answers, histories, k - 1);
      StepFew(requests, answers, histories, k - 1);
    }
  }

  /**
   A request makes the map forget a source exactly when it is let through and comes from a new one
   while there are 4096, and then the least recently active; there are never more.
   */
  lemma ForgottenWhenFull(requests: seq<Request>, answers: seq<bool>, histories: seq<seq<Hit>>, n: nat, k: nat)
    requires Answered(requests, answers, histories, n) && k < n
    ensures var history, r := histories[k], requests[k];
            && |Active(history)| <= MAX_SOURCES
            && if answers[k] && r.source !in Active(history) && |Active(history)| == MAX_SOURCES then
                 exists oldest ::
                   && oldest in Active(history)
                   && histories[k + 1] == history + [HitOf(r, true)] + [Forgotten(oldest)]
                   && forall y <- Active(history) :: LastHit(history, oldest) <= LastHit(history, y)
               else
                 histories[k + 1] == history + [HitOf(r, answers[k])]
  {
    FewActive(requests, answers, histories, n, k);
    assert AnsweredAt(requests, answers, histories, k);
    ForgetsLeast(histories[k], requests[k], answers[k]);
    var forgotten := Forgets(histories[k], requests[k], answers[k]);
    assert forgotten.Some? ==> forgotten.value in Active(histories[k]);
  }

  /**
   Any run against a clock that does not go back: no source that was not forgotten is let through
   more than ten times in any ten minutes.
   */
  method Serve(requests: seq<Request>, start: int) returns (answers: seq<bool>, ghost histories: seq<seq<Hit>>)
    requires Timely(requests, start)
    ensures |answers| == |requests|
    ensures Answered(requests, answers, histories, |requests|)
    ensures var history := histories[|requests|];
            forall source, from {:trigger AtMostTen(EverGranted(history, source), from)} |
              Forgotten(source) !in history :: AtMostTen(EverGranted(history, source), from)
  {
    var limiter := new DeviceCodeRateLimiter(start);
    answers, histories := [], [[]];
    for i := 0 to |requests|
      invariant limiter.Valid() && fresh(limiter)
      invariant limiter.clock == if i == 0 then start else requests[i - 1].now
      invariant Answered(requests, answers, histories, i) && histories[i] == limiter.history
    {
      var ok := limiter.Allow(requests[i].source, requests[i].at, requests[i].now);
      AnsweredSnoc(requests, answers, histories, i, ok, limiter.history);
      answers, histories := answers + [ok], histories + [limiter.history];
    }
    NoneTooMany(limiter.history, limiter.clock, limiter.requests, limiter.cutoffs);
  }

  lemma NoneTooMany(history: seq<Hit>, clock: int, requests: Table, cutoffs: map<string, int>)
    requires AllKept(history, clock, requests, cutoffs)
    ensures forall source, from {:trigger AtMostTen(EverGranted(history, source), from)} |
              Forgotten(source) !in history :: AtMostTen(EverGranted(history, source), from)
  {
    forall source, from
      ensures Forgotten(source) !in history ==> AtMostTen(EverGranted(history, source), from)
    {
      assert Kept(history, clock, requests, cutoffs, source);
      WindowHoldsTen(Granted(history, source), from);
      if Forgotten(source) !in history { NeverForgotten(history, source); }
    }
  }

  /** At most ten stamps in the ten minutes after `from`. */
  predicate AtMostTen(stamps: seq<int>, from: int) {
    CountIn(stamps, from, from + WINDOW_MS) <= MAX_PER_WINDOW
  }
}
