/**
 createApiIdentityClient (apps/gateway/src/identity-client.ts:44-140). Each method is what runs
 between two awaits, so any order of calls is an interleaving of the client's callers.
 */
module CallerTokens {
  import opened Prelude

  const REFRESH_MARGIN_MS: int := 60_000
  const RETRY_MS: int := 5_000
  const INACTIVE_RETRY_MS: int := 60_000

  datatype Entry = Entry(token: string, expiresAt: int, refreshAt: int)

  // ---------------------------------------------------------------------------
  // A map in insertion order
  // ---------------------------------------------------------------------------

  datatype Slot = Slot(project: string, entry: Entry)

  type Cache = seq<Slot>

  function Find(cache: Cache, p: string): Option<Entry> {
    if cache == [] then None
    else if cache[0].project == p then Some(cache[0].entry)
    else Find(cache[1..], p)
  }

  function Drop(cache: Cache, p: string): Cache {
    if cache == [] then []
    else (if cache[0].project == p then [] else [cache[0]]) + Drop(cache[1..], p)
  }

  /** Setting a key that is there keeps its place. */
  function Put(cache: Cache, p: string, e: Entry): Cache {
    if cache == [] then [Slot(p, e)]
    else if cache[0].project == p then [Slot(p, e)] + cache[1..]
    else [cache[0]] + Put(cache[1..], p, e)
  }

  lemma {:induction false} DropFinds(cache: Cache, p: string, q: string)
    ensures Find(Drop(cache, p), q) == if p == q then None else Find(cache, q)
    ensures |Drop(cache, p)| <= |cache| && (Find(cache, p).Some? ==> |Drop(cache, p)| < |cache|)
  {
    if cache != [] {
      DropFinds(cache[1..], p, q);
      var rest := Drop(cache[1..], p);
      if cache[0].project == p {
        assert Drop(cache, p) == rest;
      } else {
        assert Drop(cache, p)[1..] == rest;
      }
    }
  }

  lemma {:induction false} PutFinds(cache: Cache, p: string, e: Entry, q: string)
    ensures Find(Put(cache, p, e), q) == if p == q then Some(e) else Find(cache, q)
  {
    if cache != [] { PutFinds(cache[1..], p, e, q); }
  }

  lemma {:induction false} AppendFinds(cache: Cache, p: string, e: Entry, q: string)
    requires Find(cache, p).None?
    ensures Find(cache + [Slot(p, e)], q) == if p == q then Some(e) else Find(cache, q)
  {
    if cache == [] {
      assert cache + [Slot(p, e)] == [Slot(p, e)];
    } else {
      assert (cache + [Slot(p, e)])[1..] == cache[1..] + [Slot(p, e)];
      AppendFinds(cache[1..], p, e, q);
    }
  }

  /** The entries left when the first ones make room for `max`. */
  function Trimmed(cache: Cache, max: nat): Cache {
    if |cache| > max then cache[|cache| - max..] else cache
  }

  lemma {:induction false} TailFinds(cache: Cache, k: nat, q: string)
    requires k <= |cache| && Find(cache, q).None?
    ensures Find(cache[k..], q).None?
  {
    if k > 0 {
      TailFinds(cache[1..], k - 1, q);
      assert cache[1..][k - 1..] == cache[k..];
    }
  }

  lemma {:induction false} FoundIsIn(cache: Cache, p: string)
    requires Find(cache, p).Some?
    ensures Slot(p, Find(cache, p).value) in cache
  {
    if cache[0].project != p { FoundIsIn(cache[1..], p); }
  }

  lemma {:induction false} DropAddsNone(cache: Cache, p: string)
    ensures forall s <- Drop(cache, p) :: s in cache
  {
    if cache != [] { DropAddsNone(cache[1..], p); }
  }

  lemma {:induction false} PutAddsOne(cache: Cache, p: string, e: Entry)
    ensures forall s <- Put(cache, p, e) :: s in cache || s == Slot(p, e)
  {
    if cache != [] && cache[0].project != p { PutAddsOne(cache[1..], p, e); }
  }

  // ---------------------------------------------------------------------------
  // What happened
  // ---------------------------------------------------------------------------

  datatype Moment =
    | Started(project: string, at: int)
    | Stored(project: string, token: string, expiresAt: int)
    | Succeeded(project: string)
    | Failed(project: string, at: int, inactive: bool)
    | Ended(project: string)

  function Delay(inactive: bool): int {
    if inactive then INACTIVE_RETRY_MS else RETRY_MS
  }

  /** Every failure of the project's mints is past its floor at `t`. */
  ghost predicate Due(log: seq<Moment>, p: string, t: int) {
    forall i | 0 <= i < |log| && log[i].Failed? && log[i].project == p :: log[i].at + Delay(log[i].inactive) <= t
  }

  /** A mint of the project has started and not ended. */
  function InFlight(log: seq<Moment>, p: string): bool {
    if log == [] then false
    else
      var last := log[|log| - 1];
      if last.Started? && last.project == p then true
      else if last == Ended(p) then false
      else InFlight(log[..|log| - 1], p)
  }

  /** The project's mints were last answered with "inactive", and none was stored since. */
  function Revoked(log: seq<Moment>, p: string): bool {
    if log == [] then false
    else
      var last := log[|log| - 1];
      if last.Stored? && last.project == p then false
      else if last.Failed? && last.inactive && last.project == p then true
      else Revoked(log[..|log| - 1], p)
  }

  /** No mint starts beside another of its project, nor before the floor of any of its failures. */
  ghost predicate Orderly(log: seq<Moment>) {
    forall j {:trigger OrderlyAt(log, j)} | 0 <= j < |log| :: OrderlyAt(log, j)
  }

  ghost predicate OrderlyAt(log: seq<Moment>, j: nat)
    requires j < |log|
  {
    log[j].Started? ==> !InFlight(log[..j], log[j].project) && Due(log[..j], log[j].project, log[j].at)
  }

  lemma LogSnoc(log: seq<Moment>, m: Moment, p: string)
    ensures InFlight(log + [m], p)
         == if m.Started? && m.project == p then true else if m == Ended(p) then false else InFlight(log, p)
    ensures Revoked(log + [m], p)
         == if m.Stored? && m.project == p then false
            else if m.Failed? && m.inactive && m.project == p then true
            else Revoked(log, p)
    ensures forall t :: Due(log + [m], p, t)
                   <==> Due(log, p, t) && (m.Failed? && m.project == p ==> m.at + Delay(m.inactive) <= t)
  {
    var more := log + [m];
    assert more[..|log|] == log;
    forall t
      ensures Due(more, p, t) <==> Due(log, p, t) && (m.Failed? && m.project == p ==> m.at + Delay(m.inactive) <= t)
    {
      assert forall i | 0 <= i < |log| :: more[i] == log[i];
      assert more[|log|] == m;
      if Due(more, p, t) {
        forall i | 0 <= i < |log| && log[i].Failed? && log[i].project == p
          ensures log[i].at + Delay(log[i].inactive) <= t
        {
          assert more[i] == log[i];
        }
      }
    }
  }

  lemma OrderlySnoc(log: seq<Moment>, m: Moment)
    requires Orderly(log) && (m.Started? ==> !InFlight(log, m.project) && Due(log, m.project, m.at))
    ensures Orderly(log + [m])
  {
    var more := log + [m];
    forall j | 0 <= j < |more| ensures OrderlyAt(more, j) {
      if j < |log| {
        assert more[..j] == log[..j];
        assert OrderlyAt(log, j);
      } else {
        assert more[..j] == log;
      }
    }
  }

  // ---------------------------------------------------------------------------
  // The client
  // ---------------------------------------------------------------------------

  /** What the mint route answers: a token, "inactive" (409), or anything else, errors included. */
  datatype Response = Token(token: string, expiresAt: int) | Inactive | Unusable

  /** An attempt in the in-flight map: waiting for the route, for its result's handler, or done. */
  datatype Attempt =
    | Fetching
    | Minted(token: Option<string>, inactive: bool)
    | Done(value: Option<string>, minted: bool, at: int)

  /** A value read from the cache and the clock's reading there, someone's attempt, or a new one. */
  datatype Answer = Now(value: Option<string>, at: int) | Join | Start

  /** A token was stored for the project, and was unexpired at `at` unless it is just minted. */
  ghost predicate Backed(log: seq<Moment>, p: string, token: string, minted: bool, at: int) {
    exists e: int :: Stored(p, token, e) in log && (minted || e > at)
  }

  /** The token an attempt comes to is backed, and was stored since access was last switched off. */
  ghost predicate AttemptOk(log: seq<Moment>, p: string, attempt: Attempt) {
    match attempt
    case Fetching => true
    case Minted(token, _) => token.Some? ==> !Revoked(log, p) && Backed(log, p, token.value, true, 0)
    case Done(value, minted, at) => value.Some? ==> !Revoked(log, p) && Backed(log, p, value.value, minted, at)
  }

  ghost predicate Logged(log: seq<Moment>, s: Slot) {
    Stored(s.project, s.entry.token, s.entry.expiresAt) in log
  }

  lemma BackedSnoc(log: seq<Moment>, m: Moment, p: string, token: string, minted: bool, at: int)
    requires Backed(log, p, token, minted, at)
    ensures Backed(log + [m], p, token, minted, at)
  {
    var e: int :| Stored(p, token, e) in log && (minted || e > at);
    assert Stored(p, token, e) in log + [m];
  }

  lemma AttemptSnoc(log: seq<Moment>, m: Moment, p: string, attempt: Attempt)
    requires AttemptOk(log, p, attempt) && !(m.Failed? && m.project == p)
    ensures AttemptOk(log + [m], p, attempt)
  {
    LogSnoc(log, m, p);
    match attempt
    case Fetching =>
    case Minted(token, _) => if token.Some? { BackedSnoc(log, m, p, token.value, true, 0); }
    case Done(value, minted, at) => if value.Some? { BackedSnoc(log, m, p, value.value, minted, at); }
  }

  function Look<T>(m: map<string, T>, p: string): Option<T> {
    if p in m then Some(m[p]) else None
  }

  function Later(a: int, b: Option<int>): int {
    if b.Some? && b.value > a then b.value else a
  }

  /**
   A project's share of the state: the in-flight map knows its mints, its retry floor covers its
   failures, and nothing is cached for it while its access is revoked.
   */
  ghost predicate ProjectOk(log: seq<Moment>, clock: int, p: string, entry: Option<Entry>,
        attempt: Option<Attempt>, retry: Option<int>) {
    && (attempt.Some? <==> InFlight(log, p))
    && Due(log, p, Later(clock, retry))
    && (attempt.Some? && !attempt.value.Done? ==> Due(log, p, clock))
    && (Revoked(log, p) ==> entry.None?)
    && (attempt.Some? ==> AttemptOk(log, p, attempt.value))
  }

  lemma Apart(log: seq<Moment>, m: Moment, clock: int, now: int, p: string, entry: Option<Entry>,
        next: Option<Entry>, attempt: Option<Attempt>, retry: Option<int>)
    requires ProjectOk(log, clock, p, entry, attempt, retry) && m.project != p && clock <= now
    requires entry.None? ==> next.None?
    ensures ProjectOk(log + [m], now, p, next, attempt, retry)
  {
    LogSnoc(log, m, p);
    if attempt.Some? { AttemptSnoc(log, m, p, attempt.value); }
  }

  method MakeRoom(stored: Cache, max: nat) returns (cache: Cache)
    ensures cache == Trimmed(stored, max)
  {
    cache := stored;
    while |cache| > max
      invariant Trimmed(cache, max) == Trimmed(stored, max)
    {
      cache := cache[1..];
    }
  }

  // ---------------------------------------------------------------------------
  // The client as a value
  // ---------------------------------------------------------------------------

  datatype Client = Client(
    cache: Cache, inflight: map<string, Attempt>, retryAfter: map<string, int>, log: seq<Moment>)

  function FreshToken(cache: Cache, p: string, now: int): Option<string> {
    var entry := Find(cache, p);
    if entry.Some? && entry.value.expiresAt > now && entry.value.refreshAt > now then Some(entry.value.token) else None
  }

  /** An expired entry is dropped; another one moves to the end. */
  function AfterFresh(cache: Cache, p: string, now: int): Cache {
    var entry := Find(cache, p);
    if entry.None? then cache
    else Drop(cache, p) + if entry.value.expiresAt > now then [Slot(p, entry.value)] else []
  }

  function UnexpiredToken(cache: Cache, p: string, now: int): Option<string> {
    var entry := Find(cache, p);
    if entry.Some? && entry.value.expiresAt > now then Some(entry.value.token) else None
  }

  function AfterUnexpired(cache: Cache, p: string, now: int): Cache {
    var entry := Find(cache, p);
    if entry.Some? && entry.value.expiresAt <= now then Drop(cache, p) else cache
  }

  function Floor(retryAfter: map<string, int>, p: string): int {
    if p in retryAfter then retryAfter[p] else 0
  }

  /** What a request for the token is answered with, up to its first wait. */
  function AnswerTo(c: Client, p: string, t1: int, t2: int, t3: int): Answer {
    var held := FreshToken(c.cache, p, t1);
    if Truthy(held) then Now(held, t1)
    else if p in c.inflight then Join
    else if t2 < Floor(c.retryAfter, p) then Now(UnexpiredToken(AfterFresh(c.cache, p, t1), p, t3), t3)
    else Start
  }

  predicate Truthy(token: Option<string>) {
    token.Some? && token.value != ""
  }

  function AfterAsk(c: Client, p: string, t1: int, t2: int, t3: int): Client {
    var cache := AfterFresh(c.cache, p, t1);
    if Truthy(FreshToken(c.cache, p, t1)) || p in c.inflight then c.(cache := cache)
    else if t2 < Floor(c.retryAfter, p) then c.(cache := AfterUnexpired(cache, p, t3))
    else c.(cache := cache, inflight := c.inflight[p := Fetching], log := c.log + [Started(p, t2)])
  }

  function AfterResponse(c: Client, max: nat, p: string, response: Response): Client {
    match response
    case Token(token, expiresAt) =>
      c.(cache := Trimmed(Put(c.cache, p, Entry(token, expiresAt, expiresAt - REFRESH_MARGIN_MS)), max),
         inflight := c.inflight[p := Minted(Some(token), false)],
         log := c.log + [Stored(p, token, expiresAt)])
    case _ => c.(inflight := c.inflight[p := Minted(None, response.Inactive?)])
  }

  function AfterSettling(c: Client, p: string, t1: int, t2: int): Client
    requires p in c.inflight && c.inflight[p].Minted?
  {
    var Minted(token, inactive) := c.inflight[p];
    if Truthy(token) then
      c.(inflight := c.inflight[p := Done(token, true, t1)], retryAfter := c.retryAfter - {p},
         log := c.log + [Succeeded(p)])
    else
      var failed := c.(retryAfter := c.retryAfter[p := t1 + Delay(inactive)], log := c.log + [Failed(p, t1, inactive)]);
      if inactive then
        failed.(cache := Drop(c.cache, p), inflight := c.inflight[p := Done(None, false, t2)])
      else
        failed.(cache := AfterUnexpired(c.cache, p, t2),
                inflight := c.inflight[p := Done(UnexpiredToken(c.cache, p, t2), false, t2)])
  }

  function AfterEnd(c: Client, p: string): Client {
    c.(inflight := c.inflight - {p}, log := c.log + [Ended(p)])
  }

  class IdentityClient {
    const maxEntries: nat
    var cache: Cache
    var inflight: map<string, Attempt>
    var retryAfter: map<string, int>
    ghost var log: seq<Moment>
    ghost var clock: int

    ghost function View(): Client
      reads this
    {
      Client(cache, inflight, retryAfter, log)
    }

    ghost predicate Ok(p: string)
      reads this
    {
      ProjectOk(log, clock, p, Find(cache, p), Look(inflight, p), Look(retryAfter, p))
    }

    ghost predicate Valid()
      reads this
    {
      && Orderly(log)
      && |cache| <= maxEntries
      && (forall s <- cache :: Logged(log, s))
      && forall p {:trigger Ok(p)} :: Ok(p)
    }

    constructor (maxEntries: nat, ghost start: int)
      ensures Valid() && this.maxEntries == maxEntries && cache == [] && inflight == map[] && retryAfter == map[]
      ensures log == [] && clock == start
    {
      this.maxEntries := maxEntries;
      cache, inflight, retryAfter, log, clock := [], map[], map[], [], start;
    }

    /** Only the cache entry of `p` may have gone, and the clock moved on. */
    twostate predicate CacheOnly(p: string)
      reads this
    {
      && inflight == old(inflight) && retryAfter == old(retryAfter) && log == old(log)
      && forall q {:trigger Find(cache, q)} ::
           Find(cache, q) == Find(old(cache), q) || (q == p && Find(cache, q).None?)
    }

    method Evict(p: string)
      requires Valid()
      modifies this`cache
      ensures Valid() && Find(cache, p).None? && cache == Drop(old(cache), p)
      ensures forall q {:trigger Find(cache, q)} :: q != p ==> Find(cache, q) == Find(old(cache), q)
    {
      cache := Drop(cache, p);
      DropAddsNone(old(cache), p);
      DropFinds(old(cache), p, p);
      forall q ensures Find(cache, q) == if p == q then None else Find(old(cache), q) { DropFinds(old(cache), p, q); }
      forall q ensures Ok(q) { assert old(Ok(q)); }
    }

    method Tick(now: int)
      requires Valid() && clock <= now
      modifies this`clock
      ensures Valid() && clock == now
    {
      clock := now;
      forall q ensures Ok(q) { assert old(Ok(q)); }
    }

    lemma CachedIsBacked(p: string, now: int)
      requires Valid() && Find(cache, p).Some? && Find(cache, p).value.expiresAt > now
      ensures !Revoked(log, p) && Backed(log, p, Find(cache, p).value.token, false, now)
    {
      assert Ok(p);
      FoundIsIn(cache, p);
      assert Logged(log, Slot(p, Find(cache, p).value));
    }

    /** A token not yet due for refresh. */
    method ReadFresh(p: string, now: int) returns (token: Option<string>)
      requires Valid() && clock <= now
      modifies this`cache, this`clock
      ensures Valid() && CacheOnly(p) && clock == now
      ensures token == FreshToken(old(cache), p, now) && cache == AfterFresh(old(cache), p, now)
      ensures token.Some? ==> Backed(log, p, token.value, false, now)
    {
      Tick(now);
      var entry := Find(cache, p);
      if entry.None? { return None; }
      if entry.value.expiresAt <= now {
        Evict(p);
        return None;
      }
      CachedIsBacked(p, now);
      forall q ensures Find(Drop(cache, p) + [Slot(p, entry.value)], q) == Find(cache, q) {
        DropFinds(cache, p, p);
        DropFinds(cache, p, q);
        AppendFinds(Drop(cache, p), p, entry.value, q);
      }
      DropFinds(cache, p, p);
      DropAddsNone(cache, p);
      FoundIsIn(cache, p);
      cache := Drop(cache, p) + [Slot(p, entry.value)];
      forall q ensures Ok(q) { assert old(Ok(q)); }
      return if entry.value.refreshAt > now then Some(entry.value.token) else None;
    }

    /** A token that has not expired. */
    method ReadUnexpired(p: string, now: int) returns (token: Option<string>)
      requires Valid() && clock <= now
      modifies this`cache, this`clock
      ensures Valid() && CacheOnly(p) && clock == now
      ensures token == UnexpiredToken(old(cache), p, now) && cache == AfterUnexpired(old(cache), p, now)
      ensures token.Some? ==> !Revoked(log, p) && Backed(log, p, token.value, false, now)
    {
      Tick(now);
      var entry := Find(cache, p);
      if entry.None? { return None; }
      if entry.value.expiresAt <= now {
        Evict(p);
        return None;
      }
      CachedIsBacked(p, now);
      return Some(entry.value.token);
    }

    /** A request for `p`'s token, up to its first wait; `t1`, `t2` and `t3` are the clock's readings. */
    method CallerToken(p: string, t1: int, t2: int, t3: int) returns (answer: Answer)
      requires Valid() && clock <= t1 <= t2 <= t3
      modifies this
      ensures Valid() && clock <= t3
      ensures answer == AnswerTo(old(View()), p, t1, t2, t3) && View() == AfterAsk(old(View()), p, t1, t2, t3)
      ensures forall q {:trigger Find(cache, q)} ::
                Find(cache, q) == Find(old(cache), q) || (q == p && Find(cache, q).None?)
      ensures answer.Now? && answer.value.Some? ==>
                var entry := Find(old(cache), p);
                entry.Some? && entry.value.token == answer.value.value
                && entry.value.expiresAt > answer.at
                && (answer.at == t3 || (answer.at == t1 && entry.value.refreshAt > t1))
                && Backed(log, p, answer.value.value, false, answer.at)
      ensures answer.Now? && answer.value.None? ==> t2 < Floor(retryAfter, p)
      ensures answer.Join? ==> p in old(inflight)
      ensures !answer.Start? ==> inflight == old(inflight) && retryAfter == old(retryAfter) && log == old(log)
      ensures answer.Start? ==>
                && p !in old(inflight) && inflight == old(inflight)[p := Fetching] && retryAfter == old(retryAfter)
                && log == old(log) + [Started(p, t2)]
      ensures Revoked(old(log), p) ==> !answer.Now? || answer.value.None?
    {
      assert Ok(p);
      var held := ReadFresh(p, t1);
      if Truthy(held) {
        return Now(held, t1);
      }
      if p in inflight { return Join; }
      if t2 < Floor(retryAfter, p) {
        var token := ReadUnexpired(p, t3);
        return Now(token, t3);
      }
      Begin(p, t2);
      return Start;
    }

    method Begin(p: string, now: int)
      requires Valid() && clock <= now && p !in inflight && (p in retryAfter ==> retryAfter[p] <= now)
      modifies this`inflight, this`log, this`clock
      ensures Valid() && clock == now
      ensures inflight == old(inflight)[p := Fetching] && log == old(log) + [Started(p, now)]
    {
      assert Ok(p);
      OrderlySnoc(log, Started(p, now));
      LogSnoc(log, Started(p, now), p);
      inflight, log, clock := inflight[p := Fetching], log + [Started(p, now)], now;
      forall q ensures Ok(q) {
        assert old(Ok(q));
        if q != p {
          Apart(old(log), Started(p, now), old(clock), now, q, Find(cache, q), Find(cache, q), Look(inflight, q),
              Look(retryAfter, q));
        }
      }
    }

    /** The mint route's answer: a usable token is stored at once, and the oldest entries make room. */
    method Respond(p: string, response: Response)
      requires Valid() && Look(inflight, p) == Some(Fetching)
      modifies this`cache, this`inflight, this`log
      ensures Valid()
      ensures View() == AfterResponse(old(View()), maxEntries, p, response)
    {
      match response {
        case Token(token, expiresAt) =>
          Store(p, Entry(token, expiresAt, expiresAt - REFRESH_MARGIN_MS));
          LogSnoc(old(log), Stored(p, token, expiresAt), p);
          assert Stored(p, token, expiresAt) in log;
          Result(p, Minted(Some(token), false));
        case _ =>
          Result(p, Minted(None, response.Inactive?));
      }
    }

    method Result(p: string, minted: Attempt)
      requires Valid() && Look(inflight, p) == Some(Fetching) && minted.Minted? && AttemptOk(log, p, minted)
      modifies this`inflight
      ensures Valid() && inflight == old(inflight)[p := minted]
    {
      inflight := inflight[p := minted];
      forall q ensures Ok(q) { assert old(Ok(q)); }
    }

    method Store(p: string, entry: Entry)
      requires Valid() && Look(inflight, p) == Some(Fetching)
      modifies this`cache, this`log
      ensures Valid()
      ensures cache == Trimmed(Put(old(cache), p, entry), maxEntries)
      ensures log == old(log) + [Stored(p, entry.token, entry.expiresAt)]
    {
      var stored := Put(cache, p, entry);
      cache := MakeRoom(stored, maxEntries);
      var m := Stored(p, entry.token, entry.expiresAt);
      log := log + [m];
      PutAddsOne(old(cache), p, entry);
      forall s | s in cache ensures Logged(log, s) {
        assert s in stored;
        if s in old(cache) { assert old(Logged(log, s)); } else { assert m in log; }
      }
      OrderlySnoc(old(log), m);
      forall q ensures Ok(q) {
        assert old(Ok(q));
        if q == p {
          LogSnoc(old(log), m, p);
        } else {
          PutFinds(old(cache), p, entry, q);
          if Find(stored, q).None? { TailFinds(stored, |stored| - |cache|, q); }
          Apart(old(log), m, clock, clock, q, Find(old(cache), q), Find(cache, q), Look(inflight, q),
              Look(retryAfter, q));
        }
      }
    }

    /** What the attempt's handler makes of its result; `t1` and `t2` are the clock's readings. */
    method Settle(p: string, t1: int, t2: int)
      requires Valid() && clock <= t1 <= t2 && p in inflight && inflight[p].Minted?
      modifies this
      ensures Valid() && clock <= t2
      ensures View() == AfterSettling(old(View()), p, t1, t2)
      ensures !Truthy(old(inflight)[p].token) && old(inflight)[p].inactive ==> Find(cache, p).None?
    {
      var minted := inflight[p];
      if Truthy(minted.token) {
        Succeed(p, minted.token, t1);
      } else {
        Fail(p, minted.inactive, t1);
        var value := None;
        if !minted.inactive { value := ReadUnexpired(p, t2); }
        Conclude(p, value, t2);
      }
    }

    method Succeed(p: string, token: Option<string>, now: int)
      requires Valid() && clock <= now && p in inflight && inflight[p].Minted? && inflight[p].token == token
      modifies this`inflight, this`retryAfter, this`log, this`clock
      ensures Valid() && clock == now
      ensures inflight == old(inflight)[p := Done(token, true, now)] && retryAfter == old(retryAfter) - {p}
      ensures log == old(log) + [Succeeded(p)]
    {
      inflight, retryAfter := inflight[p := Done(token, true, now)], retryAfter - {p};
      log, clock := log + [Succeeded(p)], now;
      OrderlySnoc(old(log), Succeeded(p));
      forall q ensures Ok(q) {
        assert old(Ok(q));
        LogSnoc(old(log), Succeeded(p), q);
        if q in inflight { AttemptSnoc(old(log), Succeeded(p), q, if q == p then old(inflight[p]) else inflight[q]); }
      }
    }

    /** Record the failure, and drop what is cached if access was switched off. */
    method Fail(p: string, inactive: bool, now: int)
      requires Valid() && clock <= now && p in inflight && inflight[p].Minted?
      modifies this
      ensures Valid() && clock == now && inflight == old(inflight)[p := Done(None, false, now)]
      ensures retryAfter == old(retryAfter)[p := now + Delay(inactive)] && log == old(log) + [Failed(p, now, inactive)]
      ensures cache == if inactive then Drop(old(cache), p) else old(cache)
      ensures inactive ==> Find(cache, p).None?
    {
      if inactive { Evict(p); }
      label evicted:
      assert Ok(p);
      inflight, retryAfter := inflight[p := Done(None, false, now)], retryAfter[p := now + Delay(inactive)];
      log, clock := log + [Failed(p, now, inactive)], now;
      OrderlySnoc(old(log), Failed(p, now, inactive));
      forall q ensures Ok(q) {
        assert old@evicted(Ok(q));
        LogSnoc(old(log), Failed(p, now, inactive), q);
        if q != p && q in inflight { AttemptSnoc(old(log), Failed(p, now, inactive), q, inflight[q]); }
      }
    }

    method Conclude(p: string, value: Option<string>, at: int)
      requires Valid() && p in inflight && inflight[p].Done? && AttemptOk(log, p, Done(value, false, at))
      modifies this`inflight
      ensures Valid() && inflight == old(inflight)[p := Done(value, false, at)]
    {
      inflight := inflight[p := Done(value, false, at)];
      forall q ensures Ok(q) { assert old(Ok(q)); }
    }

    /** The attempt's end; what it came to is what everyone waiting for it gets. */
    method Finish(p: string) returns (value: Option<string>)
      requires Valid() && p in inflight && inflight[p].Done?
      modifies this`inflight, this`log
      ensures Valid() && View() == AfterEnd(old(View()), p)
      ensures value == old(inflight)[p].value
      ensures value.Some? ==> !Revoked(old(log), p)
                              && Backed(old(log), p, value.value, old(inflight)[p].minted, old(inflight)[p].at)
    {
      assert Ok(p);
      value := inflight[p].value;
      inflight, log := inflight - {p}, log + [Ended(p)];
      OrderlySnoc(old(log), Ended(p));
      forall q ensures Ok(q) {
        assert old(Ok(q));
        LogSnoc(old(log), Ended(p), q);
        if q in inflight { AttemptSnoc(old(log), Ended(p), q, inflight[q]); }
      }
    }
  }

  // ---------------------------------------------------------------------------
  // Whole runs
  // ---------------------------------------------------------------------------

  /** A mint starts at least the floor after every earlier failure of its project. */
  lemma FloorsHold(log: seq<Moment>, i: nat, j: nat)
    requires Orderly(log) && i < j < |log|
    requires log[i].Failed? && log[j].Started? && log[i].project == log[j].project
    ensures log[j].at >= log[i].at + if log[i].inactive then 60_000 else 5_000
  {
    assert OrderlyAt(log, j);
    assert log[..j][i] == log[i];
  }

  lemma {:induction false} StillInFlight(log: seq<Moment>, i: nat, p: string)
    requires i < |log| && log[i].Started? && log[i].project == p
    requires forall k | i < k < |log| :: log[k] != Ended(p)
    ensures InFlight(log, p)
  {
    if i < |log| - 1 { StillInFlight(log[..|log| - 1], i, p); }
  }

  /** Between two mints of one project the first has ended. */
  lemma OneAtATime(log: seq<Moment>, i: nat, j: nat)
    requires Orderly(log) && i < j < |log|
    requires log[i].Started? && log[j].Started? && log[i].project == log[j].project
    ensures exists k :: i < k < j && log[k] == Ended(log[i].project)
  {
    assert OrderlyAt(log, j);
    if forall k | i < k < j :: log[k] != Ended(log[i].project) {
      StillInFlight(log[..j], i, log[i].project);
    }
  }

  datatype Action =
    | Ask(project: string, t1: int, t2: int, t3: int)
    | Answered(project: string, response: Response)
    | Handled(project: string, t1: int, t2: int)
    | Over(project: string)

  /** What a caller, or everyone who waited for an attempt, was given: after `logged` moments. */
  datatype Given = Given(project: string, value: Option<string>, minted: bool, at: int, logged: nat)

  /**
   A token that was given had been stored for the project since its access was last switched off,
   and was unexpired at `at` unless it was the attempt's own.
   */
  ghost predicate GivenOk(log: seq<Moment>, g: Given) {
    && g.logged <= |log|
    && (Revoked(log[..g.logged], g.project) ==> g.value.None?)
    && (g.value.Some? ==> Backed(log[..g.logged], g.project, g.value.value, g.minted, g.at))
  }

  lemma GivenStays(log: seq<Moment>, more: seq<Moment>, given: seq<Given>)
    requires log <= more && forall g <- given :: GivenOk(log, g)
    ensures forall g <- given :: GivenOk(more, g)
  {
    forall g | g in given ensures GivenOk(more, g) {
      assert GivenOk(log, g);
      assert more[..g.logged] == log[..g.logged];
    }
  }

  lemma GivenNow(log: seq<Moment>, g: Given)
    requires g.logged == |log|
    requires g.value.Some? ==> !Revoked(log, g.project) && Backed(log, g.project, g.value.value, g.minted, g.at)
    ensures GivenOk(log, g)
  {
    assert log[..|log|] == log;
  }

  /** A client, the latest reading of the clock, and all that was given so far. */
  datatype Course = Course(client: Client, now: int, given: seq<Given>)

  predicate Applies(c: Client, now: int, action: Action) {
    match action
    case Ask(_, t1, t2, t3) => now <= t1 <= t2 <= t3
    case Answered(p, _) => Look(c.inflight, p) == Some(Fetching)
    case Handled(p, t1, t2) => now <= t1 <= t2 && p in c.inflight && c.inflight[p].Minted?
    case Over(p) => p in c.inflight && c.inflight[p].Done?
  }

  /** Each action that applies leaves its moment in the log, and what it gives among the given. */
  function After(max: nat, o: Course, action: Action): Course {
    var c := o.client;
    if !Applies(c, o.now, action) then o else
    match action
    case Ask(p, t1, t2, t3) =>
      var answer, next := AnswerTo(c, p, t1, t2, t3), AfterAsk(c, p, t1, t2, t3);
      Course(next, t3,
             o.given + if answer.Now? then [Given(p, answer.value, false, answer.at, |next.log|)] else [])
    case Answered(p, response) => o.(client := AfterResponse(c, max, p, response))
    case Handled(p, t1, t2) => o.(client := AfterSettling(c, p, t1, t2), now := t2)
    case Over(p) =>
      var Done(value, minted, at) := c.inflight[p];
      o.(client := AfterEnd(c, p), given := o.given + [Given(p, value, minted, at, |c.log|)])
  }

  /** A whole run. */
  function CourseOf(max: nat, start: int, actions: seq<Action>): Course {
    if actions == [] then Course(Client([], map[], map[], []), start, [])
    else After(max, CourseOf(max, start, actions[..|actions| - 1]), actions[|actions| - 1])
  }

  /** One action, if the state and the clock allow it, and what it gives. */
  method Act(client: IdentityClient, ghost o: Course, now: int, action: Action) returns (next: int, ghost after: Course)
    requires client.Valid() && client.clock <= now && client.View() == o.client && now == o.now
    requires forall g <- o.given :: GivenOk(o.client.log, g)
    modifies client
    ensures client.Valid() && client.clock <= next
    ensures after == After(client.maxEntries, o, action) && client.View() == after.client && next == after.now
    ensures forall g <- after.given :: GivenOk(after.client.log, g)
  {
    next, after := now, o;
    match action {
      case Ask(p, t1, t2, t3) =>
        if now <= t1 <= t2 <= t3 {
          var answer := client.CallerToken(p, t1, t2, t3);
          next, after := t3, o.(client := client.View(), now := t3);
          GivenStays(o.client.log, client.log, o.given);
          if answer.Now? {
            var g := Given(p, answer.value, false, answer.at, |client.log|);
            after := after.(given := o.given + [g]);
            GivenNow(client.log, g);
          }
        }
      case Answered(p, response) =>
        if Look(client.inflight, p) == Some(Fetching) {
          client.Respond(p, response);
          after := o.(client := client.View());
          GivenStays(o.client.log, client.log, o.given);
        }
      case Handled(p, t1, t2) =>
        if now <= t1 <= t2 && p in client.inflight && client.inflight[p].Minted? {
          client.Settle(p, t1, t2);
          next, after := t2, o.(client := client.View(), now := t2);
          GivenStays(o.client.log, client.log, o.given);
        }
      case Over(p) =>
        if p in client.inflight && client.inflight[p].Done? {
          ghost var done := client.inflight[p];
          var value := client.Finish(p);
          ghost var g := Given(p, value, done.minted, done.at, |o.client.log|);
          after := o.(client := client.View(), given := o.given + [g]);
          GivenNow(o.client.log, g);
          GivenStays(o.client.log, client.log, after.given);
        }
    }
  }

  /** Any interleaving of callers and mints, against a clock that does not go back. */
  method Run(maxEntries: nat, start: int, actions: seq<Action>)
    returns (size: nat, ghost log: seq<Moment>, ghost given: seq<Given>)
    ensures var o := CourseOf(maxEntries, start, actions);
            log == o.client.log && given == o.given && size == |o.client.cache|
    ensures Orderly(log) && size <= maxEntries
    ensures forall g <- given :: GivenOk(log, g)
  {
    var client := new IdentityClient(maxEntries, start);
    var now := start;
    ghost var o := CourseOf(maxEntries, start, []);
    for i := 0 to |actions|
      invariant client.Valid() && fresh(client) && client.maxEntries == maxEntries && client.clock <= now
      invariant o == CourseOf(maxEntries, start, actions[..i]) && client.View() == o.client && now == o.now
      invariant forall g <- o.given :: GivenOk(o.client.log, g)
    {
      assert actions[..i + 1][..i] == actions[..i];
      now, o := Act(client, o, now, actions[i]);
    }
    assert actions[..|actions|] == actions;
    size, log, given := |client.cache|, client.log, o.given;
  }
}
