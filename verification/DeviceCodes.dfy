/** trimDeviceCodes of apps/api/src/auth.ts, taken as one atomic step on the deviceCode table. */
module DeviceCodes {

  const PENDING_LIMIT: nat := 100

  datatype Code = Code(expiresAt: int, pending: bool, claimed: bool)

  type Table = map<nat, Code>

  function Swept(rows: Table, now: int): Table {
    map id | id in rows && !(rows[id].expiresAt < now) :: rows[id]
  }

  function Live(rows: Table, now: int): set<nat> {
    set id | id in rows && rows[id].expiresAt > now
  }

  /** A signed-in session claimed it, or it is past pending: never evicted. */
  predicate Protected(c: Code) {
    c.claimed || !c.pending
  }

  function Elements(ids: seq<nat>): set<nat> {
    set id | id in ids
  }

  predicate Distinct(ids: seq<nat>) {
    forall i, j | 0 <= i < j < |ids| :: ids[i] != ids[j]
  }

  predicate AllIn(rows: Table, ids: seq<nat>) {
    forall i | 0 <= i < |ids| :: ids[i] in rows
  }

  predicate OldestFirst(rows: Table, ids: seq<nat>)
    requires AllIn(rows, ids)
  {
    forall i, j | 0 <= i < j < |ids| :: rows[ids[i]].expiresAt <= rows[ids[j]].expiresAt
  }

  /** Some order the database may list the pending rows in. */
  ghost predicate PendingByExpiry(rows: Table, order: seq<nat>) {
    && AllIn(rows, order) && Distinct(order) && OldestFirst(rows, order)
    && (forall id <- rows :: id in order <==> rows[id].pending)
  }

  function Take(ids: seq<nat>, n: int): seq<nat>
    requires 0 <= n
  {
    if n < |ids| then ids[..n] else ids
  }

  function Unclaimed(rows: Table, ids: seq<nat>): seq<nat>
    requires AllIn(rows, ids)
  {
    if ids == [] then []
    else
      var rest := Unclaimed(rows, ids[1..]);
      if rows[ids[0]].claimed then rest else [ids[0]] + rest
  }

  /** The query limit, the filter and the slice. */
  function Evictable(rows: Table, excess: nat, order: seq<nat>): seq<nat>
    requires AllIn(rows, order)
  {
    Take(Unclaimed(rows, Take(order, excess + PENDING_LIMIT)), excess)
  }

  /** The rows the trim leaves, given the order the query answered in. */
  ghost function Trimmed(rows: Table, now: int, order: seq<nat>): Table
    requires PendingByExpiry(Swept(rows, now), order)
  {
    var swept := Swept(rows, now);
    var excess := |Live(swept, now)| - PENDING_LIMIT;
    if excess <= 0 then swept
    else
      swept - Elements(Evictable(swept, excess, order))
  }

  /** The adapter calls, over the table they change. */
  class DeviceCodeTable {
    var rows: Table

    constructor (rows: Table)
      ensures this.rows == rows
    {
      this.rows := rows;
    }

    method DeleteExpired(now: int)
      modifies this
      ensures rows == Swept(old(rows), now)
    {
      rows := map id | id in rows && !(rows[id].expiresAt < now) :: rows[id];
    }

    method CountLive(now: int) returns (n: nat)
      ensures n == |Live(rows, now)|
    {
      n := |Live(rows, now)|;
    }

    method DeleteIds(ids: seq<nat>)
      modifies this
      ensures rows == old(rows) - Elements(ids)
    {
      rows := rows - Elements(ids);
    }

    method Trim(now: int, order: seq<nat>)
      requires PendingByExpiry(Swept(rows, now), order)
      modifies this
      ensures rows == Trimmed(old(rows), now, order)
    {
      DeleteExpired(now);
      var live := CountLive(now);
      var excess := live - PENDING_LIMIT;
      if excess <= 0 { return; }
      var evictable := Evictable(rows, excess, order);
      if |evictable| > 0 {
        DeleteIds(evictable);
      } else {
        assert rows - Elements(evictable) == rows;
      }
    }
  }

  // ---------------------------------------------------------------------------
  // What the trim guarantees
  // ---------------------------------------------------------------------------

  lemma {:induction false} DistinctCardinality(ids: seq<nat>)
    requires Distinct(ids)
    ensures |Elements(ids)| == |ids|
  {
    if ids != [] {
      var last := |ids| - 1;
      var init := ids[..last];
      DistinctCardinality(init);
      ElementsSnoc(init, ids[last]);
      assert ids == init + [ids[last]];
    }
  }

  lemma ElementsSnoc(ids: seq<nat>, id: nat)
    ensures Elements(ids + [id]) == Elements(ids) + {id}
  {
  }

  /** The unclaimed ids keep their order. */
  lemma {:induction false} UnclaimedKeepsOrder(rows: Table, ids: seq<nat>)
    requires AllIn(rows, ids) && Distinct(ids) && OldestFirst(rows, ids)
    ensures var u := Unclaimed(rows, ids);
            && AllIn(rows, u) && Distinct(u) && OldestFirst(rows, u)
            && forall id :: id in u <==> id in ids && !rows[id].claimed
  {
    if ids != [] {
      var tail := ids[1..];
      TailListed(rows, ids);
      UnclaimedKeepsOrder(rows, tail);
      Prepended(rows, ids[0], Unclaimed(rows, tail), tail);
    }
  }

  lemma TailListed(rows: Table, ids: seq<nat>)
    requires ids != [] && AllIn(rows, ids) && Distinct(ids) && OldestFirst(rows, ids)
    ensures var tail := ids[1..];
            && AllIn(rows, tail) && Distinct(tail) && OldestFirst(rows, tail)
            && (forall id <- tail :: id != ids[0] && rows[ids[0]].expiresAt <= rows[id].expiresAt)
            && forall id :: id in ids <==> id == ids[0] || id in tail
  {
    assert ids == [ids[0]] + ids[1..];
    assert forall i | 0 <= i < |ids[1..]| :: ids[1..][i] == ids[i + 1];
  }

  lemma Prepended(rows: Table, first: nat, rest: seq<nat>, tail: seq<nat>)
    requires first in rows && AllIn(rows, tail)
    requires AllIn(rows, rest) && Distinct(rest) && OldestFirst(rows, rest) && forall id <- rest :: id in tail
    requires forall id <- tail :: id != first && rows[first].expiresAt <= rows[id].expiresAt
    ensures AllIn(rows, [first] + rest) && Distinct([first] + rest) && OldestFirst(rows, [first] + rest)
  {
  }

  /** A prefix of a sorted listing holds nothing younger than what it leaves out. */
  lemma TakeOldest(rows: Table, ids: seq<nat>, n: nat)
    requires AllIn(rows, ids) && Distinct(ids) && OldestFirst(rows, ids)
    ensures var t := Take(ids, n);
            && AllIn(rows, t) && Distinct(t) && OldestFirst(rows, t)
            && (forall id <- t :: id in ids)
            && forall x, y :: x in t && y in ids && y !in t ==> rows[x].expiresAt <= rows[y].expiresAt
  {
    var t := Take(ids, n);
    forall x, y | x in t && y in ids && y !in t ensures rows[x].expiresAt <= rows[y].expiresAt {
      var i :| 0 <= i < |t| && t[i] == x;
      var j :| 0 <= j < |ids| && ids[j] == y;
      assert i < j;
    }
  }

  /** Evicted rows are unclaimed, pending, and no younger than any such row that stays. */
  lemma EvictsOldestUnprotected(rows: Table, excess: nat, order: seq<nat>)
    requires PendingByExpiry(rows, order)
    ensures var e := Evictable(rows, excess, order);
            && Distinct(e)
            && (forall id <- e :: id in rows && !Protected(rows[id]))
            && forall x, y :: x in e && y in rows && y !in e && !Protected(rows[y])
                ==> rows[x].expiresAt <= rows[y].expiresAt
  {
    var listed := Take(order, excess + PENDING_LIMIT);
    TakeOldest(rows, order, excess + PENDING_LIMIT);
    UnclaimedKeepsOrder(rows, listed);
    var u := Unclaimed(rows, listed);
    TakeOldest(rows, u, excess);
    var e := Take(u, excess);
    forall x, y | x in e && y in rows && y !in e && !Protected(rows[y]) ensures rows[x].expiresAt <= rows[y].expiresAt {
      assert y in order && x in listed;
      if y in listed { assert y in u; }
    }
  }

  /** Nothing is added or changed, and no live claimed or non-pending code is evicted. */
  lemma ProtectedSurvive(rows: Table, now: int, order: seq<nat>, id: nat)
    requires PendingByExpiry(Swept(rows, now), order)
    ensures id in Trimmed(rows, now, order) ==> id in rows && Trimmed(rows, now, order)[id] == rows[id]
    ensures id in Live(rows, now) && Protected(rows[id]) ==> id in Trimmed(rows, now, order)
  {
    var swept := Swept(rows, now);
    var excess := |Live(swept, now)| - PENDING_LIMIT;
    if excess > 0 { EvictsOldestUnprotected(swept, excess, order); }
  }

  /** Every evicted live code expires no later than any surviving unclaimed pending one. */
  lemma OldestGoFirst(rows: Table, now: int, order: seq<nat>, gone: nat, kept: nat)
    requires PendingByExpiry(Swept(rows, now), order)
    requires gone in Live(rows, now) && gone !in Trimmed(rows, now, order)
    requires kept in Trimmed(rows, now, order) && kept in rows && !Protected(rows[kept])
    ensures rows[gone].expiresAt <= rows[kept].expiresAt
  {
    var swept := Swept(rows, now);
    var excess := |Live(swept, now)| - PENDING_LIMIT;
    if excess > 0 { EvictsOldestUnprotected(swept, excess, order); }
  }

  // ---------------------------------------------------------------------------
  // How many live codes are left
  // ---------------------------------------------------------------------------

  lemma RemovedCount(all: set<nat>, gone: set<nat>, left: set<nat>)
    requires gone <= all && left == all - gone
    ensures |left| == |all| - |gone|
  {
    assert all == left + gone;
  }

  lemma Subset(a: set<nat>, b: set<nat>)
    requires a <= b
    ensures |a| <= |b|
  {
    RemovedCount(b, a, b - a);
  }

  /** The unclaimed pending codes that expire exactly at the sweep: neither expired nor live. */
  function Tied(rows: Table, now: int): set<nat> {
    set id | id in rows && rows[id].expiresAt == now && !Protected(rows[id])
  }

  function FreeLive(rows: Table, now: int): set<nat> {
    set id | id in Live(rows, now) && !Protected(rows[id])
  }

  function ProtectedLive(rows: Table, now: int): set<nat> {
    set id | id in Live(rows, now) && Protected(rows[id])
  }

  /** The ids that the query answers: as many as there are live codes. */
  function Listed(rows: Table, now: int, order: seq<nat>): set<nat> {
    Elements(Take(order, |Live(rows, now)|))
  }

  function Min(a: int, b: int): int {
    if a < b then a else b
  }

  /** How many live codes the trim evicts, if `tied` and `free` unclaimed ones are listed. */
  function Evicts(excess: nat, tied: nat, free: nat): nat {
    if excess <= tied then 0 else Min(excess - tied, free)
  }

  /** A sorted listing of codes that have not expired has the ones that are not live in front. */
  lemma {:induction false} DyingFirst(rows: Table, now: int, ids: seq<nat>) returns (t: nat)
    requires AllIn(rows, ids) && OldestFirst(rows, ids) && forall id <- ids :: rows[id].expiresAt >= now
    ensures t <= |ids|
    ensures (forall i | 0 <= i < t :: rows[ids[i]].expiresAt == now)
            && forall i | t <= i < |ids| :: rows[ids[i]].expiresAt > now
  {
    t := 0;
    if ids != [] && rows[ids[0]].expiresAt == now {
      t := DyingFirst(rows, now, ids[1..]);
      t := t + 1;
      assert forall i | 0 < i < |ids| :: ids[i] == ids[1..][i - 1];
    }
  }

  /** How many of the ids are in a set that holds those from `t` on. */
  lemma CountFrom(ids: seq<nat>, t: nat, live: set<nat>)
    requires Distinct(ids) && t <= |ids|
    requires forall i | 0 <= i < |ids| :: ids[i] in live <==> t <= i
    ensures |Elements(ids) - live| == t && |Elements(ids) * live| == |ids| - t
  {
    assert Elements(ids) - live == Elements(ids[..t]) by {
      assert forall i | 0 <= i < t :: ids[..t][i] == ids[i];
    }
    DistinctCardinality(ids[..t]);
    DistinctCardinality(ids);
    RemovedCount(Elements(ids), Elements(ids) - live, Elements(ids) * live);
  }

  /** Of a sorted listing's first `n`, the dying ones go before the live ones. */
  lemma LiveAmongFirst(rows: Table, now: int, ids: seq<nat>, n: nat)
    requires AllIn(rows, ids) && Distinct(ids) && OldestFirst(rows, ids)
             && forall id <- ids :: rows[id].expiresAt >= now
    ensures var live := Live(rows, now);
            |Elements(Take(ids, n)) * live| == Evicts(n, |Elements(ids) - live|, |Elements(ids) * live|)
  {
    var live := Live(rows, now);
    var t := DyingFirst(rows, now, ids);
    var first := Take(ids, n);
    CountFrom(ids, t, live);
    CountFrom(first, Min(t, |first|), live);
  }

  /** The unclaimed ids of a listing, live and dying. */
  lemma ListedParts(rows: Table, now: int, page: seq<nat>)
    requires var swept := Swept(rows, now);
             AllIn(swept, page) && Distinct(page) && OldestFirst(swept, page) && forall id <- page :: swept[id].pending
    ensures var u, live := Unclaimed(Swept(rows, now), page), Live(rows, now);
            && Elements(u) * live == Elements(page) * FreeLive(rows, now)
            && Elements(u) - live == Elements(page) * Tied(rows, now)
  {
    UnclaimedKeepsOrder(Swept(rows, now), page);
  }

  /** How many live codes the evictable ids of a page hold. */
  lemma PageEvicts(rows: Table, now: int, page: seq<nat>, excess: nat)
    requires var swept := Swept(rows, now);
             AllIn(swept, page) && Distinct(page) && OldestFirst(swept, page) && forall id <- page :: swept[id].pending
    ensures |Elements(Take(Unclaimed(Swept(rows, now), page), excess)) * Live(rows, now)|
         == Evicts(excess, |Elements(page) * Tied(rows, now)|, |Elements(page) * FreeLive(rows, now)|)
  {
    UnclaimedKeepsOrder(Swept(rows, now), page);
    LiveAmongFirst(Swept(rows, now), now, Unclaimed(Swept(rows, now), page), excess);
    ListedParts(rows, now, page);
    assert Live(Swept(rows, now), now) == Live(rows, now);
  }

  lemma LiveEvicted(rows: Table, now: int, order: seq<nat>, excess: nat)
    requires PendingByExpiry(Swept(rows, now), order) && excess + PENDING_LIMIT == |Live(rows, now)|
    ensures var listed := Listed(rows, now, order);
            |Elements(Evictable(Swept(rows, now), excess, order)) * Live(rows, now)|
            == Evicts(excess, |listed * Tied(rows, now)|, |listed * FreeLive(rows, now)|)
  {
    var page := Take(order, excess + PENDING_LIMIT);
    TakeOldest(Swept(rows, now), order, excess + PENDING_LIMIT);
    PageEvicts(rows, now, page, excess);
  }

  lemma LiveWithout(rows: Table, now: int, gone: set<nat>)
    ensures |Live(Swept(rows, now) - gone, now)| == |Live(rows, now)| - |gone * Live(rows, now)|
  {
    var live := Live(rows, now);
    assert Live(Swept(rows, now) - gone, now) == live - gone * live;
    RemovedCount(live, gone * live, live - gone * live);
  }

  /**
   Above the limit, with `tied` and `free` the unclaimed listed codes that expire at the sweep and
   that are live: the first take the evictions before the second do.
   */
  lemma LiveAfterTrim(rows: Table, now: int, order: seq<nat>)
    requires PendingByExpiry(Swept(rows, now), order)
    ensures var before, after := |Live(rows, now)|, |Live(Trimmed(rows, now, order), now)|;
            var listed := Listed(rows, now, order);
            var tied, free := |listed * Tied(rows, now)|, |listed * FreeLive(rows, now)|;
            after == if before <= PENDING_LIMIT then before else before - Evicts(before - PENDING_LIMIT, tied, free)
  {
    var live := Live(rows, now);
    assert Live(Swept(rows, now), now) == live;
    var excess := |live| - PENDING_LIMIT;
    if excess > 0 {
      LiveEvicted(rows, now, order, excess);
      LiveWithout(rows, now, Elements(Evictable(Swept(rows, now), excess, order)));
    }
  }

  /** Afterwards as many codes live as before, or the limit, or the protected ones if they are more. */
  ghost predicate LimitMet(rows: Table, now: int, order: seq<nat>)
    requires PendingByExpiry(Swept(rows, now), order)
  {
    var before, kept := |Live(rows, now)|, |ProtectedLive(rows, now)|;
    |Live(Trimmed(rows, now, order), now)|
    == if before <= PENDING_LIMIT then before else if kept < PENDING_LIMIT then PENDING_LIMIT else kept
  }

  /** How many live codes must go. */
  function Surplus(rows: Table, now: int): nat {
    var before := |Live(rows, now)|;
    if before <= PENDING_LIMIT then 0 else Min(before - PENDING_LIMIT, |FreeLive(rows, now)|)
  }

  lemma LiveParts(rows: Table, now: int)
    ensures |Live(rows, now)| == |FreeLive(rows, now)| + |ProtectedLive(rows, now)|
  {
    RemovedCount(Live(rows, now), FreeLive(rows, now), ProtectedLive(rows, now));
  }

  /**
   The limit is met exactly if no live code must go, or the tied codes that are listed leave as
   many evictions as codes must go and that many unclaimed live codes are listed.
   */
  lemma LimitMetIff(rows: Table, now: int, order: seq<nat>)
    requires PendingByExpiry(Swept(rows, now), order)
    ensures var before, surplus, listed := |Live(rows, now)|, Surplus(rows, now), Listed(rows, now, order);
            LimitMet(rows, now, order)
            <==> surplus == 0
                 || (|listed * Tied(rows, now)| + surplus <= before - PENDING_LIMIT
                     && surplus <= |listed * FreeLive(rows, now)|)
  {
    LiveAfterTrim(rows, now, order);
    LiveParts(rows, now);
    Subset(Listed(rows, now, order) * FreeLive(rows, now), FreeLive(rows, now));
  }

  // ---------------------------------------------------------------------------
  // Which tables meet the limit in every order the database may list them in
  // ---------------------------------------------------------------------------

  function ClaimedUpTo(rows: Table, now: int, expiry: int): set<nat> {
    set id | id in rows && rows[id].pending && rows[id].claimed && now <= rows[id].expiresAt <= expiry
  }

  function EarlierFree(rows: Table, now: int, expiry: int): set<nat> {
    set id | id in FreeLive(rows, now) && rows[id].expiresAt < expiry
  }

  /**
   A code among the oldest `surplus` unclaimed live ones that may be left off the list, behind
   codes that cannot be evicted or are dying.
   */
  ghost predicate CrowdedOut(rows: Table, now: int, surplus: nat, id: nat) {
    && id in FreeLive(rows, now)
    && |EarlierFree(rows, now, rows[id].expiresAt)| < surplus
    && |Live(rows, now)| < |Tied(rows, now)| + |ClaimedUpTo(rows, now, rows[id].expiresAt)| + surplus
  }

  /** Enough evictions are left for live codes, and enough live codes are sure to be listed. */
  ghost predicate Roomy(rows: Table, now: int) {
    var surplus := Surplus(rows, now);
    || surplus == 0
    || (|Tied(rows, now)| + surplus <= |Live(rows, now)| - PENDING_LIMIT
        && forall id :: !CrowdedOut(rows, now, surplus, id))
  }

  lemma UnionCount(a: set<nat>, b: set<nat>)
    ensures |a + b| <= |a| + |b|
    ensures a !! b ==> |a + b| == |a| + |b|
  {
    RemovedCount(a + b, a, b - a);
    Subset(b - a, b);
    if a !! b { assert b - a == b; }
  }

  lemma {:induction false} FirstOutside(order: seq<nat>, n: nat, ids: set<nat>) returns (p: nat)
    requires n <= |order| && exists i | n <= i < |order| :: order[i] in ids
    ensures n <= p < |order| && order[p] in ids && forall i | n <= i < p :: order[i] !in ids
    decreases |order| - n
  {
    if order[n] in ids { return n; }
    p := FirstOutside(order, n + 1, ids);
  }

  /** The earliest unclaimed live code off the list has only listed ones before it. */
  lemma BeforeUnlisted(rows: Table, now: int, order: seq<nat>, n: nat, p: nat)
    requires PendingByExpiry(Swept(rows, now), order) && n <= p < |order| && order[p] in FreeLive(rows, now)
    requires forall i | n <= i < p :: order[i] !in FreeLive(rows, now)
    ensures var listed, expiry := Elements(order[..n]), rows[order[p]].expiresAt;
            && EarlierFree(rows, now, expiry) <= listed * FreeLive(rows, now)
            && listed <= (Tied(rows, now) + ClaimedUpTo(rows, now, expiry)) + (listed * FreeLive(rows, now))
  {
    var expiry := rows[order[p]].expiresAt;
    forall id | id in EarlierFree(rows, now, expiry) ensures id in order[..n] {
      assert id in order;
      var i :| 0 <= i < |order| && order[i] == id;
      assert i < p;
      assert order[..n][i] == id;
    }
  }

  lemma ListsEnough(rows: Table, now: int, order: seq<nat>)
    requires PendingByExpiry(Swept(rows, now), order) && Roomy(rows, now) && Surplus(rows, now) > 0
    ensures Surplus(rows, now) <= |Listed(rows, now, order) * FreeLive(rows, now)|
  {
    var surplus, n, free := Surplus(rows, now), |Live(rows, now)|, FreeLive(rows, now);
    var listed := Listed(rows, now, order);
    if |listed * free| < surplus {
      assert free <= listed ==> listed * free == free;
      var g :| g in free && g !in listed;
      assert g in order;
      var i :| 0 <= i < |order| && order[i] == g;
      var page := Take(order, n);
      assert forall j | 0 <= j < |page| :: page[j] in listed && page[j] == order[j];
      var p := FirstOutside(order, n, free);
      BeforeUnlisted(rows, now, order, n, p);
      DistinctCardinality(order[..n]);
      var expiry := rows[order[p]].expiresAt;
      Subset(EarlierFree(rows, now, expiry), listed * free);
      Subset(listed, (Tied(rows, now) + ClaimedUpTo(rows, now, expiry)) + (listed * free));
      UnionCount(Tied(rows, now), ClaimedUpTo(rows, now, expiry));
      UnionCount(Tied(rows, now) + ClaimedUpTo(rows, now, expiry), listed * free);
      assert CrowdedOut(rows, now, surplus, order[p]);
      assert false;
    }
  }

  /** In the worst order claimed codes come before unclaimed ones that expire with them. */
  predicate Precedes(a: Code, b: Code) {
    a.expiresAt < b.expiresAt || (a.expiresAt == b.expiresAt && (a.claimed || !b.claimed))
  }

  ghost predicate Worst(rows: Table, order: seq<nat>)
    requires AllIn(rows, order)
  {
    forall i, j | 0 <= i < j < |order| :: Precedes(rows[order[i]], rows[order[j]])
  }

  lemma {:induction false} First(rows: Table, ids: set<nat>) returns (id: nat)
    requires ids != {} && ids <= rows.Keys
    ensures id in ids && forall x <- ids :: Precedes(rows[id], rows[x])
    decreases |ids|
  {
    id :| id in ids;
    if ids != {id} {
      var other := First(rows, ids - {id});
      if Precedes(rows[other], rows[id]) { id := other; }
    }
  }

  lemma {:induction false} WorstOrder(rows: Table, ids: set<nat>) returns (order: seq<nat>)
    requires ids <= rows.Keys
    ensures AllIn(rows, order) && Distinct(order) && Worst(rows, order) && forall id :: id in order <==> id in ids
    decreases |ids|
  {
    order := [];
    if ids != {} {
      var id := First(rows, ids);
      var rest := WorstOrder(rows, ids - {id});
      assert forall i | 0 <= i < |rest| :: rest[i] in rest;
      order := [id] + rest;
    }
  }

  lemma CountNext(order: seq<nat>, ids: set<nat>, n: nat)
    requires Distinct(order) && n < |order|
    ensures |Elements(order[..n + 1]) * ids| == |Elements(order[..n]) * ids| + if order[n] in ids then 1 else 0
  {
    var id := order[n];
    assert order[..n + 1] == order[..n] + [id];
    ElementsSnoc(order[..n], id);
    forall i | 0 <= i < n ensures order[..n][i] != id { }
    WithOne(Elements(order[..n]), id, ids);
  }

  lemma WithOne(some: set<nat>, id: nat, ids: set<nat>)
    requires id !in some
    ensures |(some + {id}) * ids| == |some * ids| + if id in ids then 1 else 0
  {
    if id in ids {
      assert (some + {id}) * ids == some * ids + {id};
    } else {
      assert (some + {id}) * ids == some * ids;
    }
  }

  /** How many of the first `n` ids are in a set. */
  function CountOf(order: seq<nat>, ids: set<nat>, n: nat): nat
    requires n <= |order|
  {
    if n == 0 then 0 else CountOf(order, ids, n - 1) + if order[n - 1] in ids then 1 else 0
  }

  lemma NoneOf(ids: set<nat>)
    ensures Elements([]) * ids == {}
  {
  }

  lemma {:induction false} CountIs(order: seq<nat>, ids: set<nat>, n: nat)
    requires Distinct(order) && n <= |order|
    ensures CountOf(order, ids, n) == |Elements(order[..n]) * ids|
  {
    if n == 0 {
      NoneOf(ids);
    } else {
      CountIs(order, ids, n - 1);
      CountNext(order, ids, n - 1);
    }
  }

  /** Where the `c`-th of some ids stands. */
  lemma {:induction false} PlaceOf(order: seq<nat>, ids: set<nat>, c: nat, n: nat) returns (q: nat)
    requires n <= |order| && 0 < c <= CountOf(order, ids, n)
    ensures q < n && order[q] in ids && CountOf(order, ids, q + 1) == c
    decreases n
  {
    if c <= CountOf(order, ids, n - 1) {
      q := PlaceOf(order, ids, c, n - 1);
    } else {
      q := n - 1;
    }
  }

  /** The least first ids of a listing that hold `c` ids of a set, and the last of them. */
  lemma UpToPlace(order: seq<nat>, ids: set<nat>, c: nat, n: nat) returns (q: nat)
    requires Distinct(order) && n <= |order| && 0 < c <= |Elements(order[..n]) * ids|
    ensures q < n && order[q] in ids
    ensures |Elements(order[..q + 1])| == q + 1 && |Elements(order[..q + 1]) * ids| == c
  {
    CountIs(order, ids, n);
    q := PlaceOf(order, ids, c, n);
    CountIs(order, ids, q + 1);
    DistinctCardinality(order[..q + 1]);
  }

  /** What stands no later than an unclaimed live code in the worst order. */
  lemma BeforeInWorst(rows: Table, now: int, order: seq<nat>, q: nat)
    requires PendingByExpiry(Swept(rows, now), order) && Worst(Swept(rows, now), order)
    requires q < |order| && order[q] in FreeLive(rows, now)
    ensures var upTo, expiry := Elements(order[..q + 1]), rows[order[q]].expiresAt;
            && Tied(rows, now) <= upTo && ClaimedUpTo(rows, now, expiry) <= upTo
            && forall id <- upTo :: rows[id].expiresAt <= expiry
  {
    var expiry := rows[order[q]].expiresAt;
    forall id | id in Tied(rows, now) || id in ClaimedUpTo(rows, now, expiry) ensures id in order[..q + 1] {
      assert id in order;
      var i :| 0 <= i < |order| && order[i] == id;
      assert i <= q;
      assert order[..q + 1][i] == id;
    }
  }

  lemma UpToCount(rows: Table, now: int, upTo: set<nat>, expiry: int)
    requires Tied(rows, now) <= upTo && ClaimedUpTo(rows, now, expiry) <= upTo
    ensures |Tied(rows, now)| + |ClaimedUpTo(rows, now, expiry)| + |upTo * FreeLive(rows, now)| <= |upTo|
  {
    UnionCount(Tied(rows, now), ClaimedUpTo(rows, now, expiry));
    UnionCount(Tied(rows, now) + ClaimedUpTo(rows, now, expiry), upTo * FreeLive(rows, now));
    Subset((Tied(rows, now) + ClaimedUpTo(rows, now, expiry)) + (upTo * FreeLive(rows, now)), upTo);
  }

  /** What stands up to the last of the first `surplus` unclaimed live codes in the worst order. */
  lemma UpToSurplus(rows: Table, now: int, order: seq<nat>, surplus: nat) returns (upTo: set<nat>, expiry: int)
    requires PendingByExpiry(Swept(rows, now), order) && Worst(Swept(rows, now), order)
    requires 0 < surplus <= |Listed(rows, now, order) * FreeLive(rows, now)|
    ensures Tied(rows, now) <= upTo && ClaimedUpTo(rows, now, expiry) <= upTo <= rows.Keys
    ensures |upTo| <= |Live(rows, now)| && |upTo * FreeLive(rows, now)| == surplus
    ensures forall id <- upTo :: rows[id].expiresAt <= expiry
  {
    var page := Take(order, |Live(rows, now)|);
    assert page == order[..|page|];
    var q := UpToPlace(order, FreeLive(rows, now), surplus, |page|);
    BeforeInWorst(rows, now, order, q);
    upTo, expiry := Elements(order[..q + 1]), rows[order[q]].expiresAt;
  }

  /** If the worst order lists as many unclaimed live codes as must go, none was crowded out. */
  lemma NoneCrowdedOut(rows: Table, now: int, order: seq<nat>, id: nat)
    requires PendingByExpiry(Swept(rows, now), order) && Worst(Swept(rows, now), order)
    requires 0 < Surplus(rows, now) <= |Listed(rows, now, order) * FreeLive(rows, now)|
    ensures !CrowdedOut(rows, now, Surplus(rows, now), id)
  {
    var upTo, expiry := UpToSurplus(rows, now, order, Surplus(rows, now));
    UpToCount(rows, now, upTo, expiry);
    if id in FreeLive(rows, now) { NotCrowded(rows, now, Surplus(rows, now), upTo, expiry, id); }
  }

  lemma NotCrowded(rows: Table, now: int, surplus: nat, upTo: set<nat>, expiry: int, id: nat)
    requires id in FreeLive(rows, now) && upTo <= rows.Keys && |upTo * FreeLive(rows, now)| == surplus
    requires forall x <- upTo :: rows[x].expiresAt <= expiry
    requires |Tied(rows, now)| + |ClaimedUpTo(rows, now, expiry)| + surplus <= |Live(rows, now)|
    ensures !CrowdedOut(rows, now, surplus, id)
  {
    if expiry < rows[id].expiresAt {
      Subset(upTo * FreeLive(rows, now), EarlierFree(rows, now, rows[id].expiresAt));
    } else {
      Subset(ClaimedUpTo(rows, now, rows[id].expiresAt), ClaimedUpTo(rows, now, expiry));
    }
  }

  /** Where a live code is listed, every tied one is. */
  lemma TiedListed(rows: Table, now: int, order: seq<nat>)
    requires PendingByExpiry(Swept(rows, now), order) && Listed(rows, now, order) * FreeLive(rows, now) != {}
    ensures Tied(rows, now) <= Listed(rows, now, order)
  {
    var page := Take(order, |Live(rows, now)|);
    var live :| live in page && live in FreeLive(rows, now);
    TakeOldest(Swept(rows, now), order, |Live(rows, now)|);
    assert forall id <- Tied(rows, now) :: id in order;
  }

  ghost predicate MetInEveryOrder(rows: Table, now: int) {
    forall order {:trigger PendingByExpiry(Swept(rows, now), order)} |
      PendingByExpiry(Swept(rows, now), order) :: LimitMet(rows, now, order)
  }

  /** The exact tables on which the limit is met whatever the order among equal expiries. */
  lemma MetInEveryOrderIff(rows: Table, now: int)
    ensures MetInEveryOrder(rows, now) <==> Roomy(rows, now)
  {
    if Roomy(rows, now) {
      forall order | PendingByExpiry(Swept(rows, now), order) ensures LimitMet(rows, now, order) {
        LimitMetIff(rows, now, order);
        if Surplus(rows, now) > 0 { ListsEnough(rows, now, order); }
        Subset(Listed(rows, now, order) * Tied(rows, now), Tied(rows, now));
      }
    }
    if MetInEveryOrder(rows, now) && Surplus(rows, now) > 0 {
      var swept := Swept(rows, now);
      var order := WorstOrder(swept, set id | id in swept && swept[id].pending);
      assert PendingByExpiry(swept, order);
      LimitMetIff(rows, now, order);
      TiedListed(rows, now, order);
      assert Listed(rows, now, order) * Tied(rows, now) == Tied(rows, now);
      forall id ensures !CrowdedOut(rows, now, Surplus(rows, now), id) { NoneCrowdedOut(rows, now, order, id); }
    }
  }

  // ---------------------------------------------------------------------------
  // A row that expires exactly at the sweep spoils the count
  // ---------------------------------------------------------------------------

  /** 0, 1, ..., n - 1. */
  function Ids(n: nat): (ids: seq<nat>)
    ensures |ids| == n && forall i | 0 <= i < n :: ids[i] == i
  {
    seq(n, i requires i >= 0 => i)
  }

  /** Row 0 expires at the sweep, the others later; all are unclaimed and pending. */
  function Crowd(n: nat, now: int): (rows: Table)
    ensures forall id: nat :: id in rows <==> id in Ids(n)
    ensures forall id <- rows :: rows[id] == Code(if id == 0 then now else now + 1, true, false)
  {
    map id | id in Ids(n) :: Code(if id == 0 then now else now + 1, true, false)
  }

  /** With one live code too many, the dying row takes the only eviction and the limit is missed. */
  lemma TieSpoilsCount(n: nat, now: int)
    requires n == PENDING_LIMIT + 2
    ensures PendingByExpiry(Swept(Crowd(n, now), now), Ids(n))
    ensures ProtectedLive(Crowd(n, now), now) == {}
    ensures |Live(Crowd(n, now), now)| == PENDING_LIMIT + 1
    ensures |Live(Trimmed(Crowd(n, now), now, Ids(n)), now)| == PENDING_LIMIT + 1
  {
    var rows := Crowd(n, now);
    var order := Ids(n);
    CrowdListed(n, now);
    var live := Live(rows, now);
    DistinctCardinality(order);
    assert order[0] == 0;
    RemovedCount(Elements(order), {0}, live);
    DyingRowEvicted(rows, now, order);
  }

  /** With one live code too many, evicting a row that is not live leaves every live one. */
  lemma DyingRowEvicted(rows: Table, now: int, order: seq<nat>)
    requires Swept(rows, now) == rows && PendingByExpiry(rows, order)
    requires order != [] && !rows[order[0]].claimed && order[0] !in Live(rows, now)
    requires |Live(rows, now)| == PENDING_LIMIT + 1
    ensures Live(Trimmed(rows, now, order), now) == Live(rows, now)
  {
    FirstEvictable(rows, order);
    assert Elements([order[0]]) == {order[0]};
  }

  lemma CrowdListed(n: nat, now: int)
    ensures Swept(Crowd(n, now), now) == Crowd(n, now)
    ensures PendingByExpiry(Crowd(n, now), Ids(n))
    ensures Live(Crowd(n, now), now) == Elements(Ids(n)) - {0}
    ensures ProtectedLive(Crowd(n, now), now) == {}
  {
  }

  lemma FirstEvictable(rows: Table, order: seq<nat>)
    requires AllIn(rows, order) && order != [] && !rows[order[0]].claimed
    ensures Evictable(rows, 1, order) == [order[0]]
  {
    var listed := Take(order, 1 + PENDING_LIMIT);
    assert listed[0] == order[0];
    assert Unclaimed(rows, listed)[0] == order[0];
  }
}
