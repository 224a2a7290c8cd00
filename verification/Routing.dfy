/** Weighted target selection (packages/core/src/routing.ts) and resolveTarget of the gateway. */
module Routing {
  import opened Prelude

  const BASIS_POINTS: nat := 10_000

  // ---------------------------------------------------------------------------
  // affinityBucket: a hash kept in signed 32-bit integers
  // ---------------------------------------------------------------------------

  const TWO_32: int := 0x1_0000_0000

  /** A UTF-16 code unit, as charCodeAt returns it. */
  type CodeUnit = c: int | 0 <= c < 0x1_0000 witness 0

  function ToUint32(x: int): (r: int)
    ensures 0 <= r < TWO_32
  {
    x % TWO_32
  }

  function ToInt32(x: int): (r: int)
    ensures -0x8000_0000 <= r < 0x8000_0000
    ensures ToUint32(r) == ToUint32(x)
  {
    var u := ToUint32(x);
    if u < 0x8000_0000 then u else u - TWO_32
  }

  function Pow2(n: nat): (r: int)
    ensures r >= 1
  {
    if n == 0 then 1 else 2 * Pow2(n - 1)
  }

  /** Exclusive or of the lowest `bits` bits. */
  function XorBits(bits: nat, a: int, b: int): (r: int)
    requires 0 <= a && 0 <= b
    ensures 0 <= r < Pow2(bits)
  {
    if bits == 0 then 0 else 2 * XorBits(bits - 1, a / 2, b / 2) + (a % 2 + b % 2) % 2
  }

  /** Bit `k` of a number. */
  function Bit(x: int, k: nat): int
    decreases k
  {
    if k == 0 then x % 2 else Bit(x / 2, k - 1)
  }

  /** Each bit of the result is one exactly if that bit of one of the two is. */
  lemma {:induction false} XorBit(bits: nat, a: int, b: int, k: nat)
    requires 0 <= a && 0 <= b && k < bits
    ensures Bit(XorBits(bits, a, b), k) == if Bit(a, k) == Bit(b, k) then 0 else 1
    decreases bits
  {
    var rest := XorBits(bits - 1, a / 2, b / 2);
    var low := (a % 2 + b % 2) % 2;
    assert XorBits(bits, a, b) == 2 * rest + low;
    if k > 0 {
      assert (2 * rest + low) / 2 == rest;
      XorBit(bits - 1, a / 2, b / 2, k - 1);
    }
  }

  lemma LowBit(x: int, p: int, y: int, q: int)
    requires 0 <= p <= 1 && 0 <= q <= 1 && 2 * x + p == 2 * y + q
    ensures x == y && p == q
  {
  }

  lemma Halves(a: int, c: int)
    ensures a == c <==> a / 2 == c / 2 && a % 2 == c % 2
  {
  }

  /** Numbers that fit and differ are told apart by the same other operand. */
  lemma {:induction false} XorTellsApart(bits: nat, a: int, b: int, c: int, d: int)
    requires 0 <= a < Pow2(bits) && 0 <= b < Pow2(bits) && 0 <= c < Pow2(bits) && 0 <= d < Pow2(bits)
    requires XorBits(bits, a, b) == XorBits(bits, c, d)
    ensures a == c <==> b == d
    decreases bits
  {
    if bits > 0 {
      var x, y := XorBits(bits - 1, a / 2, b / 2), XorBits(bits - 1, c / 2, d / 2);
      LowBit(x, (a % 2 + b % 2) % 2, y, (c % 2 + d % 2) % 2);
      XorTellsApart(bits - 1, a / 2, b / 2, c / 2, d / 2);
      Halves(a, c);
      Halves(b, d);
    }
  }

  function Xor32(a: int, b: int): (r: int)
    requires 0 <= a < TWO_32 && 0 <= b < TWO_32
    ensures 0 <= r < TWO_32
  {
    Pow32();
    XorBits(32, a, b)
  }

  /** JavaScript's `a ^ b` and `Math.imul(a, b)`: both yield a signed 32-bit integer. */
  function JsXor(a: int, b: int): int {
    ToInt32(Xor32(ToUint32(a), ToUint32(b)))
  }

  function JsImul(a: int, b: int): int {
    ToInt32(ToInt32(a) * ToInt32(b))
  }

  const FNV_OFFSET: int := 0x811c9dc5
  const FNV_PRIME: int := 0x01000193

  /** The 32-bit FNV-1a hash, as arithmetic modulo 2^32. */
  function Fnv1a(key: seq<CodeUnit>): (h: int)
    ensures 0 <= h < TWO_32
  {
    if key == [] then FNV_OFFSET
    else (Xor32(Fnv1a(key[..|key| - 1]), key[|key| - 1]) * FNV_PRIME) % TWO_32
  }

  /** The prime's inverse modulo 2^32. */
  const FNV_INVERSE: int := 0x359c449b

  lemma PrimeTellsApart(x: int, y: int)
    requires 0 <= x < TWO_32 && 0 <= y < TWO_32
    requires (x * FNV_PRIME) % TWO_32 == (y * FNV_PRIME) % TWO_32
    ensures x == y
  {
    Undone(x);
    Undone(y);
  }

  lemma Undone(x: int)
    requires 0 <= x < TWO_32
    ensures ((x * FNV_PRIME) % TWO_32 * FNV_INVERSE) % TWO_32 == x
  {
    var k := (x * FNV_PRIME) / TWO_32;
    assert x * FNV_PRIME == k * TWO_32 + (x * FNV_PRIME) % TWO_32;
    assert FNV_PRIME * FNV_INVERSE == 1 + 3_513_497 * TWO_32;
    assert (x * FNV_PRIME) % TWO_32 * FNV_INVERSE == x + (x * 3_513_497 - k * FNV_INVERSE) * TWO_32;
    ModShift(x, x * 3_513_497 - k * FNV_INVERSE);
  }

  lemma Pow32()
    ensures Pow2(32) == TWO_32
  {
    assert Pow2(8) == 256;
    assert Pow2(16) == 65_536;
    assert Pow2(24) == 16_777_216;
  }

  /** Every unit of the key matters: keys of one length that differ in one unit have different hashes. */
  lemma {:induction false} EveryUnitMatters(a: seq<CodeUnit>, b: seq<CodeUnit>, k: nat)
    requires |a| == |b| && k < |a| && a[k] != b[k] && forall i | 0 <= i < |a| && i != k :: a[i] == b[i]
    ensures Fnv1a(a) != Fnv1a(b)
    decreases |a|
  {
    var last := |a| - 1;
    var x, y := Fnv1a(a[..last]), Fnv1a(b[..last]);
    if k < last { EveryUnitMatters(a[..last], b[..last], k); } else { assert a[..last] == b[..last]; }
    Pow32();
    if Fnv1a(a) == Fnv1a(b) {
      PrimeTellsApart(Xor32(x, a[last]), Xor32(y, b[last]));
      XorTellsApart(32, x, a[last], y, b[last]);
    }
  }

  /** Multiplying by the prime does not see which representative modulo 2^32 it is given. */
  lemma ImulModular(x: int)
    ensures ToUint32(JsImul(x, FNV_PRIME)) == (ToUint32(x) * FNV_PRIME) % TWO_32
  {
    var i := ToInt32(x);
    assert ToInt32(FNV_PRIME) == FNV_PRIME;
    if i != ToUint32(x) {
      assert i == ToUint32(x) - TWO_32;
      ModShift(ToUint32(x) * FNV_PRIME, -FNV_PRIME);
    }
  }

  lemma ModShift(x: int, k: int)
    ensures (x + k * TWO_32) % TWO_32 == x % TWO_32
  {
    var q := (x + k * TWO_32) / TWO_32 - k - x / TWO_32;
    assert (x + k * TWO_32) % TWO_32 - x % TWO_32 == -(q * TWO_32);
  }

  lemma RoundOf(u: int)
    requires 0 <= u < TWO_32
    ensures ToUint32(JsImul(ToInt32(u), FNV_PRIME)) == (u * FNV_PRIME) % TWO_32
  {
    ImulModular(ToInt32(u));
  }

  /** One round of the loop, on whichever signed representative it holds. */
  lemma HashRound(hash: int, c: CodeUnit)
    ensures ToUint32(JsImul(JsXor(hash, c), FNV_PRIME)) == (Xor32(ToUint32(hash), c) * FNV_PRIME) % TWO_32
  {
    assert ToUint32(c) == c;
    RoundOf(Xor32(ToUint32(hash), c));
  }

  lemma Fnv1aStep(key: seq<CodeUnit>, index: nat)
    requires index < |key|
    ensures Fnv1a(key[..index + 1]) == (Xor32(Fnv1a(key[..index]), key[index]) * FNV_PRIME) % TWO_32
  {
    assert key[..index + 1][..index] == key[..index];
  }

  method AffinityBucket(key: seq<CodeUnit>) returns (bucket: int)
    ensures bucket == Fnv1a(key) % BASIS_POINTS
    ensures 0 <= bucket < BASIS_POINTS
  {
    var hash := FNV_OFFSET;
    for index := 0 to |key|
      invariant ToUint32(hash) == Fnv1a(key[..index])
    {
      HashRound(hash, key[index]);
      Fnv1aStep(key, index);
      hash := JsXor(hash, key[index]);
      hash := JsImul(hash, FNV_PRIME);
    }
    assert key[..|key|] == key;
    bucket := ToUint32(hash) % BASIS_POINTS;
  }

  // ---------------------------------------------------------------------------
  // Selection
  // ---------------------------------------------------------------------------

  datatype Status = Running | Draining | Stopped | Unavailable

  /** Weights are numbers the caller supplied, so a negative one must be refused. */
  datatype Target = Target(deploymentId: string, weight: int, variantName: Option<string>, status: Status)

  function WeightSum(targets: seq<Target>): int {
    if targets == [] then 0 else WeightSum(targets[..|targets| - 1]) + targets[|targets| - 1].weight
  }

  predicate ValidTargets(targets: seq<Target>) {
    && 1 <= |targets| <= 2
    && (forall i, j | 0 <= i < j < |targets| :: targets[i].deploymentId != targets[j].deploymentId)
    && (forall t <- targets :: 0 <= t.weight <= BASIS_POINTS)
    && WeightSum(targets) == BASIS_POINTS
  }

  /** The target whose slice of the bucket line holds `bucket`. */
  predicate Owns(targets: seq<Target>, i: nat, bucket: int)
    requires i < |targets|
  {
    WeightSum(targets[..i]) <= bucket < WeightSum(targets[..i + 1])
  }

  lemma WeightSumStep(targets: seq<Target>, i: nat)
    requires i < |targets|
    ensures WeightSum(targets[..i + 1]) == WeightSum(targets[..i]) + targets[i].weight
  {
    assert targets[..i + 1][..i] == targets[..i];
  }

  lemma WeightSumGrows(targets: seq<Target>, i: nat, j: nat)
    requires i <= j <= |targets| && forall t <- targets :: 0 <= t.weight
    ensures WeightSum(targets[..i]) <= WeightSum(targets[..j])
    decreases j
  {
    if i < j {
      WeightSumStep(targets, j - 1);
      WeightSumGrows(targets, i, j - 1);
    }
  }

  lemma OwnerUnique(targets: seq<Target>, bucket: int, i: nat, j: nat)
    requires ValidTargets(targets) && i < |targets| && j < |targets|
    requires Owns(targets, i, bucket) && Owns(targets, j, bucket)
    ensures i == j
  {
    if i < j { WeightSumGrows(targets, i + 1, j); }
    if j < i { WeightSumGrows(targets, j + 1, i); }
  }

  /** selectWeightedTarget: an invalid route throws, and on a valid one the loop never falls off its end. */
  method SelectWeighted(targets: seq<Target>, bucket: int) returns (r: Option<nat>)
    requires 0 <= bucket < BASIS_POINTS
    ensures r.Some? <==> ValidTargets(targets)
    ensures r.Some? ==> r.value < |targets| && Owns(targets, r.value, bucket)
  {
    if !ValidTargets(targets) { return None; }
    var upper, index := 0, 0;
    assert targets[..|targets|] == targets;
    while index < |targets|
      invariant index <= |targets| && upper == WeightSum(targets[..index]) && upper <= bucket
    {
      WeightSumStep(targets, index);
      upper := upper + targets[index].weight;
      if bucket < upper { return Some(index); }
      index := index + 1;
    }
    assert false;
  }

  /** The same selection as a function, for specifications. */
  function Chosen(targets: seq<Target>, bucket: int): (i: nat)
    requires ValidTargets(targets) && 0 <= bucket < BASIS_POINTS
    ensures i < |targets| && Owns(targets, i, bucket)
  {
    assert targets[..|targets|] == targets;
    WeightSumStep(targets, 0);
    if |targets| == 2 then
      WeightSumStep(targets, 1);
      if bucket < targets[0].weight then 0 else 1
    else 0
  }

  datatype RouteRef = RouteRef(id: seq<CodeUnit>, policyRevision: nat)

  function DecimalUnits(n: nat): seq<CodeUnit> {
    (if n < 10 then [] else DecimalUnits(n / 10)) + [48 + n % 10]
  }

  /** What is hashed: `id:revision:key` on a route, else the key alone; 58 is the colon. */
  function HashedKey(key: seq<CodeUnit>, route: Option<RouteRef>): seq<CodeUnit> {
    match route
    case None => key
    case Some(r) => r.id + [58] + DecimalUnits(r.policyRevision) + [58] + key
  }

  lemma {:induction false} DecimalTellsApart(a: nat, b: nat)
    requires DecimalUnits(a) == DecimalUnits(b)
    ensures a == b
    decreases a
  {
    var x, y := DecimalUnits(a), DecimalUnits(b);
    assert x[|x| - 1] == 48 + a % 10 && y[|y| - 1] == 48 + b % 10;
    if a >= 10 && b >= 10 {
      assert x[..|x| - 1] == DecimalUnits(a / 10) && y[..|y| - 1] == DecimalUnits(b / 10);
      DecimalTellsApart(a / 10, b / 10);
    } else {
      assert |x| == 1 <==> a < 10;
      assert |y| == 1 <==> b < 10;
    }
  }

  /** A new policy revision hashes something else for every key; so does another key, on the same route. */
  lemma RevisionsRehash(key: seq<CodeUnit>, other: seq<CodeUnit>, id: seq<CodeUnit>, a: nat, b: nat)
    ensures HashedKey(key, Some(RouteRef(id, a))) == HashedKey(key, Some(RouteRef(id, b))) ==> a == b
    ensures HashedKey(key, Some(RouteRef(id, a))) == HashedKey(other, Some(RouteRef(id, a))) ==> key == other
  {
    var x, y := HashedKey(key, Some(RouteRef(id, a))), HashedKey(key, Some(RouteRef(id, b)));
    var n, m := |id| + 1, |DecimalUnits(a)|;
    assert x[n..n + m] == DecimalUnits(a) && |x| == n + m + 1 + |key|;
    assert y[n..n + |DecimalUnits(b)|] == DecimalUnits(b) && |y| == n + |DecimalUnits(b)| + 1 + |key|;
    if x == y { DecimalTellsApart(a, b); }
    var z := HashedKey(other, Some(RouteRef(id, a)));
    assert x[n + m + 1..] == key && z[n + m + 1..] == other;
  }

  /** selectWeightedTarget as a whole: the target that the hash of route, revision and key picks. */
  method SelectWeightedTarget(targets: seq<Target>, key: seq<CodeUnit>, route: Option<RouteRef>)
    returns (r: Option<Target>)
    ensures r.Some? <==> ValidTargets(targets)
    ensures r.Some? ==> r.value == targets[Chosen(targets, Fnv1a(HashedKey(key, route)) % BASIS_POINTS)]
  {
    var bucket := AffinityBucket(HashedKey(key, route));
    var index := SelectWeighted(targets, bucket);
    if index.None? { return None; }
    SelectionIsChosen(targets, bucket, index.value);
    return Some(targets[index.value]);
  }

  lemma SelectionIsChosen(targets: seq<Target>, bucket: int, i: nat)
    requires ValidTargets(targets) && 0 <= bucket < BASIS_POINTS
    requires i < |targets| && Owns(targets, i, bucket)
    ensures i == Chosen(targets, bucket)
  {
    OwnerUnique(targets, bucket, i, Chosen(targets, bucket));
  }

  predicate Between(lo: int, b: int, hi: int) {
    lo <= b < hi
  }

  lemma IntervalSize(lo: int, hi: int)
    requires lo <= hi
    ensures |set b | lo <= b < hi && Between(lo, b, hi)| == hi - lo
    decreases hi - lo
  {
    var s := set b | lo <= b < hi && Between(lo, b, hi);
    if lo < hi {
      IntervalSize(lo, hi - 1);
      var top := hi - 1;
      assert s == (set b | lo <= b < top && Between(lo, b, top)) + {top};
    }
  }

  /** Each target serves exactly `weight` of the 10,000 buckets. */
  lemma BucketsPerTarget(targets: seq<Target>, i: nat)
    requires ValidTargets(targets) && i < |targets|
    ensures |set b | 0 <= b < BASIS_POINTS && Chosen(targets, b) == i| == targets[i].weight
  {
    var lo, hi := WeightSum(targets[..i]), WeightSum(targets[..i + 1]);
    WeightSumStep(targets, i);
    WeightSumGrows(targets, 0, i);
    WeightSumGrows(targets, i + 1, |targets|);
    assert targets[..|targets|] == targets;
    forall b | 0 <= b < BASIS_POINTS ensures Chosen(targets, b) == i <==> lo <= b < hi {
      if lo <= b < hi { SelectionIsChosen(targets, b, i); }
    }
    assert (set b | 0 <= b < BASIS_POINTS && Chosen(targets, b) == i) == set b | lo <= b < hi && Between(lo, b, hi);
    IntervalSize(lo, hi);
  }

  /** Raising the first target's weight moves buckets toward it and nowhere else. */
  lemma RaisingMovesToward(before: seq<Target>, after: seq<Target>, bucket: int)
    requires ValidTargets(before) && ValidTargets(after) && |before| == |after|
    requires before[0].weight <= after[0].weight
    requires 0 <= bucket < BASIS_POINTS
    ensures Chosen(after, bucket) == Chosen(before, bucket) || Chosen(after, bucket) == 0
    ensures Chosen(before, bucket) == 0 ==> Chosen(after, bucket) == 0
  {
  }

  // ---------------------------------------------------------------------------
  // resolveTarget
  // ---------------------------------------------------------------------------

  datatype Binding = Binding(deploymentId: string, variantName: Option<string>)

  datatype Resolved = Threw | Nothing | Found(target: Target)

  predicate Serving(status: Status, allowStopped: bool) {
    status.Running? || status.Draining? || (allowStopped && status.Stopped?)
  }

  predicate Eligible(t: Target, allowStopped: bool) {
    t.status.Running? || (allowStopped && t.status.Stopped?)
  }

  function EligibleTargets(targets: seq<Target>, allowStopped: bool): (r: seq<Target>)
    ensures forall t :: t in r <==> t in targets && Eligible(t, allowStopped)
    ensures |r| <= |targets|
    ensures |r| == |targets| ==> r == targets
  {
    if targets == [] then []
    else
      var rest := EligibleTargets(targets[1..], allowStopped);
      if Eligible(targets[0], allowStopped) then [targets[0]] + rest else rest
  }

  /** The first route target of that deployment that serves. */
  function Routed(targets: seq<Target>, deploymentId: string, allowStopped: bool): (r: Option<Target>)
    ensures r.Some? ==>
              r.value in targets && r.value.deploymentId == deploymentId && Serving(r.value.status, allowStopped)
    ensures r.None? ==> forall t <- targets :: t.deploymentId == deploymentId ==> !Serving(t.status, allowStopped)
  {
    if targets == [] then None
    else if targets[0].deploymentId == deploymentId && Serving(targets[0].status, allowStopped) then Some(targets[0])
    else Routed(targets[1..], deploymentId, allowStopped)
  }

  function Resolve(targets: seq<Target>, deployments: map<string, Status>, binding: Option<Binding>,
                   bucket: int, allowStopped: bool): Resolved
    requires 0 <= bucket < BASIS_POINTS
  {
    match binding
    case Some(b) =>
      var routed := Routed(targets, b.deploymentId, allowStopped);
      if routed.Some? then Found(routed.value)
      else if b.deploymentId in deployments && Serving(deployments[b.deploymentId], allowStopped) then
        Found(Target(b.deploymentId, 0, b.variantName, deployments[b.deploymentId]))
      else Nothing
    case None =>
      var eligible := EligibleTargets(targets, allowStopped);
      if eligible == [] then Nothing
      else if |eligible| < |targets| then Found(eligible[0])
      else if !ValidTargets(eligible) then Threw
      else Found(eligible[Chosen(eligible, bucket)])
  }

  /** A bound request goes to its binding's deployment or nowhere. */
  lemma BoundGoesThere(targets: seq<Target>, deployments: map<string, Status>, b: Binding, bucket: int,
        allowStopped: bool)
    requires 0 <= bucket < BASIS_POINTS
    ensures var r := Resolve(targets, deployments, Some(b), bucket, allowStopped);
            && !r.Threw?
            && (r.Found? ==> r.target.deploymentId == b.deploymentId && Serving(r.target.status, allowStopped))
            && (r.Nothing? <==>
                  && (forall t <- targets :: t.deploymentId == b.deploymentId ==> !Serving(t.status, allowStopped))
                  && !(b.deploymentId in deployments && Serving(deployments[b.deploymentId], allowStopped)))
  {
    var routed := Routed(targets, b.deploymentId, allowStopped);
    if routed.Some? { assert routed.value in targets; }
  }

  /**
   An unbound request finds nothing exactly when no target is eligible, whatever the targets; it
   throws exactly when all are eligible but no valid route.
   */
  lemma UnboundFindsEligible(targets: seq<Target>, deployments: map<string, Status>, bucket: int, allowStopped: bool)
    requires 0 <= bucket < BASIS_POINTS
    ensures var r := Resolve(targets, deployments, None, bucket, allowStopped);
            && (r.Threw? <==>
                  targets != [] && (forall t <- targets :: Eligible(t, allowStopped)) && !ValidTargets(targets))
            && (r.Nothing? <==> forall t <- targets :: !Eligible(t, allowStopped))
            && (r.Found? ==> r.target in targets && Eligible(r.target, allowStopped))
  {
    var eligible := EligibleTargets(targets, allowStopped);
    if eligible != [] { assert eligible[0] in eligible; }
    if forall t <- targets :: Eligible(t, allowStopped) {
      AllEligible(targets, allowStopped);
    } else {
      assert |eligible| < |targets|;
    }
  }

  /**
   While every target is eligible the weighted choice decides; while one of two is down the
   other takes every bucket, whatever its weight.
   */
  lemma DegradedFailsOver(targets: seq<Target>, deployments: map<string, Status>, bucket: int, allowStopped: bool)
    requires ValidTargets(targets) && 0 <= bucket < BASIS_POINTS
    ensures var r := Resolve(targets, deployments, None, bucket, allowStopped);
            && ((forall t <- targets :: Eligible(t, allowStopped)) ==> r == Found(targets[Chosen(targets, bucket)]))
            && forall t <- targets :: Eligible(t, allowStopped) && (exists u <- targets :: !Eligible(u, allowStopped))
                 ==> r == Found(t)
  {
    var eligible := EligibleTargets(targets, allowStopped);
    if forall t <- targets :: Eligible(t, allowStopped) {
      AllEligible(targets, allowStopped);
    } else {
      assert |eligible| < |targets|;
      forall t <- targets | Eligible(t, allowStopped) ensures eligible == [t] { assert t in eligible; }
    }
  }

  lemma AllEligible(targets: seq<Target>, allowStopped: bool)
    requires forall t <- targets :: Eligible(t, allowStopped)
    ensures EligibleTargets(targets, allowStopped) == targets
  {
  }
}
