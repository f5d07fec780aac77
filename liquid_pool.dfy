/**
 * The liquid pool: a blob whose size follows a "displayed" count of
 * available credits. That count moves one credit at a time as pool
 * animations land, and is re-synchronised with the ledger only outside a
 * lock window opened by each launch. The component also counts the units
 * in flight in each direction, decides whether the pool looks wet, drying
 * or dry, and spawns short-lived burst drops on every animation start.
 */
module LiquidPoolView {
  import opened Wrappers
  import opened Arith
  import opened Bus

  /** Base lock of a launch, extra lock per further unit, and the slack of the resync timer after it. */
  const LockBaseMs := 750
  const LockPerUnitMs := 60
  const ResyncSlackMs := 20
  /** Modulus of the seed base taken from a pool index. */
  const SeedModulus := 997
  /** How long a burst drop lives before its cleanup removes it. */
  const DropLifetimeMs := 700

  // ---------------------------------------------------------------------------
  // clampInt
  // ---------------------------------------------------------------------------

  /** `Math.max(min, Math.min(max, Math.trunc(n)))`. */
  function ClampInt(n: real, lo: int, hi: int): (r: int)
    ensures lo <= r <= Max(lo, hi)
    ensures lo <= Trunc(n) <= hi ==> r == Trunc(n)
    ensures Trunc(n) < lo ==> r == lo
    ensures lo <= hi < Trunc(n) ==> r == hi
    ensures hi < lo ==> r == lo
  {
    Max(lo, Min(hi, Trunc(n)))
  }

  /** Clamping a clamped value again changes nothing. */
  lemma ClampIdempotent(n: real, lo: int, hi: int)
    ensures ClampInt(ClampInt(n, lo, hi) as real, lo, hi) == ClampInt(n, lo, hi)
  {
    TruncOfInt(ClampInt(n, lo, hi));
  }

  // ---------------------------------------------------------------------------
  // safeKeySuffix and the names derived from the React id
  // ---------------------------------------------------------------------------

  /** The characters `[a-zA-Z0-9_-]` that survive sanitising. */
  predicate KeyChar(c: char) {
    ('a' <= c <= 'z') || ('A' <= c <= 'Z') || ('0' <= c <= '9') || c == '_' || c == '-'
  }

  predicate AllKeyChars(s: string) {
    forall i :: 0 <= i < |s| ==> KeyChar(s[i])
  }

  /** `id.replace(/[^a-zA-Z0-9_-]/g, '')`: every other character is deleted. */
  function SafeKeySuffix(s: string): (r: string)
    ensures AllKeyChars(r)
    ensures |r| <= |s|
  {
    if s == [] then []
    else if KeyChar(s[0]) then [s[0]] + SafeKeySuffix(s[1..])
    else SafeKeySuffix(s[1..])
  }

  /** Sanitising a concatenation sanitises each part in place, so the kept characters stay in their order. */
  lemma {:induction false} SafeKeySuffixConcat(a: string, b: string)
    ensures SafeKeySuffix(a + b) == SafeKeySuffix(a) + SafeKeySuffix(b)
    decreases |a|
  {
    if a == [] {
      assert a + b == b;
    } else {
      assert (a + b)[0] == a[0];
      assert (a + b)[1..] == a[1..] + b;
      SafeKeySuffixConcat(a[1..], b);
    }
  }

  /** Each character occurs in the result exactly as often as in the input when it is allowed, and never otherwise. */
  lemma {:induction false} SafeKeySuffixCounts(s: string, c: char)
    ensures multiset(SafeKeySuffix(s))[c] == if KeyChar(c) then multiset(s)[c] else 0
    decreases |s|
  {
    if s != [] {
      SafeKeySuffixCounts(s[1..], c);
      assert s == [s[0]] + s[1..];
      assert multiset(s) == multiset{s[0]} + multiset(s[1..]);
      if KeyChar(s[0]) {
        assert multiset(SafeKeySuffix(s)) == multiset{s[0]} + multiset(SafeKeySuffix(s[1..]));
      }
    }
  }

  /** A string made only of allowed characters is left as it is. */
  lemma {:induction false} SafeKeySuffixKeeps(s: string)
    requires AllKeyChars(s)
    ensures SafeKeySuffix(s) == s
    decreases |s|
  {
    if s != [] {
      SafeKeySuffixKeeps(s[1..]);
    }
  }

  /** Sanitising twice is sanitising once. */
  lemma SafeKeySuffixIdempotent(s: string)
    ensures SafeKeySuffix(SafeKeySuffix(s)) == SafeKeySuffix(s)
  {
    SafeKeySuffixKeeps(SafeKeySuffix(s));
  }

  /** The scope class of the injected styles. */
  function Scope(reactId: string): (r: string)
    ensures |r| >= 14 && r[..14] == "qv-liquidpool-" && AllKeyChars(r)
  {
    var r := "qv-liquidpool-" + SafeKeySuffix(reactId);
    assert forall i :: 14 <= i < |r| ==> r[i] == SafeKeySuffix(reactId)[i - 14];
    r
  }

  /** The suffix of the keyframe names: the sanitised id, or `qv` when nothing of it survives. */
  function KeySuffix(reactId: string): (r: string)
    ensures r != [] && AllKeyChars(r)
  {
    var s := SafeKeySuffix(reactId);
    if s == [] then "qv" else s
  }

  /** A key suffix is its own sanitised form and its own key suffix. */
  lemma KeySuffixStable(reactId: string)
    ensures SafeKeySuffix(KeySuffix(reactId)) == KeySuffix(reactId)
    ensures KeySuffix(KeySuffix(reactId)) == KeySuffix(reactId)
  {
    SafeKeySuffixKeeps(KeySuffix(reactId));
  }

  // ---------------------------------------------------------------------------
  // The displayed count
  // ---------------------------------------------------------------------------

  /** The range every displayed count lies in. */
  predicate InGauge(displayed: int, credits: int) {
    0 <= displayed <= Max(0, credits)
  }

  /** A pool animation landing: a returning credit adds one, a departing one takes one away, both clamped; a non-end detail changes nothing. */
  function PoolEndDisplayed(displayed: int, d: PoolEndDetail, credits: int): (r: int)
    ensures d.phase == End || InGauge(displayed, credits) ==> InGauge(r, credits)
    ensures d.phase == End && d.direction == ToPool && 0 <= displayed < credits ==> r == displayed + 1
    ensures d.phase == End && d.direction == ToDiamond && 0 < displayed <= credits ==> r == displayed - 1
    ensures d.phase == End && d.direction == ToDiamond && displayed <= 0 ==> r == 0
    ensures d.phase != End ==> r == displayed
  {
    if d.phase != End then displayed
    else ClampInt((displayed + (if d.direction == ToPool then 1 else -1)) as real, 0, credits)
  }

  /** Inside the gauge, a landing return followed by a landing departure leaves the count where it was. */
  lemma PoolEndRoundTrip(displayed: int, credits: int, i: Option<int>, j: Option<int>)
    requires 0 <= displayed < credits
    ensures PoolEndDisplayed(PoolEndDisplayed(displayed, PoolEndDetail(End, ToPool, i), credits), PoolEndDetail(End, ToDiamond, j), credits) == displayed
    ensures PoolEndDisplayed(PoolEndDisplayed(displayed + 1, PoolEndDetail(End, ToDiamond, j), credits), PoolEndDetail(End, ToPool, i), credits) == displayed + 1
  {
  }

  /** A resynchronisation: outside the lock window the count jumps to the clamped `value`, inside it nothing happens. */
  function Resynced(displayed: int, lockUntil: int, now: int, value: int, credits: int): (r: int)
    ensures InGauge(displayed, credits) ==> InGauge(r, credits)
    ensures now >= lockUntil ==> InGauge(r, credits)
    ensures now >= lockUntil && 0 <= value <= credits ==> r == value
    ensures now < lockUntil ==> r == displayed
  {
    if now >= lockUntil then ClampInt(value as real, 0, credits) else displayed
  }

  /** The number of units a launch locks for: its `count`, truncated and at least one. */
  function LaunchUnits(count: int): (u: int)
    ensures u >= 1
    ensures count >= 1 ==> u == count
    ensures count < 1 ==> u == 1
  {
    TruncOfInt(count);
    Max(1, Trunc(count as real))
  }

  /** The lock of a launch: the base lock plus one stagger step per further unit. */
  function LockMs(count: int): (ms: int)
    ensures ms >= LockBaseMs
    ensures count >= 1 ==> ms == LockBaseMs + (count - 1) * LockPerUnitMs
    ensures count <= 1 ==> ms == LockBaseMs
  {
    LockBaseMs + (LaunchUnits(count) - 1) * LockPerUnitMs
  }

  /** The lock end after a launch at `now`: never earlier than before, never earlier than the launch's own window. */
  function LockUntilAfter(lockUntil: int, now: int, count: int): (r: int)
    ensures r >= lockUntil && r >= now + LockMs(count)
    ensures r == lockUntil || r == now + LockMs(count)
  {
    Max(lockUntil, now + LockMs(count))
  }

  /** The lock end after a sequence of launches, each a pair of its time and its count. */
  function LockAfterAll(lockUntil: int, launches: seq<(int, int)>): int
    decreases |launches|
  {
    if launches == [] then lockUntil
    else LockAfterAll(LockUntilAfter(lockUntil, launches[0].0, launches[0].1), launches[1..])
  }

  /** Later launches can only push the lock end further out, and it covers every launch's own window. */
  lemma {:induction false} LockOnlyGrows(lockUntil: int, launches: seq<(int, int)>)
    ensures LockAfterAll(lockUntil, launches) >= lockUntil
    ensures forall k :: 0 <= k < |launches| ==> LockAfterAll(lockUntil, launches) >= launches[k].0 + LockMs(launches[k].1)
    decreases |launches|
  {
    if launches != [] {
      var next := LockUntilAfter(lockUntil, launches[0].0, launches[0].1);
      LockOnlyGrows(next, launches[1..]);
      forall k | 0 <= k < |launches|
        ensures LockAfterAll(lockUntil, launches) >= launches[k].0 + LockMs(launches[k].1)
      {
        if k > 0 {
          assert launches[k] == launches[1..][k - 1];
        }
      }
    }
  }

  /**
   * A launch's resynchronisation timer, waiting to fire at `at` with the
   * available-credit value its closure captured when it was scheduled.
   */
  datatype PendingResync = PendingResync(at: int, captured: int)

  // ---------------------------------------------------------------------------
  // In-flight counters
  // ---------------------------------------------------------------------------

  /** The units in flight toward a diamond and toward the pool. */
  datatype InFlight = InFlight(toDiamond: int, toPool: int)

  predicate NonNegative(f: InFlight) {
    f.toDiamond >= 0 && f.toPool >= 0
  }

  /** An animation start counts one more unit in its direction; other phases change nothing. */
  function AnimStarted(f: InFlight, d: AnimDetail): (r: InFlight)
    ensures NonNegative(f) ==> NonNegative(r)
    ensures d.phase == Start && d.direction == ToDiamond ==> r == f.(toDiamond := f.toDiamond + 1)
    ensures d.phase == Start && d.direction == ToPool ==> r == f.(toPool := f.toPool + 1)
    ensures d.phase != Start ==> r == f
  {
    if d.phase != Start then f
    else if d.direction == ToDiamond then f.(toDiamond := f.toDiamond + 1)
    else f.(toPool := f.toPool + 1)
  }

  /** A pool end retires one returning unit, never below zero; a departing unit's pool end leaves the counters alone. */
  function PoolLanded(f: InFlight, d: PoolEndDetail): (r: InFlight)
    ensures NonNegative(f) ==> NonNegative(r)
    ensures r.toDiamond == f.toDiamond
    ensures d.phase == End && d.direction == ToPool && f.toPool > 0 ==> r.toPool == f.toPool - 1
    ensures d.phase == End && d.direction == ToPool && f.toPool <= 0 ==> r.toPool == 0
    ensures d.phase != End || d.direction == ToDiamond ==> r == f
  {
    if d.phase == End && d.direction == ToPool then f.(toPool := Max(0, f.toPool - 1)) else f
  }

  /** A diamond end retires one departing unit, never below zero; a returning unit's diamond end leaves the counters alone. */
  function DiamondLanded(f: InFlight, d: DiamondEndDetail): (r: InFlight)
    ensures NonNegative(f) ==> NonNegative(r)
    ensures r.toPool == f.toPool
    ensures d.phase == End && d.direction == ToDiamond && f.toDiamond > 0 ==> r.toDiamond == f.toDiamond - 1
    ensures d.phase == End && d.direction == ToDiamond && f.toDiamond <= 0 ==> r.toDiamond == 0
    ensures d.phase != End || d.direction == ToPool ==> r == f
  {
    if d.phase == End && d.direction == ToDiamond then f.(toDiamond := Max(0, f.toDiamond - 1)) else f
  }

  /** Each unit's start and its final landing cancel out: a departure lands on its diamond, a return on the pool. */
  lemma InFlightRoundTrip(f: InFlight, d: AnimDetail)
    requires NonNegative(f) && d.phase == Start
    ensures d.direction == ToDiamond ==>
      DiamondLanded(AnimStarted(f, d), DiamondEndDetail(End, ToDiamond, d.diamondId, d.diamondLevel, d.ai)) == f
    ensures d.direction == ToPool ==>
      PoolLanded(AnimStarted(f, d), PoolEndDetail(End, ToPool, d.poolIndex)) == f
  {
  }

  // ---------------------------------------------------------------------------
  // Dry state
  // ---------------------------------------------------------------------------

  datatype DryState = Wet | Drying | Dry

  /** The look chosen when the available credits or the dry-out delay change. */
  function DryChoice(available: int, dryOutMs: int): (s: DryState)
    ensures s == Wet <==> available > 0
    ensures s == Dry <==> available <= 0 && Max(0, dryOutMs) == 0
    ensures s == Drying <==> available <= 0 && Max(0, dryOutMs) > 0
  {
    if available > 0 then Wet
    else if Max(0, dryOutMs) == 0 then Dry
    else Drying
  }

  // ---------------------------------------------------------------------------
  // Burst drops
  // ---------------------------------------------------------------------------

  /**
   * `a % b` with the sign of the dividend, as JavaScript computes it
   * (Dafny's own `%` never returns a negative value).
   */
  function JsRem(a: int, b: int): (r: int)
    requires b != 0
    ensures a >= 0 ==> 0 <= r < Abs(b)
    ensures a < 0 ==> 0 < r + Abs(b) && r <= 0
  {
    if a >= 0 then a % Abs(b) else -((-a) % Abs(b))
  }

  /** What `JsRem` leaves out is a whole multiple of the divisor: `a == q*b + r` with the quotient truncated toward zero. */
  lemma JsRemQuotient(a: int, b: int) returns (q: int)
    requires b != 0
    ensures a == q * b + JsRem(a, b)
  {
    var m := Abs(b);
    var k := (if a >= 0 then a else -a) / m;
    assert (if a >= 0 then a else -a) == k * m + (if a >= 0 then a else -a) % m;
    var km := if a >= 0 then k else -k;
    assert a == km * m + JsRem(a, b);
    q := if b > 0 then km else -km;
    assert km * m == q * b;
  }

  /** The seed base of a burst: the pool index reduced modulo 997, or the random fallback when the detail has no index. */
  function SeedBase(poolIndex: Option<int>, fallback: int): int {
    match poolIndex
    case Some(p) => JsRem(JsRem(p, SeedModulus) + SeedModulus, SeedModulus)
    case None => fallback
  }

  /** For every pool index, negative ones included, the seed base lies in `[0, 996]` and equals the mathematical residue. */
  lemma SeedBaseRange(p: int, fallback: int)
    ensures 0 <= SeedBase(Some(p), fallback) < SeedModulus
    ensures SeedBase(Some(p), fallback) == p % SeedModulus
  {
    var r1 := JsRem(p, SeedModulus);
    var q1 := JsRemQuotient(p, SeedModulus);
    var q2 := JsRemQuotient(r1 + SeedModulus, SeedModulus);
    var r2 := JsRem(r1 + SeedModulus, SeedModulus);
    assert p == (q1 + q2 - 1) * SeedModulus + r2;
  }

  /** `x % 1` in JavaScript: the fractional part, with the sign of `x`. */
  function JsFrac(x: real): (f: real)
    ensures x >= 0.0 ==> 0.0 <= f < 1.0
    ensures x < 0.0 ==> -1.0 < f <= 0.0
  {
    x - Trunc(x) as real
  }

  /** The seed of drop `i` of a burst of `n`: the base as a fraction of 997 plus `i/(n+1)`, modulo one. */
  function Seed(base: int, i: nat, n: nat): real {
    JsFrac(base as real / SeedModulus as real + i as real / (n + 1) as real)
  }

  /** With a seed base in range, every drop seed lies in `[0, 1)`. */
  lemma SeedInUnit(base: int, i: nat, n: nat)
    requires 0 <= base
    ensures 0.0 <= Seed(base, i, n) < 1.0
  {
    assert base as real / SeedModulus as real >= 0.0;
    assert i as real / (n + 1) as real >= 0.0;
  }

  /** A burst drop; its flight vector is floating-point geometry and is not part of the model. */
  datatype Drop = Drop(id: nat, direction: Direction, seed: real)

  /** The number of drops per burst: `burstCount` rounded down, at least one. */
  function BurstSize(burstCount: real): (n: nat)
    ensures n >= 1
    ensures burstCount >= 1.0 ==> n == burstCount.Floor
    ensures burstCount < 1.0 ==> n == 1
  {
    if burstCount.Floor >= 1 then burstCount.Floor else 1
  }

  /** Drop `i` of a burst of `n` numbered from `first`. */
  function BurstDrop(first: nat, direction: Direction, base: int, n: nat, i: nat): Drop {
    Drop(first + i, direction, Seed(base, i, n))
  }

  /** The drops of a burst of `n`, numbered `first, first+1, ...`. */
  function Burst(first: nat, direction: Direction, base: int, n: nat): (r: seq<Drop>)
    ensures |r| == n
    ensures forall i :: 0 <= i < n ==> r[i].id == first + i && r[i].direction == direction
  {
    seq(n, i requires 0 <= i < n => BurstDrop(first, direction, base, n, i))
  }

  /** The ids of a list of drops. */
  function Ids(drops: seq<Drop>): (r: set<nat>)
    ensures forall i :: 0 <= i < |drops| ==> drops[i].id in r
    ensures forall x :: x in r ==> exists i :: 0 <= i < |drops| && drops[i].id == x
  {
    set i | 0 <= i < |drops| :: drops[i].id
  }

  /** Ids strictly increase along the list, so no id repeats. */
  predicate IdsIncrease(drops: seq<Drop>) {
    forall i, j :: 0 <= i < j < |drops| ==> drops[i].id < drops[j].id
  }

  /** Every id is below `bound`. */
  predicate IdsBelow(drops: seq<Drop>, bound: nat) {
    forall i :: 0 <= i < |drops| ==> drops[i].id < bound
  }

  /** The cleanup of a burst: the drops whose id is in `ids` are removed, the others kept in order. */
  function RemoveDrops(drops: seq<Drop>, ids: set<nat>): (r: seq<Drop>)
    ensures |r| <= |drops|
    ensures forall i :: 0 <= i < |r| ==> r[i].id !in ids && r[i] in drops
  {
    if drops == [] then []
    else if drops[0].id in ids then RemoveDrops(drops[1..], ids)
    else [drops[0]] + RemoveDrops(drops[1..], ids)
  }

  /** A kept drop is exactly a drop of the list whose id is not removed. */
  lemma {:induction false} RemoveDropsMembers(drops: seq<Drop>, ids: set<nat>, x: Drop)
    ensures x in RemoveDrops(drops, ids) <==> x in drops && x.id !in ids
    decreases |drops|
  {
    if drops != [] {
      RemoveDropsMembers(drops[1..], ids, x);
      assert drops == [drops[0]] + drops[1..];
    }
  }

  /** Removal works on each part of a concatenation in place, so the kept drops keep their order. */
  lemma {:induction false} RemoveDropsConcat(a: seq<Drop>, b: seq<Drop>, ids: set<nat>)
    ensures RemoveDrops(a + b, ids) == RemoveDrops(a, ids) + RemoveDrops(b, ids)
    decreases |a|
  {
    if a == [] {
      assert a + b == b;
    } else {
      assert (a + b)[0] == a[0];
      assert (a + b)[1..] == a[1..] + b;
      RemoveDropsConcat(a[1..], b, ids);
    }
  }

  /** Removing ids no drop carries changes nothing. */
  lemma {:induction false} RemoveDropsNone(drops: seq<Drop>, ids: set<nat>)
    requires forall i :: 0 <= i < |drops| ==> drops[i].id !in ids
    ensures RemoveDrops(drops, ids) == drops
    decreases |drops|
  {
    if drops != [] {
      RemoveDropsNone(drops[1..], ids);
    }
  }

  /** Removing every id of a list empties it. */
  lemma {:induction false} RemoveDropsAll(drops: seq<Drop>, ids: set<nat>)
    requires forall i :: 0 <= i < |drops| ==> drops[i].id in ids
    ensures RemoveDrops(drops, ids) == []
    decreases |drops|
  {
    if drops != [] {
      RemoveDropsAll(drops[1..], ids);
    }
  }

  /** Removal keeps ids increasing. */
  lemma {:induction false} RemoveDropsIncrease(drops: seq<Drop>, ids: set<nat>)
    requires IdsIncrease(drops)
    ensures IdsIncrease(RemoveDrops(drops, ids))
    decreases |drops|
  {
    if drops != [] {
      RemoveDropsIncrease(drops[1..], ids);
      var rest := RemoveDrops(drops[1..], ids);
      forall k | 0 <= k < |rest|
        ensures drops[0].id < rest[k].id
      {
        var j :| 0 <= j < |drops[1..]| && drops[1..][j] == rest[k];
        assert drops[j + 1] == rest[k];
      }
    }
  }

  /** Appending a burst numbered from `first` after drops numbered below it keeps ids increasing and below the new counter. */
  lemma AppendBurstKeepsIds(drops: seq<Drop>, first: nat, direction: Direction, base: int, n: nat)
    requires IdsIncrease(drops) && IdsBelow(drops, first)
    ensures IdsIncrease(drops + Burst(first, direction, base, n))
    ensures IdsBelow(drops + Burst(first, direction, base, n), first + n)
  {
    var all := drops + Burst(first, direction, base, n);
    forall a, b | 0 <= a < b < |all|
      ensures all[a].id < all[b].id
    {
      if a < |drops| {
        assert all[a] == drops[a];
      }
    }
  }

  /**
   * A burst's cleanup removes exactly that burst: the drops present before
   * the burst, all numbered below it, come back unchanged and in order,
   * together with whatever was appended after the burst with later ids.
   */
  lemma CleanupUndoesBurst(before: seq<Drop>, first: nat, direction: Direction, base: int, n: nat, after: seq<Drop>)
    requires IdsBelow(before, first)
    requires forall i :: 0 <= i < |after| ==> after[i].id >= first + n
    ensures RemoveDrops(before + Burst(first, direction, base, n) + after, Ids(Burst(first, direction, base, n))) == before + after
  {
    var burst := Burst(first, direction, base, n);
    var ids := Ids(burst);
    RemoveDropsConcat(before + burst, after, ids);
    RemoveDropsConcat(before, burst, ids);
    RemoveDropsNone(before, ids);
    RemoveDropsAll(burst, ids);
    RemoveDropsNone(after, ids);
    assert before + [] == before;
  }

  // ---------------------------------------------------------------------------
  // The component's state
  // ---------------------------------------------------------------------------

  class LiquidPool {
    const credits: int
    /** The animation-synced count of available credits the blob is drawn from. */
    var displayed: int
    /** Until when pool landings, not the ledger, move the displayed count. */
    var lockUntil: int
    var inFlightToDiamond: int
    var inFlightToPool: int
    /** The resynchronisation timers scheduled by launches and not yet fired. */
    var resyncs: seq<PendingResync>
    var dryState: DryState
    /** The due time of the pending dry-out timer, if any. */
    var dryTimer: Option<int>
    var drops: seq<Drop>
    var dropCounter: nat

    /** The displayed count stays in the gauge, the counters are never negative, and drop ids are distinct and already handed out. */
    predicate Valid()
      reads this
    {
      && InGauge(displayed, credits)
      && NonNegative(InFlight(inFlightToDiamond, inFlightToPool))
      && (dryTimer.Some? ==> dryState == Drying)
      && IdsIncrease(drops)
      && IdsBelow(drops, dropCounter)
    }

    /** The first render: the count starts at the clamped available credits, wet, with nothing in flight. */
    constructor (credits: int, available: int)
      ensures this.credits == credits
      ensures displayed == ClampInt(available as real, 0, credits)
      ensures lockUntil == 0 && inFlightToDiamond == 0 && inFlightToPool == 0 && resyncs == []
      ensures dryState == Wet && dryTimer == None && drops == [] && dropCounter == 0
      ensures Valid()
    {
      this.credits := credits;
      displayed := ClampInt(available as real, 0, credits);
      lockUntil := 0;
      inFlightToDiamond := 0;
      inFlightToPool := 0;
      resyncs := [];
      dryState := Wet;
      dryTimer := None;
      drops := [];
      dropCounter := 0;
    }

    /** The effect that follows `availableCredits`: it moves the displayed count only outside the lock window. */
    method Resync(now: int, available: int)
      requires Valid()
      modifies this
      ensures displayed == Resynced(old(displayed), lockUntil, now, available, credits)
      ensures lockUntil == old(lockUntil) && resyncs == old(resyncs)
      ensures inFlightToDiamond == old(inFlightToDiamond) && inFlightToPool == old(inFlightToPool)
      ensures dryState == old(dryState) && dryTimer == old(dryTimer) && drops == old(drops) && dropCounter == old(dropCounter)
      ensures Valid()
    {
      if now >= lockUntil {
        displayed := ClampInt(available as real, 0, credits);
      }
    }

    /**
     * A launch: extend the lock over the whole staggered flight window and
     * schedule a resynchronisation just after it, carrying `captured`, the
     * available credits the listener saw when it was registered.
     */
    method OnLaunch(p: LaunchPayload, now: int, captured: int) returns (firesAt: int)
      requires Valid()
      modifies this
      ensures firesAt == now + LockMs(p.count) + ResyncSlackMs
      ensures lockUntil == LockUntilAfter(old(lockUntil), now, p.count)
      ensures lockUntil >= old(lockUntil)
      ensures resyncs == old(resyncs) + [PendingResync(firesAt, captured)]
      ensures displayed == old(displayed)
      ensures inFlightToDiamond == old(inFlightToDiamond) && inFlightToPool == old(inFlightToPool)
      ensures dryState == old(dryState) && dryTimer == old(dryTimer) && drops == old(drops) && dropCounter == old(dropCounter)
      ensures Valid()
    {
      var lockMs := LockMs(p.count);
      lockUntil := Max(lockUntil, now + lockMs);
      firesAt := now + lockMs + ResyncSlackMs;
      resyncs := resyncs + [PendingResync(firesAt, captured)];
    }

    /**
     * Resync timer `k` fires as written: if no later launch has pushed the
     * lock further, the count jumps to the value the timer captured.
     */
    method FireResync(k: nat, now: int)
      requires Valid() && k < |resyncs| && now >= resyncs[k].at
      modifies this
      ensures displayed == Resynced(old(displayed), lockUntil, now, old(resyncs)[k].captured, credits)
      ensures resyncs == old(resyncs)[..k] + old(resyncs)[k + 1..]
      ensures lockUntil == old(lockUntil)
      ensures inFlightToDiamond == old(inFlightToDiamond) && inFlightToPool == old(inFlightToPool)
      ensures dryState == old(dryState) && dryTimer == old(dryTimer) && drops == old(drops) && dropCounter == old(dropCounter)
      ensures Valid()
    {
      var captured := resyncs[k].captured;
      resyncs := resyncs[..k] + resyncs[k + 1..];
      if now >= lockUntil {
        displayed := ClampInt(captured as real, 0, credits);
      }
    }

    /** Resync timer `k` fires reading the ledger's `available` credits at the time it fires. */
    method FireResyncIntended(k: nat, now: int, available: int)
      requires Valid() && k < |resyncs| && now >= resyncs[k].at
      modifies this
      ensures displayed == Resynced(old(displayed), lockUntil, now, available, credits)
      ensures now >= lockUntil && 0 <= available <= credits ==> displayed == available
      ensures resyncs == old(resyncs)[..k] + old(resyncs)[k + 1..]
      ensures lockUntil == old(lockUntil)
      ensures inFlightToDiamond == old(inFlightToDiamond) && inFlightToPool == old(inFlightToPool)
      ensures dryState == old(dryState) && dryTimer == old(dryTimer) && drops == old(drops) && dropCounter == old(dropCounter)
      ensures Valid()
    {
      resyncs := resyncs[..k] + resyncs[k + 1..];
      if now >= lockUntil {
        displayed := ClampInt(available as real, 0, credits);
      }
    }

    /** A pool landing moves the displayed count by one and retires a returning unit. */
    method OnPoolEnd(d: PoolEndDetail)
      requires Valid()
      modifies this
      ensures displayed == PoolEndDisplayed(old(displayed), d, credits)
      ensures InFlight(inFlightToDiamond, inFlightToPool) == PoolLanded(old(InFlight(inFlightToDiamond, inFlightToPool)), d)
      ensures lockUntil == old(lockUntil) && resyncs == old(resyncs)
      ensures dryState == old(dryState) && dryTimer == old(dryTimer) && drops == old(drops) && dropCounter == old(dropCounter)
      ensures Valid()
    {
      if d.phase != End {
        return;
      }
      var delta := if d.direction == ToPool then 1 else -1;
      displayed := ClampInt((displayed + delta) as real, 0, credits);
      if d.direction == ToPool {
        inFlightToPool := Max(0, inFlightToPool - 1);
      }
    }

    /** An animation start counts a unit in flight. */
    method OnAnimStart(d: AnimDetail)
      requires Valid()
      modifies this
      ensures InFlight(inFlightToDiamond, inFlightToPool) == AnimStarted(old(InFlight(inFlightToDiamond, inFlightToPool)), d)
      ensures displayed == old(displayed) && lockUntil == old(lockUntil) && resyncs == old(resyncs)
      ensures dryState == old(dryState) && dryTimer == old(dryTimer) && drops == old(drops) && dropCounter == old(dropCounter)
      ensures Valid()
    {
      if d.phase != Start {
        return;
      }
      if d.direction == ToDiamond {
        inFlightToDiamond := inFlightToDiamond + 1;
      }
      if d.direction == ToPool {
        inFlightToPool := inFlightToPool + 1;
      }
    }

    /** A diamond landing retires a departing unit. */
    method OnDiamondEnd(d: DiamondEndDetail)
      requires Valid()
      modifies this
      ensures InFlight(inFlightToDiamond, inFlightToPool) == DiamondLanded(old(InFlight(inFlightToDiamond, inFlightToPool)), d)
      ensures displayed == old(displayed) && lockUntil == old(lockUntil) && resyncs == old(resyncs)
      ensures dryState == old(dryState) && dryTimer == old(dryTimer) && drops == old(drops) && dropCounter == old(dropCounter)
      ensures Valid()
    {
      if d.phase != End {
        return;
      }
      if d.direction == ToDiamond {
        inFlightToDiamond := Max(0, inFlightToDiamond - 1);
      }
    }

    /** The dry-state effect: cancel any pending dry-out, then choose the look; drying arms a timer `dryOutMs` ahead. */
    method SyncDry(available: int, dryOutMs: int, now: int)
      requires Valid()
      modifies this
      ensures dryState == DryChoice(available, dryOutMs)
      ensures dryTimer == if dryState == Drying then Some(now + Max(0, dryOutMs)) else None
      ensures displayed == old(displayed) && lockUntil == old(lockUntil) && resyncs == old(resyncs)
      ensures inFlightToDiamond == old(inFlightToDiamond) && inFlightToPool == old(inFlightToPool)
      ensures drops == old(drops) && dropCounter == old(dropCounter)
      ensures Valid()
    {
      dryTimer := None;
      var ms := Max(0, dryOutMs);
      if available > 0 {
        dryState := Wet;
        return;
      }
      if ms == 0 {
        dryState := Dry;
        return;
      }
      dryState := Drying;
      dryTimer := Some(now + ms);
    }

    /** The dry-out timer firing at or after its due time turns a drying pool dry. */
    method DryTimerFires(now: int)
      requires Valid()
      modifies this
      ensures old(dryTimer).Some? && now >= old(dryTimer).value ==> dryState == Dry && dryTimer == None
      ensures !(old(dryTimer).Some? && now >= old(dryTimer).value) ==> dryState == old(dryState) && dryTimer == old(dryTimer)
      ensures displayed == old(displayed) && lockUntil == old(lockUntil) && resyncs == old(resyncs)
      ensures inFlightToDiamond == old(inFlightToDiamond) && inFlightToPool == old(inFlightToPool)
      ensures drops == old(drops) && dropCounter == old(dropCounter)
      ensures Valid()
    {
      if dryTimer.Some? && now >= dryTimer.value {
        dryState := Dry;
        dryTimer := None;
      }
    }

    /**
     * The burst handler: an animation start on a pool that is not dry
     * appends a burst of `BurstSize(burstCount)` drops with the next ids
     * and returns those ids for the cleanup `DropLifetimeMs` later;
     * `fallback` stands for the random seed base used when the detail has
     * no pool index.
     */
    method OnBurst(d: AnimDetail, burstCount: real, fallback: int) returns (ids: set<nat>)
      requires Valid()
      modifies this
      ensures d.phase != Start || old(dryState) == Dry ==> ids == {} && drops == old(drops) && dropCounter == old(dropCounter)
      ensures d.phase == Start && old(dryState) != Dry ==>
        && drops == old(drops) + Burst(old(dropCounter), d.direction, SeedBase(d.poolIndex, fallback), BurstSize(burstCount))
        && dropCounter == old(dropCounter) + BurstSize(burstCount)
        && ids == Ids(Burst(old(dropCounter), d.direction, SeedBase(d.poolIndex, fallback), BurstSize(burstCount)))
        && forall x :: x in ids ==> old(dropCounter) <= x < dropCounter
      ensures displayed == old(displayed) && lockUntil == old(lockUntil) && resyncs == old(resyncs)
      ensures inFlightToDiamond == old(inFlightToDiamond) && inFlightToPool == old(inFlightToPool)
      ensures dryState == old(dryState) && dryTimer == old(dryTimer)
      ensures Valid()
    {
      ids := {};
      if d.phase != Start || dryState == Dry {
        return;
      }
      var n := BurstSize(burstCount);
      var base := SeedBase(d.poolIndex, fallback);
      var first := dropCounter;
      var newDrops: seq<Drop> := [];
      var i := 0;
      while i < n
        invariant 0 <= i <= n
        invariant dropCounter == first + i
        invariant drops == old(drops) && dryState == old(dryState) && dryTimer == old(dryTimer)
        invariant displayed == old(displayed) && lockUntil == old(lockUntil) && resyncs == old(resyncs)
        invariant inFlightToDiamond == old(inFlightToDiamond) && inFlightToPool == old(inFlightToPool)
        invariant |newDrops| == i
        invariant forall j :: 0 <= j < i ==> newDrops[j] == BurstDrop(first, d.direction, base, n, j)
      {
        newDrops := newDrops + [Drop(dropCounter, d.direction, Seed(base, i, n))];
        dropCounter := dropCounter + 1;
        i := i + 1;
      }
      assert newDrops == Burst(first, d.direction, base, n);
      AppendBurstKeepsIds(drops, first, d.direction, base, n);
      drops := drops + newDrops;
      ids := Ids(newDrops);
    }

    /** The cleanup of a burst, `DropLifetimeMs` after it: those drops go, the rest stay in order. */
    method Cleanup(ids: set<nat>)
      requires Valid()
      modifies this
      ensures drops == RemoveDrops(old(drops), ids)
      ensures dropCounter == old(dropCounter)
      ensures displayed == old(displayed) && lockUntil == old(lockUntil) && resyncs == old(resyncs)
      ensures inFlightToDiamond == old(inFlightToDiamond) && inFlightToPool == old(inFlightToPool)
      ensures dryState == old(dryState) && dryTimer == old(dryTimer)
      ensures Valid()
    {
      RemoveDropsIncrease(drops, ids);
      forall i | 0 <= i < |RemoveDrops(drops, ids)|
        ensures RemoveDrops(drops, ids)[i].id < dropCounter
      {
        RemoveDropsMembers(drops, ids, RemoveDrops(drops, ids)[i]);
      }
      drops := RemoveDrops(drops, ids);
    }
  }

  // ---------------------------------------------------------------------------
  // The stale resynchronisation
  // ---------------------------------------------------------------------------

  /**
   * One vote of +1 on a fresh 100-credit ledger. The launch listener was
   * registered while 100 credits were available, so its timer captures 100;
   * the effect that sees 99 falls inside the lock; the departing unit's
   * landing brings the count to 99; the timer then fires after the lock and
   * puts back 100 although only 99 credits remain. Reading the current value
   * at that moment gives 99.
   */
  lemma StaleResyncShowsOldCount()
    ensures var lock := LockUntilAfter(0, 0, 1);
            var shown := ClampInt(100.0, 0, 100);
            var afterEffect := Resynced(shown, lock, 0, 99, 100);
            var afterLanding := PoolEndDisplayed(afterEffect, PoolEndDetail(End, ToDiamond, Some(0)), 100);
            var firesAt := 0 + LockMs(1) + ResyncSlackMs;
            && lock == 750 && firesAt == 770
            && afterEffect == 100 && afterLanding == 99
            && Resynced(afterLanding, lock, firesAt, 100, 100) == 100
            && Resynced(afterLanding, lock, firesAt, 99, 100) == 99
  {
    TruncOfInt(100);
  }

  /** Whenever the captured value differs from the ledger's, the as-written timer shows a wrong count once the lock has ended. */
  lemma StaleResyncDisagrees(displayed: int, lockUntil: int, now: int, captured: int, available: int, credits: int)
    requires now >= lockUntil
    requires 0 <= captured <= credits && 0 <= available <= credits && captured != available
    ensures Resynced(displayed, lockUntil, now, captured, credits) != available
    ensures Resynced(displayed, lockUntil, now, available, credits) == available
  {
  }
}
