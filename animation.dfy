/**
 * The flight planner of the vote animation. A `qv:launch-animation`
 * launch is turned into one flight per credit unit, each unit announcing
 * its start at once and scheduling two settle events; a frame step drops
 * the flights whose time is over. The page is abstracted: the level's
 * circles come in as their `data-ai` attributes, the pool circles as a map
 * from pool index to their `fill`, time as integer milliseconds, and the
 * window events as a list of timed event records.
 */
module Animation {
  import opened Wrappers
  import opened Arith
  import opened Bus

  const StaggerMs := 60
  const DurationMs := 650
  const EarlySettleMs := 150

  /** The diamond circle a flight starts from or lands on. */
  datatype DiamondRef = DiamondRef(id: int, level: int, ai: nat)

  datatype Flight = Flight(
    id: nat,
    direction: Direction,
    poolIndex: int,
    diamond: DiamondRef,
    color: string,
    startAt: int,
    durationMs: int,
    delayMs: int)


  // ---------------------------------------------------------------------------
  // getDiamondLevelCircles: the level's circles by ascending data-ai
  // ---------------------------------------------------------------------------

  /** `parseInt(getAttribute('data-ai') || '0', 10)`: a missing attribute counts as 0. */
  function AiKey(a: Option<nat>): nat {
    a.GetOr(0)
  }

  predicate SortedByAi(s: seq<Option<nat>>) {
    forall i, j :: 0 <= i < j < |s| ==> AiKey(s[i]) <= AiKey(s[j])
  }

  /** Inserts `x` after every element whose key is at most its own (a stable insertion). */
  function InsertByAi(x: Option<nat>, s: seq<Option<nat>>): (r: seq<Option<nat>>)
    ensures multiset(r) == multiset(s) + multiset{x}
    ensures |r| == |s| + 1
  {
    if |s| == 0 then [x]
    else if AiKey(s[|s| - 1]) <= AiKey(x) then s + [x]
    else
      var r := InsertByAi(x, s[..|s| - 1]) + [s[|s| - 1]];
      assert s == s[..|s| - 1] + [s[|s| - 1]];
      r
  }

  /** The level's circles in the order `arr.sort` leaves them: by ascending `data-ai`. */
  function SortByAi(s: seq<Option<nat>>): seq<Option<nat>> {
    if |s| == 0 then [] else InsertByAi(s[|s| - 1], SortByAi(s[..|s| - 1]))
  }

  lemma {:induction false} InsertKeepsSorted(x: Option<nat>, s: seq<Option<nat>>)
    requires SortedByAi(s)
    ensures SortedByAi(InsertByAi(x, s))
    decreases |s|
  {
    if |s| > 0 {
      var p, y := s[..|s| - 1], s[|s| - 1];
      if AiKey(y) <= AiKey(x) {
        assert forall k :: 0 <= k < |s| ==> AiKey(s[k]) <= AiKey(y);
        SortedSnoc(s, x);
      } else {
        assert forall k :: 0 <= k < |p| ==> p[k] == s[k];
        InsertKeepsSorted(x, p);
        InsertBounded(x, p, AiKey(y));
        SortedSnoc(InsertByAi(x, p), y);
      }
    }
  }

  /** Inserting never raises the largest key above a bound that `x` and `s` respect. */
  lemma InsertBounded(x: Option<nat>, s: seq<Option<nat>>, b: nat)
    requires AiKey(x) <= b && forall k :: 0 <= k < |s| ==> AiKey(s[k]) <= b
    ensures forall k :: 0 <= k < |InsertByAi(x, s)| ==> AiKey(InsertByAi(x, s)[k]) <= b
  {
    var r := InsertByAi(x, s);
    forall k | 0 <= k < |r| ensures AiKey(r[k]) <= b {
      assert r[k] in multiset(s) + multiset{x};
      if r[k] != x { assert r[k] in s; }
    }
  }

  /** Appending an element whose key bounds all others keeps a list sorted. */
  lemma SortedSnoc(q: seq<Option<nat>>, y: Option<nat>)
    requires SortedByAi(q) && forall k :: 0 <= k < |q| ==> AiKey(q[k]) <= AiKey(y)
    ensures SortedByAi(q + [y])
  {
    var r := q + [y];
    forall i, j | 0 <= i < j < |r| ensures AiKey(r[i]) <= AiKey(r[j]) {
      assert r[i] == q[i];
      if j < |q| { assert r[j] == q[j]; }
    }
  }

  /** The ordering is ascending by `data-ai` and keeps every circle. */
  lemma {:induction false} SortByAiSorts(s: seq<Option<nat>>)
    ensures SortedByAi(SortByAi(s))
    ensures multiset(SortByAi(s)) == multiset(s)
    decreases |s|
  {
    if |s| > 0 {
      var init, last := s[..|s| - 1], s[|s| - 1];
      SortByAiSorts(init);
      InsertKeepsSorted(last, SortByAi(init));
      InitLast(s);
    }
  }

  lemma InitLast(s: seq<Option<nat>>)
    requires |s| > 0
    ensures multiset(s) == multiset(s[..|s| - 1]) + multiset{s[|s| - 1]}
  {
    assert s == s[..|s| - 1] + [s[|s| - 1]];
  }

  // ---------------------------------------------------------------------------
  // The flight plan of one launch
  // ---------------------------------------------------------------------------

  /** How many units fly: `max(1, count)` tried, those without a level circle skipped. */
  function Units(p: LaunchPayload, targets: seq<Option<nat>>): nat {
    Min(Max(1, p.count), |targets|)
  }

  /** `detail.color ?? poolCircle?.getAttribute('fill') ?? 'black'`. */
  function ColorFor(p: LaunchPayload, poolFill: map<int, string>, poolIndex: int): string {
    match p.color
    case Some(c) => c
    case None => if poolIndex in poolFill then poolFill[poolIndex] else "black"
  }

  /** The flight of unit `i`, numbered `id`. */
  function UnitFlight(p: LaunchPayload, targets: seq<Option<nat>>, poolFill: map<int, string>, now: int, id: nat, i: nat): Flight
    requires i < |targets|
  {
    Flight(id, p.direction, p.poolStartIndex + i, DiamondRef(p.diamondId, p.diamondLevel, AiKey(targets[i])),
           ColorFor(p, poolFill, p.poolStartIndex + i), now, DurationMs, i * StaggerMs)
  }

  /** The flights of units `0..n-1`, numbered from `first`. */
  function PlanPrefix(p: LaunchPayload, targets: seq<Option<nat>>, poolFill: map<int, string>, now: int, first: nat, n: nat): seq<Flight>
    requires n <= |targets|
  {
    seq(n, i requires 0 <= i < n => UnitFlight(p, targets, poolFill, now, first + i, i))
  }

  function Plan(p: LaunchPayload, targets: seq<Option<nat>>, poolFill: map<int, string>, now: int, first: nat): (r: seq<Flight>)
    ensures |r| == Units(p, targets)
    ensures forall i :: 0 <= i < |r| ==> r[i] == UnitFlight(p, targets, poolFill, now, first + i, i)
  {
    PlanPrefix(p, targets, poolFill, now, first, Units(p, targets))
  }

  /**
   * The three window events of unit `i`: `qv:anim` start at once, then the
   * surface the unit leaves settles at `150 + 60i` and the one it reaches at
   * `650 + 60i`.
   */
  function UnitEvents(p: LaunchPayload, ai: nat, poolIndex: int, now: int, i: nat): seq<TimedEvent> {
    var start := TimedEvent(now, Anim(AnimDetail(Start, p.direction, p.diamondId, p.diamondLevel, ai, Some(poolIndex))));
    var poolEnd := AnimPool(PoolEndDetail(End, p.direction, Some(poolIndex)));
    var diamondEnd := AnimDiamond(DiamondEndDetail(End, p.direction, p.diamondId, p.diamondLevel, ai));
    var early := now + EarlySettleMs + i * StaggerMs;
    var final := now + DurationMs + i * StaggerMs;
    match p.direction
    case ToDiamond => [start, TimedEvent(early, poolEnd), TimedEvent(final, diamondEnd)]
    case ToPool => [start, TimedEvent(early, diamondEnd), TimedEvent(final, poolEnd)]
  }

  /** The events of units `0..n-1`, in the order the handler produces them. */
  function Schedule(p: LaunchPayload, targets: seq<Option<nat>>, now: int, n: nat): (r: seq<TimedEvent>)
    requires n <= |targets|
    ensures |r| == 3 * n
  {
    if n == 0 then []
    else Schedule(p, targets, now, n - 1) + UnitEvents(p, AiKey(targets[n - 1]), p.poolStartIndex + n - 1, now, n - 1)
  }

  /** The plan of `i + 1` units extends the plan of `i` by unit `i`'s flight. */
  lemma PlanPrefixSnoc(p: LaunchPayload, targets: seq<Option<nat>>, poolFill: map<int, string>, now: int, first: nat, i: nat)
    requires i < |targets|
    ensures PlanPrefix(p, targets, poolFill, now, first, i + 1)
            == PlanPrefix(p, targets, poolFill, now, first, i) + [UnitFlight(p, targets, poolFill, now, first + i, i)]
  {
  }

  /** The events of `i + 1` units extend those of `i` by unit `i`'s three events. */
  lemma ScheduleSnoc(p: LaunchPayload, targets: seq<Option<nat>>, now: int, i: nat)
    requires i < |targets|
    ensures Schedule(p, targets, now, i + 1)
            == Schedule(p, targets, now, i) + UnitEvents(p, AiKey(targets[i]), p.poolStartIndex + i, now, i)
  {
  }

  /** The three events of a unit, as the handler's loop builds them from its locals. */
  lemma UnitEventsShape(p: LaunchPayload, ai: nat, poolIndex: int, now: int, i: nat,
                        start: TimedEvent, poolEnd: WindowEvent, diamondEnd: WindowEvent, early: int, final: int)
    requires start == TimedEvent(now, Anim(AnimDetail(Start, p.direction, p.diamondId, p.diamondLevel, ai, Some(poolIndex))))
    requires poolEnd == AnimPool(PoolEndDetail(End, p.direction, Some(poolIndex)))
    requires diamondEnd == AnimDiamond(DiamondEndDetail(End, p.direction, p.diamondId, p.diamondLevel, ai))
    requires early == now + EarlySettleMs + i * StaggerMs && final == now + DurationMs + i * StaggerMs
    ensures p.direction == ToDiamond ==>
              UnitEvents(p, ai, poolIndex, now, i) == [start, TimedEvent(early, poolEnd), TimedEvent(final, diamondEnd)]
    ensures p.direction == ToPool ==>
              UnitEvents(p, ai, poolIndex, now, i) == [start, TimedEvent(early, diamondEnd), TimedEvent(final, poolEnd)]
  {
  }

  /**
   * The loop of the launch handler: for each unit `i < max(1, count)` whose
   * level circle exists, it numbers a flight from the id counter `first`
   * and emits the unit's three window events; it returns the new flights,
   * the events and the advanced counter.
   */
  method LaunchFlights(p: LaunchPayload, targets: seq<Option<nat>>, poolFill: map<int, string>, now: int, first: nat)
    returns (newFlights: seq<Flight>, events: seq<TimedEvent>, next: nat)
    ensures newFlights == Plan(p, targets, poolFill, now, first)
    ensures events == Schedule(p, targets, now, Units(p, targets))
    ensures next == first + Units(p, targets)
  {
    var count := Max(1, p.count);
    next := first;
    newFlights := [];
    events := [];
    var i := 0;
    ghost var n := 0;
    while i < count
      invariant 0 <= i <= count && n == Min(i, |targets|)
      invariant next == first + n
      invariant newFlights == PlanPrefix(p, targets, poolFill, now, first, n)
      invariant events == Schedule(p, targets, now, n)
    {
      var poolIndex := p.poolStartIndex + i;
      if i < |targets| {
        var ai := AiKey(targets[i]);
        var color := ColorFor(p, poolFill, poolIndex);
        var start := TimedEvent(now, Anim(AnimDetail(Start, p.direction, p.diamondId, p.diamondLevel, ai, Some(poolIndex))));
        var poolEnd := AnimPool(PoolEndDetail(End, p.direction, Some(poolIndex)));
        var diamondEnd := AnimDiamond(DiamondEndDetail(End, p.direction, p.diamondId, p.diamondLevel, ai));
        var early, final := now + EarlySettleMs + i * StaggerMs, now + DurationMs + i * StaggerMs;
        PlanPrefixSnoc(p, targets, poolFill, now, first, i);
        ScheduleSnoc(p, targets, now, i);
        newFlights := newFlights + [Flight(next, p.direction, poolIndex, DiamondRef(p.diamondId, p.diamondLevel, ai),
                                           color, now, DurationMs, i * StaggerMs)];
        next := next + 1;
        UnitEventsShape(p, ai, poolIndex, now, i, start, poolEnd, diamondEnd, early, final);
        if p.direction == ToDiamond {
          events := events + [start, TimedEvent(early, poolEnd), TimedEvent(final, diamondEnd)];
        } else {
          events := events + [start, TimedEvent(early, diamondEnd), TimedEvent(final, poolEnd)];
        }
        n := n + 1;
      }
      i := i + 1;
    }
  }

  // ---------------------------------------------------------------------------
  // step: dropping finished flights
  // ---------------------------------------------------------------------------

  /** The time at which a flight is over. */
  function EndsAt(f: Flight): int {
    f.startAt + f.delayMs + f.durationMs
  }

  /** `prev.filter(f => now < f.startAt + f.delayMs + f.durationMs)`. */
  function Remaining(fs: seq<Flight>, now: int): seq<Flight> {
    if |fs| == 0 then []
    else (if now < EndsAt(fs[0]) then [fs[0]] else []) + Remaining(fs[1..], now)
  }

  predicate IdsIncrease(fs: seq<Flight>) {
    forall i, j :: 0 <= i < j < |fs| ==> fs[i].id < fs[j].id
  }

  // ---------------------------------------------------------------------------
  // The component's state
  // ---------------------------------------------------------------------------

  /** The component's `flights` state and its flight-id `counter`. */
  class VoteAnimation {
    var flights: seq<Flight>
    var counter: nat

    /** Flight ids increase along the list and are all below the counter. */
    predicate Valid()
      reads this
    {
      IdsIncrease(flights) && forall k :: 0 <= k < |flights| ==> flights[k].id < counter
    }

    constructor ()
      ensures flights == [] && counter == 0
      ensures Valid()
    {
      flights := [];
      counter := 0;
    }

    /** The `qv:launch-animation` handler, given the level's circles and the pool's fills. */
    method Launch(p: LaunchPayload, levelCircles: seq<Option<nat>>, poolFill: map<int, string>, now: int)
      returns (events: seq<TimedEvent>)
      modifies this
      ensures var targets := SortByAi(levelCircles);
              && flights == old(flights) + Plan(p, targets, poolFill, now, old(counter))
              && counter == old(counter) + Units(p, targets)
              && events == Schedule(p, targets, now, Units(p, targets))
      ensures old(Valid()) ==> Valid()
    {
      var targets := SortByAi(levelCircles);
      var newFlights, next;
      newFlights, events, next := LaunchFlights(p, targets, poolFill, now, counter);
      PlanIds(p, targets, poolFill, now, counter);
      if old(Valid()) {
        AppendKeepsValid(flights, newFlights, counter, next);
      }
      if |newFlights| > 0 {
        flights := flights + newFlights;
      } else {
        assert flights == old(flights) + newFlights;
      }
      counter := next;
    }

    /** `step` at time `now`: keep the flights still in the air. */
    method Step(now: int)
      modifies this
      ensures flights == Remaining(old(flights), now) && counter == old(counter)
      ensures old(Valid()) ==> Valid()
    {
      RemainingSublist(flights, now);
      flights := Remaining(flights, now);
    }
  }

  // ---------------------------------------------------------------------------
  // Properties
  // ---------------------------------------------------------------------------

  /** The flights of one launch are numbered consecutively from `first`. */
  lemma PlanIds(p: LaunchPayload, targets: seq<Option<nat>>, poolFill: map<int, string>, now: int, first: nat)
    ensures var plan := Plan(p, targets, poolFill, now, first);
            forall k :: 0 <= k < |plan| ==> plan[k].id == first + k
  {
  }

  lemma AppendKeepsValid(old_: seq<Flight>, added: seq<Flight>, first: nat, counter: nat)
    requires IdsIncrease(old_) && forall k :: 0 <= k < |old_| ==> old_[k].id < first
    requires forall k :: 0 <= k < |added| ==> added[k].id == first + k
    requires counter == first + |added|
    ensures var fs := old_ + added;
            IdsIncrease(fs) && forall k :: 0 <= k < |fs| ==> fs[k].id < counter
  {
    var fs := old_ + added;
    forall i, j | 0 <= i < j < |fs| ensures fs[i].id < fs[j].id {
      if j >= |old_| {
        assert fs[j] == added[j - |old_|];
        if i >= |old_| { assert fs[i] == added[i - |old_|]; }
      }
    }
  }

  /**
   * Unit `i` of a launch flies from pool circle `poolStartIndex + i`, waits
   * `60 * i` ms, flies `650` ms from `now`, and reaches or leaves the `i`-th
   * level circle in ascending `data-ai` order; as many units fly as there are
   * both credits (at least one) and level circles.
   */
  lemma PlanShape(p: LaunchPayload, levelCircles: seq<Option<nat>>, poolFill: map<int, string>, now: int, first: nat)
    ensures var targets := SortByAi(levelCircles);
            var plan := Plan(p, targets, poolFill, now, first);
            && |plan| == Min(Max(1, p.count), |levelCircles|)
            && forall i :: 0 <= i < |plan| ==>
                 var f := plan[i];
                 && f.id == first + i && f.direction == p.direction
                 && f.poolIndex == p.poolStartIndex + i && f.delayMs == 60 * i && f.durationMs == 650 && f.startAt == now
                 && f.diamond == DiamondRef(p.diamondId, p.diamondLevel, AiKey(targets[i]))
                 && (i > 0 ==> AiKey(targets[i - 1]) <= f.diamond.ai)
  {
    SortByAiSorts(levelCircles);
    var targets := SortByAi(levelCircles);
    assert |targets| == |levelCircles| by {
      assert |multiset(targets)| == |multiset(levelCircles)|;
    }
  }

  /** A launch whose level has no circle (an unknown diamond or level) adds no flight and no event. */
  lemma NothingResolved(p: LaunchPayload, poolFill: map<int, string>, now: int, first: nat)
    ensures Plan(p, SortByAi([]), poolFill, now, first) == []
    ensures Schedule(p, SortByAi([]), now, Units(p, SortByAi([]))) == []
  {
  }

  /**
   * The colour of a flight is the payload's colour when it has one, else the
   * fill of its pool circle when that circle has one, else black.
   */
  lemma ColorFallback(p: LaunchPayload, targets: seq<Option<nat>>, poolFill: map<int, string>, now: int, first: nat, i: nat)
    requires i < Units(p, targets)
    ensures var f := Plan(p, targets, poolFill, now, first)[i];
            && (p.color.Some? ==> f.color == p.color.value)
            && (p.color.None? && f.poolIndex in poolFill ==> f.color == poolFill[f.poolIndex])
            && (p.color.None? && f.poolIndex !in poolFill ==> f.color == "black")
  {
  }

  /**
   * Event `3i` of a launch is unit `i`'s start, at `now`; event `3i + 1`
   * settles the surface the unit leaves at `now + 150 + 60i`; event `3i + 2`
   * settles the surface it reaches at `now + 650 + 60i`: the pool, then the
   * diamond, for a unit flying to the diamond, the other way round for one
   * flying to the pool.
   */
  lemma {:induction false} ScheduleAt(p: LaunchPayload, targets: seq<Option<nat>>, now: int, n: nat, i: nat)
    requires n <= |targets| && i < n
    ensures var ev := Schedule(p, targets, now, n);
            var ai, poolIndex := AiKey(targets[i]), p.poolStartIndex + i;
            && ev[3 * i] == TimedEvent(now, Anim(AnimDetail(Start, p.direction, p.diamondId, p.diamondLevel, ai, Some(poolIndex))))
            && ev[3 * i + 1].at == now + 150 + 60 * i
            && ev[3 * i + 2].at == now + 650 + 60 * i
            && ev[3 * i].at < ev[3 * i + 1].at < ev[3 * i + 2].at
            && (p.direction == ToDiamond ==>
                  && ev[3 * i + 1].event == AnimPool(PoolEndDetail(End, ToDiamond, Some(poolIndex)))
                  && ev[3 * i + 2].event == AnimDiamond(DiamondEndDetail(End, ToDiamond, p.diamondId, p.diamondLevel, ai)))
            && (p.direction == ToPool ==>
                  && ev[3 * i + 1].event == AnimDiamond(DiamondEndDetail(End, ToPool, p.diamondId, p.diamondLevel, ai))
                  && ev[3 * i + 2].event == AnimPool(PoolEndDetail(End, ToPool, Some(poolIndex))))
    decreases n
  {
    var ev := Schedule(p, targets, now, n);
    var prev := Schedule(p, targets, now, n - 1);
    if i < n - 1 {
      ScheduleAt(p, targets, now, n - 1, i);
      assert ev[3 * i] == prev[3 * i] && ev[3 * i + 1] == prev[3 * i + 1] && ev[3 * i + 2] == prev[3 * i + 2];
    } else {
      var u := UnitEvents(p, AiKey(targets[i]), p.poolStartIndex + i, now, i);
      assert ev[3 * i] == u[0] && ev[3 * i + 1] == u[1] && ev[3 * i + 2] == u[2];
    }
  }

  /**
   * A flight is kept by `step` iff it is not over yet, and kept flights stay
   * in their order: `Remaining` maps a concatenation to the concatenation of
   * what each part keeps.
   */
  lemma {:induction false} RemainingMembers(fs: seq<Flight>, now: int)
    ensures forall f :: f in Remaining(fs, now) <==> f in fs && now < EndsAt(f)
    decreases |fs|
  {
    if |fs| > 0 {
      RemainingMembers(fs[1..], now);
      assert forall f :: f in fs <==> f == fs[0] || f in fs[1..];
    }
  }

  lemma {:induction false} RemainingConcat(a: seq<Flight>, b: seq<Flight>, now: int)
    ensures Remaining(a + b, now) == Remaining(a, now) + Remaining(b, now)
    decreases |a|
  {
    if |a| == 0 {
      assert a + b == b;
    } else {
      assert (a + b)[1..] == a[1..] + b;
      RemainingConcat(a[1..], b, now);
    }
  }

  /** Stepping twice at the same time drops nothing more. */
  lemma {:induction false} RemainingIdempotent(fs: seq<Flight>, now: int)
    ensures Remaining(Remaining(fs, now), now) == Remaining(fs, now)
    decreases |fs|
  {
    if |fs| > 0 {
      RemainingIdempotent(fs[1..], now);
      var head := if now < EndsAt(fs[0]) then [fs[0]] else [];
      RemainingConcat(head, Remaining(fs[1..], now), now);
    }
  }

  /** A later step keeps what an earlier step followed by it keeps: later steps keep a sub-list. */
  lemma {:induction false} RemainingLater(fs: seq<Flight>, now: int, later: int)
    requires now <= later
    ensures Remaining(Remaining(fs, now), later) == Remaining(fs, later)
    decreases |fs|
  {
    if |fs| > 0 {
      RemainingLater(fs[1..], now, later);
      var head := if now < EndsAt(fs[0]) then [fs[0]] else [];
      RemainingConcat(head, Remaining(fs[1..], now), later);
    }
  }

  /** What `step` keeps is a sub-list: no longer than before, ids still increasing, every id one it had. */
  lemma {:induction false} RemainingSublist(fs: seq<Flight>, now: int)
    ensures |Remaining(fs, now)| <= |fs|
    ensures IdsIncrease(fs) ==> IdsIncrease(Remaining(fs, now))
    ensures forall k :: 0 <= k < |Remaining(fs, now)| ==> Remaining(fs, now)[k] in fs
    decreases |fs|
  {
    if |fs| > 0 {
      var rest := Remaining(fs[1..], now);
      RemainingSublist(fs[1..], now);
      RemainingMembers(fs, now);
      if IdsIncrease(fs) && now < EndsAt(fs[0]) {
        RemainingHeadFirst(fs, now);
      }
    }
  }

  /** A kept first flight precedes, by id, everything kept after it. */
  lemma RemainingHeadFirst(fs: seq<Flight>, now: int)
    requires |fs| > 0 && IdsIncrease(fs) && now < EndsAt(fs[0])
    requires IdsIncrease(Remaining(fs[1..], now))
    requires forall k :: 0 <= k < |Remaining(fs[1..], now)| ==> Remaining(fs[1..], now)[k] in fs[1..]
    ensures IdsIncrease(Remaining(fs, now))
  {
    var rest := Remaining(fs[1..], now);
    var r := Remaining(fs, now);
    assert r == [fs[0]] + rest;
    forall k | 0 <= k < |rest| ensures fs[0].id < rest[k].id {
      var j :| 0 <= j < |fs[1..]| && fs[1..][j] == rest[k];
      assert fs[j + 1] == rest[k];
    }
    forall i, j | 0 <= i < j < |r| ensures r[i].id < r[j].id {
      assert r[j] == rest[j - 1];
      if i > 0 { assert r[i] == rest[i - 1]; }
    }
  }
}
