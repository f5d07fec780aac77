/**
 * How the parts fit together: the level a vote launches has as many
 * circles as the launch carries units, the pool indices a launch flies are
 * exactly the pool circles whose used/unused state the vote flips, the
 * liquid pool's lock outlasts every flight and event of the launch, and a
 * settled diamond colours as many circles as the vote costs.
 */
module Links {
  import opened Wrappers
  import opened Arith
  import opened Bus
  import Ledger
  import Geometry
  import Animation
  import DiamondView
  import PoolView
  import LiquidPoolView

  /**
   * A unit-step launch aimed at a level whose circles are all present finds
   * a circle for every unit, and every circle of the level gets a unit.
   */
  lemma LaunchCoversLevel(p: LaunchPayload, targets: seq<Option<nat>>)
    requires Ledger.UnitLaunch(Some(p)) && |targets| == 2 * p.diamondLevel - 1
    ensures Animation.Units(p, targets) == p.count == |targets|
  {
  }

  /** The circles of the level that a launch names are the `2L - 1` circles of that level in the diamond's layout. */
  lemma LaunchLevelInLayout(p: LaunchPayload, id: int, r: int, m: nat, ai: nat)
    requires Ledger.UnitLaunch(Some(p)) && p.diamondLevel <= m && ai < p.count
    ensures LevelCircleAt(id, r, m, p.diamondLevel, ai)
  {
    Geometry.LevelContents(id, r, m, p.diamondLevel, ai);
  }

  /** Circle `ai` of level `L` sits at position `(L - 1)² + ai` of the layout. */
  predicate LevelCircleAt(id: int, r: int, m: nat, L: nat, ai: nat) {
    var j := (L - 1) * (L - 1) + ai;
    j < |Geometry.Layout(id, r, m)| && Geometry.Layout(id, r, m)[j] == Geometry.Expected(id, r, L, ai)
  }

  /** The used/unused state change of pool circle `x` that a launch in `direction` means. */
  predicate Flipped(x: int, credits: int, prevUsed: int, nextUsed: int, direction: Direction) {
    match direction
    case ToDiamond => !PoolView.IsUsed(x, credits, prevUsed, false) && PoolView.IsUsed(x, credits, nextUsed, false)
    case ToPool => PoolView.IsUsed(x, credits, prevUsed, false) && !PoolView.IsUsed(x, credits, nextUsed, false)
  }

  /**
   * The flights of a vote's launch start from (or return to) pool circles
   * that the vote flips; when every unit finds a diamond circle, every
   * flipped pool circle has its flight.
   */
  lemma LaunchFliesFlippedCircles(id: int, prevUsed: int, nextUsed: int, prevVote: int, nextVote: int,
                                  credits: int, targets: seq<Option<nat>>, poolFill: map<int, string>, now: int, first: nat)
    requires nextUsed == prevUsed - Ledger.Square(prevVote) + Ledger.Square(nextVote)
    requires Ledger.LaunchFor(id, prevUsed, nextUsed, Abs(prevVote), Abs(nextVote)).Some?
    ensures var p := Ledger.LaunchFor(id, prevUsed, nextUsed, Abs(prevVote), Abs(nextVote)).value;
            var plan := Animation.Plan(p, targets, poolFill, now, first);
            && (forall i :: 0 <= i < |plan| ==> Flipped(plan[i].poolIndex, credits, prevUsed, nextUsed, p.direction))
            && (Animation.Units(p, targets) == p.count ==>
                  forall x :: Flipped(x, credits, prevUsed, nextUsed, p.direction) ==>
                    exists i :: 0 <= i < |plan| && plan[i].poolIndex == x)
  {
    var p := Ledger.LaunchFor(id, prevUsed, nextUsed, Abs(prevVote), Abs(nextVote)).value;
    var plan := Animation.Plan(p, targets, poolFill, now, first);
    if p.direction == ToDiamond {
      assert p.poolStartIndex == prevUsed && p.count == nextUsed - prevUsed;
    } else {
      assert p.poolStartIndex == nextUsed && p.count == prevUsed - nextUsed;
    }
    if Animation.Units(p, targets) == p.count {
      forall x | Flipped(x, credits, prevUsed, nextUsed, p.direction)
        ensures exists i :: 0 <= i < |plan| && plan[i].poolIndex == x
      {
        var i := x - p.poolStartIndex;
        assert plan[i].poolIndex == x;
      }
    }
  }

  /** Every flight of a launch is over before the liquid pool's lock, opened by the same launch, ends. */
  lemma LockOutlastsFlights(p: LaunchPayload, targets: seq<Option<nat>>, poolFill: map<int, string>, now: int, first: nat)
    ensures var plan := Animation.Plan(p, targets, poolFill, now, first);
            forall i :: 0 <= i < |plan| ==> Animation.EndsAt(plan[i]) < now + LiquidPoolView.LockMs(p.count)
  {
    var plan := Animation.Plan(p, targets, poolFill, now, first);
    forall i | 0 <= i < |plan|
      ensures Animation.EndsAt(plan[i]) < now + LiquidPoolView.LockMs(p.count)
    {
      assert i <= LiquidPoolView.LaunchUnits(p.count) - 1;
      StaggerBound(i, LiquidPoolView.LaunchUnits(p.count) - 1);
    }
  }

  /** Every window event of a launch fires before the liquid pool's lock, opened by the same launch, ends. */
  lemma LockOutlastsEvents(p: LaunchPayload, targets: seq<Option<nat>>, now: int)
    ensures var n := Animation.Units(p, targets);
            var ev := Animation.Schedule(p, targets, now, n);
            forall k :: 0 <= k < |ev| ==> now <= ev[k].at < now + LiquidPoolView.LockMs(p.count)
  {
    var n := Animation.Units(p, targets);
    var ev := Animation.Schedule(p, targets, now, n);
    forall k | 0 <= k < |ev|
      ensures now <= ev[k].at < now + LiquidPoolView.LockMs(p.count)
    {
      var i := k / 3;
      Animation.ScheduleAt(p, targets, now, n, i);
      assert k == 3 * i || k == 3 * i + 1 || k == 3 * i + 2;
      StaggerBound(i, LiquidPoolView.LaunchUnits(p.count) - 1);
    }
  }

  /** `60 i <= 60 (u - 1)` for `i <= u - 1`. */
  lemma StaggerBound(i: int, last: int)
    requires 0 <= i <= last
    ensures i * Animation.StaggerMs <= last * LiquidPoolView.LockPerUnitMs
  {
  }

  /**
   * With nothing in flight, a diamond large enough for the vote shows
   * exactly as many circles in the vote colour as the vote costs in
   * credits.
   */
  lemma DiamondShowsCost(qs: seq<Ledger.Question>, id: int, r: int, m: nat, pal: DiamondView.Palette)
    requires id >= 0 && Ledger.VoteOf(qs, id) != 0
    requires pal.positive != pal.neutral && pal.negative != pal.neutral
    requires DiamondView.VoteLevel(qs, id) <= m
    ensures var v, vc := DiamondView.VoteLevel(qs, id), DiamondView.VoteColor(qs, id, pal);
            DiamondView.CountFilled(Geometry.Layout(id, r, m), v, vc, pal.neutral, DiamondView.Marks({}, {}), vc)
              == Ledger.Square(Ledger.VoteOf(qs, id))
  {
    var v, vc := DiamondView.VoteLevel(qs, id), DiamondView.VoteColor(qs, id, pal);
    DiamondView.ColouredCount(id, r, m, v, vc, pal.neutral);
    Ledger.SquareAbs(Ledger.VoteOf(qs, id));
  }

  /** The pool shows in the credit colour exactly the credits the ledger has spent. */
  lemma PoolShowsSpent(qs: seq<Ledger.Question>, credits: nat, reverse: bool)
    requires Ledger.UsedCredits(qs) <= credits
    ensures PoolView.CountUsed(credits, credits, Ledger.UsedCredits(qs), reverse) == Ledger.UsedCredits(qs)
  {
    PoolView.UsedCount(credits, Ledger.UsedCredits(qs), reverse);
  }
}
