/**
 * The pool: one circle per credit in a grid, the used credits filled with
 * the credit colour from the top (or, reversed, from the bottom), and the
 * circles with a unit in flight held in the credit colour until it
 * settles. The component tracks the pool indices with a unit arriving and
 * those with a unit departing.
 */
module PoolView {
  import opened Wrappers
  import opened Text
  import opened Bus

  const DefaultColumns := 5
  const DefaultRadius := 4
  const DefaultSpacing := 4

  /** The in-flight marks of the pool, by pool index. */
  datatype PoolMarks = PoolMarks(arriving: set<int>, departing: set<int>)

  /** The props of the grid and of its colours. */
  datatype PoolProps = PoolProps(columns: int, radius: int, spacing: int, reverse: bool, creditColor: string, circleColor: string)

  const DefaultProps := PoolProps(DefaultColumns, DefaultRadius, DefaultSpacing, false, "black", "grey")

  /** One `<circle>` of the pool: its `id`, its React `key`, centre, radius and fill. */
  datatype PoolCircle = PoolCircle(id: string, key: int, cx: int, cy: int, r: int, fill: string)

  // ---------------------------------------------------------------------------
  // Pure rules
  // ---------------------------------------------------------------------------

  /** `reverse ? i >= credits - usedCredits : i < usedCredits`. */
  predicate IsUsed(i: int, credits: int, used: int, reverse: bool) {
    if reverse then i >= credits - used else i < used
  }

  /** The credit colour while a unit is in flight at the circle, else by whether the credit is used. */
  function PoolFill(i: int, used: bool, props: PoolProps, m: PoolMarks): (f: string)
    ensures f == props.creditColor || f == props.circleColor
    ensures f == props.circleColor && props.creditColor != props.circleColor ==> !used && i !in m.arriving && i !in m.departing
  {
    var fill := if used then props.creditColor else props.circleColor;
    var fill := if i in m.arriving then props.creditColor else fill;
    if i in m.departing then props.creditColor else fill
  }

  function PoolId(i: nat): string {
    "pool-" + NatToString(i)
  }

  /** Circle `i` of the grid: column `i mod columns`, row `i div columns`, one pitch of `2r + spacing` apart. */
  function PoolCircleAt(i: nat, credits: int, used: int, props: PoolProps, m: PoolMarks): PoolCircle
    requires props.columns > 0
  {
    var pitch := props.radius * 2 + props.spacing;
    var column, row := i % props.columns, i / props.columns;
    PoolCircle(PoolId(i), i, column * pitch + props.radius, row * pitch + props.radius, props.radius,
               PoolFill(i, IsUsed(i, credits, used, props.reverse), props, m))
  }

  // ---------------------------------------------------------------------------
  // The grid loop
  // ---------------------------------------------------------------------------

  /** The `circles` memo: one circle per credit, `used` being `credits - availableCredits`. */
  method Circles(credits: int, used: int, props: PoolProps, m: PoolMarks) returns (cs: seq<PoolCircle>)
    requires props.columns > 0
    ensures |cs| == if credits > 0 then credits else 0
    ensures forall i :: 0 <= i < |cs| ==> cs[i] == PoolCircleAt(i, credits, used, props, m)
  {
    cs := [];
    var i := 0;
    while i < credits
      invariant 0 <= i && (credits > 0 ==> i <= credits) && (credits <= 0 ==> i == 0)
      invariant |cs| == i
      invariant forall k :: 0 <= k < i ==> cs[k] == PoolCircleAt(k, credits, used, props, m)
    {
      var column := i % props.columns;
      var row := i / props.columns;
      var cx := column * (props.radius * 2 + props.spacing) + props.radius;
      var cy := row * (props.radius * 2 + props.spacing) + props.radius;
      var isUsedCredit := if props.reverse then i >= credits - used else i < used;
      var fillColor := if isUsedCredit then props.creditColor else props.circleColor;
      if i in m.arriving { fillColor := props.creditColor; }
      if i in m.departing { fillColor := props.creditColor; }
      cs := cs + [PoolCircle(PoolId(i), i, cx, cy, props.radius, fillColor)];
      i := i + 1;
    }
  }

  // ---------------------------------------------------------------------------
  // Properties of the grid
  // ---------------------------------------------------------------------------

  /** No two pool circles share an `id`. */
  lemma PoolIdsDistinct(i: nat, j: nat)
    requires i != j
    ensures PoolId(i) != PoolId(j)
  {
    if PoolId(i) == PoolId(j) {
      var p := "pool-";
      assert NatToString(i) == PoolId(i)[|p|..];
      assert NatToString(j) == PoolId(j)[|p|..];
      NatToStringInjective(i, j);
    }
  }

  /** With a positive pitch no two circles of the grid share a centre. */
  lemma PositionsDistinct(i: nat, j: nat, credits: int, used: int, props: PoolProps, m: PoolMarks)
    requires props.columns > 0 && props.radius * 2 + props.spacing > 0 && i != j
    ensures var a, b := PoolCircleAt(i, credits, used, props, m), PoolCircleAt(j, credits, used, props, m);
            a.cx != b.cx || a.cy != b.cy
  {
    var c, d := props.columns, props.radius * 2 + props.spacing;
    var ci, cj, ri, rj := i % c, j % c, i / c, j / c;
    assert i == ri * c + ci && j == rj * c + cj;
    if ci == cj {
      assert ri != rj;
      ScaleInjective(ri, rj, d);
    } else {
      ScaleInjective(ci, cj, d);
    }
  }

  lemma ScaleInjective(a: int, b: int, d: int)
    requires d > 0 && a != b
    ensures a * d != b * d
  {
    if a < b { assert a * d < b * d by { assert (b - a) * d > 0; } }
    else { assert b * d < a * d by { assert (a - b) * d > 0; } }
  }

  /** How many of the circles `0..n-1` are used. */
  function CountUsed(n: nat, credits: int, used: int, reverse: bool): nat {
    if n == 0 then 0 else CountUsed(n - 1, credits, used, reverse) + (if IsUsed(n - 1, credits, used, reverse) then 1 else 0)
  }

  /** Exactly `used` circles are marked used, from the top or from the bottom. */
  lemma UsedCount(credits: nat, used: int, reverse: bool)
    requires 0 <= used <= credits
    ensures CountUsed(credits, credits, used, reverse) == used
  {
    if reverse {
      UsedCountFrom(credits, credits, used, credits - used);
    } else {
      UsedCountUpTo(credits, credits, used);
    }
  }

  lemma {:induction false} UsedCountUpTo(n: nat, credits: int, used: int)
    requires 0 <= used <= n
    ensures CountUsed(n, credits, used, false) == used
    decreases n
  {
    if n > 0 {
      if n - 1 < used {
        assert used == n;
        CountBelow(n - 1, credits, used);
      } else {
        UsedCountUpTo(n - 1, credits, used);
      }
    }
  }

  /** Every circle below `used` is used in the normal order. */
  lemma {:induction false} CountBelow(n: nat, credits: int, used: int)
    requires n <= used
    ensures CountUsed(n, credits, used, false) == n
    decreases n
  {
    if n > 0 { CountBelow(n - 1, credits, used); }
  }

  lemma {:induction false} UsedCountFrom(n: nat, credits: int, used: int, start: int)
    requires start == credits - used && 0 <= start <= n
    ensures CountUsed(n, credits, used, true) == n - start
    decreases n
  {
    if n > start {
      UsedCountFrom(n - 1, credits, used, start);
    } else if n > 0 {
      NoneBelowStart(n, credits, used, start);
    }
  }

  /** In the reversed order, no circle below `credits - used` is used. */
  lemma {:induction false} NoneBelowStart(n: nat, credits: int, used: int, start: int)
    requires start == credits - used && n <= start
    ensures CountUsed(n, credits, used, true) == 0
    decreases n
  {
    if n > 0 { NoneBelowStart(n - 1, credits, used, start); }
  }

  /** With nothing used and nothing in flight, every circle takes the circle colour. */
  lemma NothingUsedAllCircleColor(i: nat, credits: int, props: PoolProps)
    requires props.columns > 0 && i < credits
    ensures PoolCircleAt(i, credits, 0, props, PoolMarks({}, {})).fill == props.circleColor
  {
  }

  /**
   * In the normal order, going from `prev` to `next` used credits flips from
   * unused to used exactly the circles `prev .. next - 1`.
   */
  lemma FlippedByIncrease(i: int, credits: int, prev: int, next: int)
    requires prev <= next
    ensures !IsUsed(i, credits, prev, false) && IsUsed(i, credits, next, false) <==> prev <= i < next
  {
  }

  // ---------------------------------------------------------------------------
  // The in-flight marks
  // ---------------------------------------------------------------------------

  /** The `qv:anim` handler on the pool's marks. */
  function PoolStarted(m: PoolMarks, d: AnimDetail): (r: PoolMarks)
    ensures d.poolIndex.None? || d.phase != Start ==> r == m
    ensures d.poolIndex.Some? && d.phase == Start && d.direction == ToDiamond ==>
              r == PoolMarks(m.arriving, m.departing + {d.poolIndex.value})
    ensures d.poolIndex.Some? && d.phase == Start && d.direction == ToPool ==>
              r == PoolMarks(m.arriving + {d.poolIndex.value}, m.departing)
  {
    match d.poolIndex
    case None => m
    case Some(idx) =>
      if d.direction == ToDiamond && d.phase == Start then PoolMarks(m.arriving, m.departing + {idx})
      else if d.direction == ToPool && d.phase == Start then PoolMarks(m.arriving + {idx}, m.departing)
      else m
  }

  /** The `qv:anim-pool` handler on the pool's marks; the phase is not looked at. */
  function PoolEnded(m: PoolMarks, d: PoolEndDetail): (r: PoolMarks)
    ensures d.poolIndex.None? ==> r == m
    ensures d.poolIndex.Some? && d.direction == ToDiamond ==> r == PoolMarks(m.arriving, m.departing - {d.poolIndex.value})
    ensures d.poolIndex.Some? && d.direction == ToPool ==> r == PoolMarks(m.arriving - {d.poolIndex.value}, m.departing)
  {
    match d.poolIndex
    case None => m
    case Some(idx) =>
      match d.direction
      case ToDiamond => PoolMarks(m.arriving, m.departing - {idx})
      case ToPool => PoolMarks(m.arriving - {idx}, m.departing)
  }

  /** The pool component's state. */
  class Pool {
    var arriving: set<int>
    var departing: set<int>

    constructor ()
      ensures arriving == {} && departing == {}
    {
      arriving := {};
      departing := {};
    }

    method OnAnim(d: AnimDetail)
      modifies this
      ensures PoolMarks(arriving, departing) == PoolStarted(old(PoolMarks(arriving, departing)), d)
    {
      if d.poolIndex.None? {
        return;
      }
      var idx := d.poolIndex.value;
      if d.direction == ToDiamond && d.phase == Start {
        departing := departing + {idx};
      } else if d.direction == ToPool && d.phase == Start {
        arriving := arriving + {idx};
      }
    }

    method OnAnimPool(d: PoolEndDetail)
      modifies this
      ensures PoolMarks(arriving, departing) == PoolEnded(old(PoolMarks(arriving, departing)), d)
    {
      if d.poolIndex.None? {
        return;
      }
      var idx := d.poolIndex.value;
      if d.direction == ToDiamond {
        departing := departing - {idx};
      } else if d.direction == ToPool {
        arriving := arriving - {idx};
      }
    }
  }

  /**
   * A unit leaving pool circle `i` for a diamond: from its start until its
   * early settle the circle shows the credit colour, and the settle restores
   * the marks.
   */
  lemma DepartureRoundTrip(m: PoolMarks, i: nat, credits: int, used: int, props: PoolProps, diamondId: int, level: int, ai: int)
    requires props.columns > 0 && i !in m.departing
    ensures var during := PoolStarted(m, AnimDetail(Start, ToDiamond, diamondId, level, ai, Some(i)));
            && PoolCircleAt(i, credits, used, props, during).fill == props.creditColor
            && PoolEnded(during, PoolEndDetail(End, ToDiamond, Some(i))) == m
  {
    var during := PoolStarted(m, AnimDetail(Start, ToDiamond, diamondId, level, ai, Some(i)));
    assert during.departing - {i} == m.departing;
  }

  /** A unit returning to pool circle `i`: the circle shows the credit colour until it lands, and landing restores the marks. */
  lemma ArrivalRoundTrip(m: PoolMarks, i: nat, credits: int, used: int, props: PoolProps, diamondId: int, level: int, ai: int)
    requires props.columns > 0 && i !in m.arriving
    ensures var during := PoolStarted(m, AnimDetail(Start, ToPool, diamondId, level, ai, Some(i)));
            && PoolCircleAt(i, credits, used, props, during).fill == props.creditColor
            && PoolEnded(during, PoolEndDetail(End, ToPool, Some(i))) == m
  {
    var during := PoolStarted(m, AnimDetail(Start, ToPool, diamondId, level, ai, Some(i)));
    assert during.arriving - {i} == m.arriving;
  }
}
