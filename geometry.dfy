/**
 * The two layout helpers of the widget: `createDiamond`, which lays out the
 * circles of a question's diamond level by level in a zig-zag, and
 * `setViewBox`, which folds a list of circles into their bounding box.
 * Coordinates are integers: the radius is an integer in every use.
 */
module Geometry {
  import opened Wrappers
  import opened Arith
  import opened Text

  /**
   * One `<circle>` of a diamond: its React key, radius, centre, `data-level`
   * and `data-ai` attributes. `level` is the loop's level, the number written
   * after the dash in `dataLevel`.
   */
  datatype Circle = Circle(key: string, r: int, cx: int, cy: int, dataLevel: string, ai: nat, level: nat)

  // ---------------------------------------------------------------------------
  // The closed form of the diamond
  // ---------------------------------------------------------------------------

  /** Number of levels: the largest `m` with `m * m <= credits` (0 when there is none). */
  function MaxLevel(credits: int): nat {
    if credits < 1 then 0 else LevelsFrom(credits, 1)
  }

  /** The last level `L' >= L - 1` for which every level up to `L'` fits in `credits`. */
  function LevelsFrom(credits: int, L: nat): nat
    requires 1 <= L && (L - 1) * (L - 1) <= credits
    decreases credits - L + 1
  {
    if L * L > credits then L - 1
    else
      assert L <= L * L;
      LevelsFrom(credits, L + 1)
  }

  /** Ceiling of half of `ai`: how many steps right the zig-zag has taken. */
  function HalfUp(ai: nat): nat {
    (ai + 1) / 2
  }

  /** Horizontal centre of circle `ai` of level `L`. */
  function Cx(r: int, L: int, ai: nat): int {
    -4 * r * L + 2 * r * HalfUp(ai)
  }

  /** Vertical centre of circle `ai`: 0, then alternately above and below, one step further each time. */
  function Cy(r: int, ai: nat): int {
    if ai % 2 == 1 then -(2 * r * HalfUp(ai)) else 2 * r * (ai / 2)
  }

  function DataLevel(id: int, L: nat): string {
    IntToString(id) + "-" + NatToString(L)
  }

  /** The React key `diamond-<id>-<L>-<ai>`, read as a per-diamond prefix and a level/index pair. */
  function Key(id: int, L: nat, ai: nat): string {
    KeyPrefix(id) + LevelIndex(L, ai)
  }

  function KeyPrefix(id: int): string {
    "diamond-" + IntToString(id) + "-"
  }

  function LevelIndex(L: nat, ai: nat): string {
    NatToString(L) + "-" + NatToString(ai)
  }

  /** The circle `ai` of level `L`, as the closed form places it. */
  function Expected(id: int, r: int, L: nat, ai: nat): Circle {
    Circle(Key(id, L, ai), r, Cx(r, L, ai), Cy(r, ai), DataLevel(id, L), ai, L)
  }

  /** The first `n` circles of level `L`. */
  function LevelPrefix(id: int, r: int, L: nat, n: nat): seq<Circle> {
    seq(n, ai requires 0 <= ai < n => Expected(id, r, L, ai))
  }

  /** Levels `1..m`, each level `L` holding its `2 * L - 1` circles. */
  function Layout(id: int, r: int, m: nat): seq<Circle> {
    if m == 0 then [] else Layout(id, r, m - 1) + LevelPrefix(id, r, m, 2 * m - 1)
  }

  // ---------------------------------------------------------------------------
  // createDiamond
  // ---------------------------------------------------------------------------

  /** `createDiamond(id, credits, radius)`: the outer loop over the levels; `AddLevel` is its inner loop. */
  method CreateDiamond(id: int, credits: int, radius: nat) returns (circles: seq<Circle>)
    ensures circles == Layout(id, radius, MaxLevel(credits))
  {
    circles := [];
    var level: nat := 1;
    while level * level <= credits
      invariant 1 <= level && (level == 1 || (level - 1) * (level - 1) <= credits)
      invariant circles == Layout(id, radius, level - 1)
      decreases credits - level
    {
      assert level <= level * level;
      circles := AddLevel(id, radius, level, circles);
      level := level + 1;
    }
    MaxLevelIs(credits, level - 1);
  }

  /** The inner loop of `createDiamond`: the `2 * level - 1` circles of one level, zig-zagging from the left. */
  method AddLevel(id: int, radius: nat, level: nat, circles: seq<Circle>) returns (out: seq<Circle>)
    requires level >= 1
    ensures out == circles + LevelPrefix(id, radius, level, 2 * level - 1)
  {
    out := circles;
    var cx: int := -(radius as int) * 4 * level;
    var cy: int := 0;
    var numCirclesAtLevel := 2 * level - 1;
    var ai: nat := 0;
    while ai < numCirclesAtLevel
      invariant ai <= numCirclesAtLevel
      invariant cx == Cx(radius, level, ai) && cy == Cy(radius, ai)
      invariant out == circles + LevelPrefix(id, radius, level, ai)
    {
      out := out + [Circle(Key(id, level, ai), radius, cx, cy, DataLevel(id, level), ai, level)];
      LevelPrefixSnoc(id, radius, level, ai);
      ZigZagStep(radius, level, ai);
      cx := cx + if ai % 2 == 0 then radius * 2 else 0;
      cy := if ai % 2 == 0 then -(Abs(cy) as int) - radius * 2 else Abs(cy);
      ai := ai + 1;
    }
  }

  lemma LevelPrefixSnoc(id: int, r: int, L: nat, n: nat)
    ensures LevelPrefix(id, r, L, n + 1) == LevelPrefix(id, r, L, n) + [Expected(id, r, L, n)]
  {
  }

  /** One pass of the inner loop's update moves the centre to the closed form's next circle. */
  lemma ZigZagStep(r: nat, L: int, ai: nat)
    ensures Cx(r, L, ai + 1) == Cx(r, L, ai) + (if ai % 2 == 0 then r * 2 else 0)
    ensures Cy(r, ai + 1) == if ai % 2 == 0 then -(Abs(Cy(r, ai)) as int) - r * 2 else Abs(Cy(r, ai))
  {
    var q := ai / 2;
    if ai % 2 == 0 {
      assert HalfUp(ai) == q && HalfUp(ai + 1) == q + 1;
      assert 2 * r * (q + 1) == 2 * r * q + 2 * r;
      assert Cy(r, ai) == 2 * r * q && 2 * r * q >= 0;
    } else {
      assert HalfUp(ai) == q + 1 && HalfUp(ai + 1) == q + 1 && (ai + 1) / 2 == q + 1;
      assert Cy(r, ai) == -(2 * r * (q + 1)) && 2 * r * (q + 1) >= 0;
    }
  }

  /** Squares of natural numbers grow strictly. */
  lemma SquareGrows(a: nat, b: nat)
    requires a < b
    ensures a * a < b * b
  {
    assert a * a <= a * b;
    assert a * b < b * b;
  }

  /** `MaxLevel` is characterised by `m * m <= credits < (m + 1) * (m + 1)`. */
  lemma MaxLevelIs(credits: int, m: nat)
    requires m == 0 || m * m <= credits
    requires credits < (m + 1) * (m + 1)
    ensures MaxLevel(credits) == m
  {
    if credits >= 1 {
      assert m >= 1;
      LevelsFromIs(credits, 1, m);
    }
  }

  lemma {:induction false} LevelsFromIs(credits: int, L: nat, m: nat)
    requires 1 <= L <= m + 1 && (L - 1) * (L - 1) <= credits
    requires m * m <= credits < (m + 1) * (m + 1)
    ensures LevelsFrom(credits, L) == m
    decreases m + 1 - L
  {
    if L * L > credits {
      if L <= m { SquareGrows(L - 1, m); if L < m { SquareGrows(L, m); } }
    } else {
      assert L <= m;
      LevelsFromIs(credits, L + 1, m);
    }
  }

  /** `MaxLevel(credits)` is the integer square root of `credits`. */
  lemma MaxLevelBounds(credits: int)
    ensures var m := MaxLevel(credits);
            (credits >= 0 ==> m * m <= credits) && credits < (m + 1) * (m + 1)
  {
    if credits >= 1 {
      LevelsFromBounds(credits, 1);
    }
  }

  lemma {:induction false} LevelsFromBounds(credits: int, L: nat)
    requires 1 <= L && (L - 1) * (L - 1) <= credits
    ensures var m := LevelsFrom(credits, L);
            m * m <= credits < (m + 1) * (m + 1)
    decreases credits - L + 1
  {
    if L * L <= credits {
      assert L <= L * L;
      LevelsFromBounds(credits, L + 1);
    }
  }

  // ---------------------------------------------------------------------------
  // Properties of the layout
  // ---------------------------------------------------------------------------

  /** A diamond of `m` levels has `m * m` circles. */
  lemma {:induction false} LayoutSize(id: int, r: int, m: nat)
    ensures |Layout(id, r, m)| == m * m
  {
    if m > 0 {
      LayoutSize(id, r, m - 1);
      assert (m - 1) * (m - 1) + 2 * m - 1 == m * m;
    }
  }

  /**
   * Circle `j` of the layout is circle `ai` of level `L`, where level `L`
   * starts at `(L - 1) * (L - 1)`: levels come in order, each holding its
   * `2 * L - 1` circles with `ai` running from 0.
   */
  lemma {:induction false} LayoutAt(id: int, r: int, m: nat, j: nat)
    requires j < |Layout(id, r, m)|
    ensures var c := Layout(id, r, m)[j];
            && 1 <= c.level <= m && c.ai < 2 * c.level - 1
            && j == (c.level - 1) * (c.level - 1) + c.ai
            && c == Expected(id, r, c.level, c.ai)
  {
    LayoutSize(id, r, m - 1);
    var prev := Layout(id, r, m - 1);
    if j < |prev| {
      LayoutAt(id, r, m - 1, j);
      assert Layout(id, r, m)[j] == prev[j];
    } else {
      assert Layout(id, r, m)[j] == LevelPrefix(id, r, m, 2 * m - 1)[j - |prev|];
    }
  }

  /** Level `L` occupies the indices from `(L - 1) * (L - 1)` up to, not including, `L * L`. */
  lemma LevelRange(L: nat)
    requires L >= 1
    ensures (L - 1) * (L - 1) + 2 * L - 1 == L * L
  {
  }

  lemma SquareMono(a: nat, b: nat)
    requires a <= b
    ensures a * a <= b * b
  {
    assert a * a <= a * b <= b * b;
  }

  /** An index falls in one level only, at one offset only. */
  lemma IndexLevel(L: nat, ai: nat, L': nat, ai': nat)
    requires 1 <= L && ai < 2 * L - 1 && 1 <= L' && ai' < 2 * L' - 1
    requires (L - 1) * (L - 1) + ai <= (L' - 1) * (L' - 1) + ai'
    ensures L <= L'
    ensures (L - 1) * (L - 1) + ai == (L' - 1) * (L' - 1) + ai' ==> L == L' && ai == ai'
  {
    LevelRange(L);
    LevelRange(L');
    if L' < L { SquareMono(L', L - 1); }
    if L < L' { SquareMono(L, L' - 1); }
  }

  /** Circles of a diamond appear by non-decreasing level. */
  lemma LevelsAscend(id: int, r: int, m: nat, i: nat, j: nat)
    requires i <= j < |Layout(id, r, m)|
    ensures Layout(id, r, m)[i].level <= Layout(id, r, m)[j].level
  {
    LayoutAt(id, r, m, i);
    LayoutAt(id, r, m, j);
    var a, b := Layout(id, r, m)[i], Layout(id, r, m)[j];
    IndexLevel(a.level, a.ai, b.level, b.ai);
  }

  /** Every level `L` of `1..m` holds exactly the circles `ai = 0 .. 2L-2`. */
  lemma LevelContents(id: int, r: int, m: nat, L: nat, ai: nat)
    requires 1 <= L <= m && ai < 2 * L - 1
    ensures var j := (L - 1) * (L - 1) + ai;
            j < |Layout(id, r, m)| && Layout(id, r, m)[j] == Expected(id, r, L, ai)
  {
    var j := (L - 1) * (L - 1) + ai;
    var all := Layout(id, r, m);
    assert j < |all| by {
      LayoutSize(id, r, m);
      LevelRange(L);
      SquareMono(L, m);
    }
    LayoutAt(id, r, m, j);
    var c := all[j];
    var k := (c.level - 1) * (c.level - 1) + c.ai;
    assert j == k;
    IndexLevel(L, ai, c.level, c.ai);
  }

  /** The key names the level and the index: equal keys mean the same circle slot. */
  lemma KeyInjective(id: int, L: nat, ai: nat, L': nat, ai': nat)
    requires Key(id, L, ai) == Key(id, L', ai')
    ensures L == L' && ai == ai'
  {
    var p, x, y := KeyPrefix(id), LevelIndex(L, ai), LevelIndex(L', ai');
    assert x == (p + x)[|p|..];
    assert y == (p + y)[|p|..];
    DashPairInjective(L, ai, L', ai');
  }

  /** All keys of a diamond are distinct, as React requires. */
  lemma KeysDistinct(id: int, r: int, m: nat, i: nat, j: nat)
    requires i < j < |Layout(id, r, m)|
    ensures Layout(id, r, m)[i].key != Layout(id, r, m)[j].key
  {
    LayoutAt(id, r, m, i);
    LayoutAt(id, r, m, j);
    var a, b := Layout(id, r, m)[i], Layout(id, r, m)[j];
    if a.key == b.key {
      KeyInjective(id, a.level, a.ai, b.level, b.ai);
    }
  }

  /** How many of `cs` lie on a level up to `v`. */
  function CountUpTo(cs: seq<Circle>, v: nat): nat {
    if |cs| == 0 then 0 else CountUpTo(cs[..|cs| - 1], v) + (if cs[|cs| - 1].level <= v then 1 else 0)
  }

  /** When exactly the first `n` circles lie on a level up to `v`, there are `n` of them. */
  lemma {:induction false} CountUpToPrefix(cs: seq<Circle>, v: nat, n: nat)
    requires n <= |cs|
    requires forall j :: 0 <= j < |cs| ==> (cs[j].level <= v <==> j < n)
    ensures CountUpTo(cs, v) == n
    decreases |cs|
  {
    if |cs| > 0 {
      var init := cs[..|cs| - 1];
      assert forall j :: 0 <= j < |init| ==> init[j] == cs[j];
      if n == |cs| {
        CountUpToPrefix(init, v, n - 1);
      } else {
        CountUpToPrefix(init, v, n);
      }
    }
  }

  /** Circle `j` of an `m`-level layout is on a level up to `v` exactly when `j < min(v, m)²`. */
  lemma LayoutLevelUpTo(id: int, r: int, m: nat, v: nat, j: nat)
    requires j < |Layout(id, r, m)|
    ensures Layout(id, r, m)[j].level <= v <==> j < Min(v, m) * Min(v, m)
  {
    LayoutAt(id, r, m, j);
    var c := Layout(id, r, m)[j];
    var k := Min(v, m);
    LevelRange(c.level);
    if c.level <= v {
      SquareMono(c.level, k);
    } else {
      SquareMono(k, c.level - 1);
    }
  }

  /** An `m`-level layout has `min(v, m)²` circles on the levels up to `v`: the levels `1..min(v, m)`. */
  lemma LayoutUpTo(id: int, r: int, m: nat, v: nat)
    ensures CountUpTo(Layout(id, r, m), v) == Min(v, m) * Min(v, m)
  {
    var cs, k := Layout(id, r, m), Min(v, m);
    LayoutSize(id, r, m);
    SquareMono(k, m);
    forall j | 0 <= j < |cs|
      ensures cs[j].level <= v <==> j < k * k
    {
      LayoutLevelUpTo(id, r, m, v, j);
    }
    CountUpToPrefix(cs, v, k * k);
  }

  // ---------------------------------------------------------------------------
  // setViewBox
  // ---------------------------------------------------------------------------

  /** The three props `setViewBox` reads from a circle; any of them may be missing. */
  datatype Disc = Disc(cx: Option<int>, cy: Option<int>, r: Option<int>)

  datatype Box = Box(x: int, y: int, width: int, height: int)

  predicate Complete(d: Disc) {
    d.cx.Some? && d.cy.Some? && d.r.Some?
  }

  function Left(d: Disc): int requires Complete(d) { d.cx.value - d.r.value }
  function Right(d: Disc): int requires Complete(d) { d.cx.value + d.r.value }
  function Top(d: Disc): int requires Complete(d) { d.cy.value - d.r.value }
  function Bottom(d: Disc): int requires Complete(d) { d.cy.value + d.r.value }

  datatype Side = West | East | North | South

  /** The coordinate of a complete disc's edge on side `s`. */
  function Edge(d: Disc, s: Side): int
    requires Complete(d)
  {
    match s
    case West => Left(d)
    case East => Right(d)
    case North => Top(d)
    case South => Bottom(d)
  }

  /** Every complete disc lies inside the box. */
  predicate Inside(b: Box, ds: seq<Disc>) {
    forall j :: 0 <= j < |ds| && Complete(ds[j]) ==>
      b.x <= Left(ds[j]) && Right(ds[j]) <= b.x + b.width && b.y <= Top(ds[j]) && Bottom(ds[j]) <= b.y + b.height
  }

  /** Some complete disc has its edge on side `s` at `v`. */
  predicate Touches(ds: seq<Disc>, s: Side, v: int) {
    exists j :: 0 <= j < |ds| && Complete(ds[j]) && Edge(ds[j], s) == v
  }

  /** The box holds every complete disc and each of its four edges touches one of them. */
  predicate Encloses(b: Box, ds: seq<Disc>) {
    && Inside(b, ds)
    && Touches(ds, West, b.x) && Touches(ds, East, b.x + b.width)
    && Touches(ds, North, b.y) && Touches(ds, South, b.y + b.height)
  }

  /**
   * `setViewBox(circles)`: the running minima and maxima of the circles'
   * edges. `found` is false while the bounds are still at their infinite
   * start; a list with no complete circle gives no box.
   */
  method SetViewBox(discs: seq<Disc>) returns (box: Option<Box>)
    ensures box.None? <==> NoComplete(discs)
    ensures box.Some? ==> Encloses(box.value, discs)
    ensures box.Some? && (forall j :: 0 <= j < |discs| && Complete(discs[j]) ==> discs[j].r.value >= 0) ==>
              box.value.width >= 0 && box.value.height >= 0
  {
    var found := false;
    var minX, minY, maxX, maxY := 0, 0, 0, 0;
    var i := 0;
    while i < |discs|
      invariant i <= |discs|
      invariant Running(discs[..i], found, minX, minY, maxX, maxY)
    {
      var d := discs[i];
      assert discs[..i + 1] == discs[..i] + [d];
      RunningStep(discs[..i], d, found, minX, minY, maxX, maxY);
      if Complete(d) {
        var left, right, top, bottom := Left(d), Right(d), Top(d), Bottom(d);
        if !found {
          minX, minY, maxX, maxY := left, top, right, bottom;
        } else {
          minX, minY := Min(minX, left), Min(minY, top);
          maxX, maxY := Max(maxX, right), Max(maxY, bottom);
        }
        found := true;
      }
      i := i + 1;
    }
    assert discs[..i] == discs;
    if found {
      box := Some(Box(minX, minY, maxX - minX, maxY - minY));
      EnclosesWidth(box.value, discs);
    } else {
      box := None;
    }
  }

  /** The loop state of `setViewBox` over the discs seen so far: bounds exist exactly once a complete disc was seen, and then enclose them. */
  predicate Running(ds: seq<Disc>, found: bool, minX: int, minY: int, maxX: int, maxY: int) {
    && (!found <==> NoComplete(ds))
    && (found ==> Encloses(Box(minX, minY, maxX - minX, maxY - minY), ds))
  }

  /** One more disc: the first complete one sets the bounds, later ones widen them, incomplete ones are skipped. */
  lemma RunningStep(ds: seq<Disc>, d: Disc, found: bool, minX: int, minY: int, maxX: int, maxY: int)
    requires Running(ds, found, minX, minY, maxX, maxY)
    ensures Complete(d) && !found ==> Running(ds + [d], true, Left(d), Top(d), Right(d), Bottom(d))
    ensures Complete(d) && found ==>
              Running(ds + [d], true, Min(minX, Left(d)), Min(minY, Top(d)), Max(maxX, Right(d)), Max(maxY, Bottom(d)))
    ensures !Complete(d) ==> Running(ds + [d], found, minX, minY, maxX, maxY)
  {
    NoCompleteSnoc(ds, d);
    if Complete(d) {
      if !found {
        EnclosesFirst(ds, d);
      } else {
        EnclosesAdd(ds, d, minX, minY, maxX, maxY);
      }
    } else if found {
      EnclosesSkip(ds, d, Box(minX, minY, maxX - minX, maxY - minY));
    }
  }

  predicate NoComplete(ds: seq<Disc>) {
    forall j :: 0 <= j < |ds| ==> !Complete(ds[j])
  }

  lemma NoCompleteSnoc(ds: seq<Disc>, d: Disc)
    ensures NoComplete(ds + [d]) <==> NoComplete(ds) && !Complete(d)
  {
    var e := ds + [d];
    assert e[|ds|] == d;
    forall j | 0 <= j < |ds| ensures e[j] == ds[j] { }
  }

  /** A disc appended to the list leaves every edge that was touched still touched. */
  lemma TouchesSnoc(ds: seq<Disc>, d: Disc, s: Side, v: int)
    requires Touches(ds, s, v)
    ensures Touches(ds + [d], s, v)
  {
    var j :| 0 <= j < |ds| && Complete(ds[j]) && Edge(ds[j], s) == v;
    assert (ds + [d])[j] == ds[j];
  }

  /** A complete disc appended to the list touches each of its own edges. */
  lemma TouchesLast(ds: seq<Disc>, d: Disc, s: Side)
    requires Complete(d)
    ensures Touches(ds + [d], s, Edge(d, s))
  {
    assert (ds + [d])[|ds|] == d;
  }

  /** The first complete disc alone fixes the box. */
  lemma EnclosesFirst(ds: seq<Disc>, d: Disc)
    requires NoComplete(ds)
    requires Complete(d)
    ensures Encloses(Box(Left(d), Top(d), Right(d) - Left(d), Bottom(d) - Top(d)), ds + [d])
  {
    var e := ds + [d];
    assert e[|ds|] == d;
    forall j | 0 <= j < |ds| ensures e[j] == ds[j] { }
    TouchesLast(ds, d, West);
    TouchesLast(ds, d, East);
    TouchesLast(ds, d, North);
    TouchesLast(ds, d, South);
  }

  /** Widening the running bounds by one more complete disc keeps them enclosing. */
  lemma EnclosesAdd(ds: seq<Disc>, d: Disc, minX: int, minY: int, maxX: int, maxY: int)
    requires Encloses(Box(minX, minY, maxX - minX, maxY - minY), ds)
    requires Complete(d)
    ensures var x, y := Min(minX, Left(d)), Min(minY, Top(d));
            Encloses(Box(x, y, Max(maxX, Right(d)) - x, Max(maxY, Bottom(d)) - y), ds + [d])
  {
    var x, y := Min(minX, Left(d)), Min(minY, Top(d));
    InsideAdd(ds, d, minX, minY, maxX, maxY);
    if Left(d) <= minX { TouchesLast(ds, d, West); } else { TouchesSnoc(ds, d, West, minX); }
    if Right(d) >= maxX { TouchesLast(ds, d, East); } else { TouchesSnoc(ds, d, East, maxX); }
    if Top(d) <= minY { TouchesLast(ds, d, North); } else { TouchesSnoc(ds, d, North, minY); }
    if Bottom(d) >= maxY { TouchesLast(ds, d, South); } else { TouchesSnoc(ds, d, South, maxY); }
  }

  /** The widened bounds still hold every disc, the new one included. */
  lemma InsideAdd(ds: seq<Disc>, d: Disc, minX: int, minY: int, maxX: int, maxY: int)
    requires Inside(Box(minX, minY, maxX - minX, maxY - minY), ds)
    requires Complete(d)
    ensures var x, y := Min(minX, Left(d)), Min(minY, Top(d));
            Inside(Box(x, y, Max(maxX, Right(d)) - x, Max(maxY, Bottom(d)) - y), ds + [d])
  {
    var e := ds + [d];
    assert e[|ds|] == d;
    forall j | 0 <= j < |ds| ensures e[j] == ds[j] { }
  }

  /** A disc with a missing prop is skipped. */
  lemma EnclosesSkip(ds: seq<Disc>, d: Disc, b: Box)
    requires Encloses(b, ds) && !Complete(d)
    ensures Encloses(b, ds + [d])
  {
    var e := ds + [d];
    forall j | 0 <= j < |ds| ensures e[j] == ds[j] { }
    TouchesSnoc(ds, d, West, b.x);
    TouchesSnoc(ds, d, East, b.x + b.width);
    TouchesSnoc(ds, d, North, b.y);
    TouchesSnoc(ds, d, South, b.y + b.height);
  }

  /** A box that encloses discs of non-negative radius has non-negative sides. */
  lemma EnclosesWidth(b: Box, ds: seq<Disc>)
    requires Encloses(b, ds)
    ensures (forall j :: 0 <= j < |ds| && Complete(ds[j]) ==> ds[j].r.value >= 0) ==> b.width >= 0 && b.height >= 0
  {
    var i :| 0 <= i < |ds| && Complete(ds[i]) && Edge(ds[i], West) == b.x;
    var k :| 0 <= k < |ds| && Complete(ds[k]) && Edge(ds[k], North) == b.y;
  }

  /** At most one box encloses a list of discs. */
  lemma EnclosesUnique(b: Box, b': Box, ds: seq<Disc>)
    requires Encloses(b, ds) && Encloses(b', ds)
    ensures b == b'
  {
    SideUnique(b, b', ds, West);
    SideUnique(b, b', ds, East);
    SideUnique(b, b', ds, North);
    SideUnique(b, b', ds, South);
  }

  /** The side `s` of a box. */
  function BoxEdge(b: Box, s: Side): int {
    match s
    case West => b.x
    case East => b.x + b.width
    case North => b.y
    case South => b.y + b.height
  }

  /** Two boxes that both enclose the discs have side `s` in the same place: each touches a disc the other holds. */
  lemma SideUnique(b: Box, b': Box, ds: seq<Disc>, s: Side)
    requires Inside(b, ds) && Inside(b', ds)
    requires Touches(ds, s, BoxEdge(b, s)) && Touches(ds, s, BoxEdge(b', s))
    ensures BoxEdge(b, s) == BoxEdge(b', s)
  {
    var i :| 0 <= i < |ds| && Complete(ds[i]) && Edge(ds[i], s) == BoxEdge(b, s);
    var i' :| 0 <= i' < |ds| && Complete(ds[i']) && Edge(ds[i'], s) == BoxEdge(b', s);
  }

  // ---------------------------------------------------------------------------
  // The view box of a diamond
  // ---------------------------------------------------------------------------

  /** The props `setViewBox` reads from the circles `createDiamond` made: all present. */
  function DiscsOf(cs: seq<Circle>): (ds: seq<Disc>)
    ensures |ds| == |cs|
    ensures forall j :: 0 <= j < |cs| ==> Complete(ds[j]) && ds[j] == Disc(Some(cs[j].cx), Some(cs[j].cy), Some(cs[j].r))
  {
    seq(|cs|, j requires 0 <= j < |cs| => Disc(Some(cs[j].cx), Some(cs[j].cy), Some(cs[j].r)))
  }

  /** The box of an `m`-level diamond of radius `r`, worked out by hand from the closed form. */
  function DiamondBox(r: int, m: int): Box {
    Box(-4 * r * m - r, -2 * r * (m - 1) - r, 4 * r * m - 2 * r, 4 * r * m - 2 * r)
  }

  /** `setViewBox(createDiamond(id, credits, radius))`. */
  method DiamondViewBox(id: int, credits: int, radius: nat) returns (box: Option<Box>)
    ensures MaxLevel(credits) == 0 ==> box == None
    ensures MaxLevel(credits) >= 1 ==> box == Some(DiamondBox(radius, MaxLevel(credits)))
  {
    var circles := CreateDiamond(id, credits, radius);
    box := SetViewBox(DiscsOf(circles));
    var m := MaxLevel(credits);
    if m >= 1 {
      DiamondEncloses(id, radius, m);
      EnclosesUnique(box.value, DiamondBox(radius, m), DiscsOf(circles));
    }
  }

  /** Every circle of level `L <= m` lies inside `DiamondBox(r, m)`. */
  lemma CircleInBox(r: nat, m: nat, L: nat, ai: nat)
    requires 1 <= L <= m && ai < 2 * L - 1
    ensures var b := DiamondBox(r, m);
            && b.x <= Cx(r, L, ai) - r && Cx(r, L, ai) + r <= b.x + b.width
            && b.y <= Cy(r, ai) - r && Cy(r, ai) + r <= b.y + b.height
  {
    var h, q := HalfUp(ai), ai / 2;
    var rL, rm, rh, rq := r * L, r * m, r * h, r * q;
    Regroup(r, L, h, q, m);
    ScaleMono(r, L, m);
    ScaleMono(r, h, L - 1);
    ScaleMono(r, q, L - 1);
    ScaleMono(r, 1, L);
  }

  /** `Cx`, `Cy` and `DiamondBox` written over the products `r * L`, `r * h`, `r * q`, `r * m`. */
  lemma Regroup(r: int, L: int, h: nat, q: nat, m: int)
    ensures -4 * r * L + 2 * r * h == -4 * (r * L) + 2 * (r * h)
    ensures 2 * r * h == 2 * (r * h) && 2 * r * q == 2 * (r * q)
    ensures -4 * r * m - r == -4 * (r * m) - r && 4 * r * m - 2 * r == 4 * (r * m) - 2 * r
    ensures -2 * r * (m - 1) - r == -2 * (r * m) + r
    ensures r * (L - 1) == r * L - r && r * 1 == r
  {
  }

  lemma ScaleMono(r: nat, a: int, b: int)
    requires a <= b
    ensures r * a <= r * b
  {
  }

  /** `DiamondBox(r, m)` encloses the diamond, each edge touching one of its circles. */
  lemma DiamondEncloses(id: int, r: nat, m: nat)
    requires m >= 1
    ensures Encloses(DiamondBox(r, m), DiscsOf(Layout(id, r, m)))
  {
    DiamondContains(id, r, m);
    DiamondEdges(id, r, m);
  }

  lemma DiamondEdges(id: int, r: nat, m: nat)
    requires m >= 1
    ensures var ds, b := DiscsOf(Layout(id, r, m)), DiamondBox(r, m);
            && Touches(ds, West, b.x) && Touches(ds, East, b.x + b.width)
            && Touches(ds, North, b.y) && Touches(ds, South, b.y + b.height)
  {
    var b := DiamondBox(r, m);
    var top: nat := if m == 1 then 0 else 2 * m - 3;
    var bottom: nat := 2 * m - 2;
    EdgeValues(r, m);
    CircleTouches(id, r, m, m, 0, West, b.x);
    CircleTouches(id, r, m, 1, 0, East, b.x + b.width);
    CircleTouches(id, r, m, m, top, North, b.y);
    CircleTouches(id, r, m, m, bottom, South, b.y + b.height);
  }

  /** Circle `ai` of level `L` touches side `s` of a box that has that side at its edge. */
  lemma CircleTouches(id: int, r: nat, m: nat, L: nat, ai: nat, s: Side, v: int)
    requires 1 <= L <= m && ai < 2 * L - 1
    requires Edge(Disc(Some(Cx(r, L, ai)), Some(Cy(r, ai)), Some(r)), s) == v
    ensures Touches(DiscsOf(Layout(id, r, m)), s, v)
  {
    var j := DiscAt(id, r, m, L, ai);
  }

  /** The four circles that touch the edges of `DiamondBox(r, m)`. */
  lemma EdgeValues(r: nat, m: nat)
    requires m >= 1
    ensures var b := DiamondBox(r, m);
            var top := if m == 1 then 0 else 2 * m - 3;
            && Cx(r, m, 0) - r == b.x && Cx(r, 1, 0) + r == b.x + b.width
            && Cy(r, top) - r == b.y && Cy(r, 2 * m - 2) + r == b.y + b.height
  {
    var top := if m == 1 then 0 else 2 * m - 3;
    assert HalfUp(0) == 0 && (2 * m - 2) / 2 == m - 1;
    assert m > 1 ==> HalfUp(top) == m - 1 && top % 2 == 1;
    Regroup(r, m, 0, m - 1, m);
    Regroup(r, 1, 0, 0, m);
    assert r * (m - 1) == r * m - r;
  }

  /** Where circle `ai` of level `L` sits among the props handed to `setViewBox`. */
  lemma DiscAt(id: int, r: nat, m: nat, L: nat, ai: nat) returns (j: nat)
    requires 1 <= L <= m && ai < 2 * L - 1
    ensures j < |DiscsOf(Layout(id, r, m))|
    ensures DiscsOf(Layout(id, r, m))[j] == Disc(Some(Cx(r, L, ai)), Some(Cy(r, ai)), Some(r))
  {
    var cs := Layout(id, r, m);
    LevelContents(id, r, m, L, ai);
    SquareMono(0, L - 1);
    j := (L - 1) * (L - 1) + ai;
    var c := cs[j];
    assert c == Expected(id, r, L, ai);
    DiscOfCircle(cs, j);
  }

  lemma DiscOfCircle(cs: seq<Circle>, j: nat)
    requires j < |cs|
    ensures j < |DiscsOf(cs)| && DiscsOf(cs)[j] == Disc(Some(cs[j].cx), Some(cs[j].cy), Some(cs[j].r))
  {
  }

  /** Every circle of the diamond lies inside `DiamondBox(r, m)`. */
  lemma DiamondContains(id: int, r: nat, m: nat)
    ensures var ds := DiscsOf(Layout(id, r, m));
            var b := DiamondBox(r, m);
            forall j :: 0 <= j < |ds| ==>
              b.x <= Left(ds[j]) && Right(ds[j]) <= b.x + b.width && b.y <= Top(ds[j]) && Bottom(ds[j]) <= b.y + b.height
  {
    var cs := Layout(id, r, m);
    var ds := DiscsOf(cs);
    var b := DiamondBox(r, m);
    forall j | 0 <= j < |ds|
      ensures b.x <= Left(ds[j]) && Right(ds[j]) <= b.x + b.width && b.y <= Top(ds[j]) && Bottom(ds[j]) <= b.y + b.height
    {
      LayoutAt(id, r, m, j);
      CircleInBox(r, m, cs[j].level, cs[j].ai);
    }
  }
}
