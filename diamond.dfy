/**
 * The diamond of one question: its circles come from `createDiamond`, each
 * coloured by the question's vote, except that a circle with a unit in
 * flight keeps its old colour until the unit settles. The component tracks
 * the circles with a unit arriving and those with a unit departing, keyed
 * by `${level}-${ai}`.
 */
module DiamondView {
  import opened Wrappers
  import opened Text
  import opened Bus
  import Arith
  import Ledger
  import Geometry

  /** The `neutralColor`, `positiveColor` and `negativeColor` props. */
  datatype Palette = Palette(neutral: string, positive: string, negative: string)

  const DefaultPalette := Palette("#A9A9A9", "#00FF00", "#FF0000")
  const DefaultRadius := 4

  /**
   * The key `${level}-${ai}` of a diamond circle. Both numbers are natural
   * wherever keys are made, and `Text.DashPairInjective` shows the rendering
   * is one-to-one there, so the key is kept as the pair.
   */
  datatype CircleKey = CircleKey(level: int, ai: int)

  /** The in-flight marks of one diamond. */
  datatype Marks = Marks(arriving: set<CircleKey>, departing: set<CircleKey>)

  // ---------------------------------------------------------------------------
  // The question's level and colour
  // ---------------------------------------------------------------------------

  /** `question ? Math.abs(question.vote) : 0`, with the first question of the id. */
  function VoteLevel(qs: seq<Ledger.Question>, id: int): (v: nat)
    ensures v == Arith.Abs(Ledger.VoteOf(qs, id))
  {
    match Ledger.Find(qs, id)
    case Some(q) => Arith.Abs(q.vote)
    case None => 0
  }

  /** Positive, negative or neutral by the sign of the vote; neutral without a question. */
  function VoteColor(qs: seq<Ledger.Question>, id: int, pal: Palette): (c: string)
    ensures Ledger.VoteOf(qs, id) > 0 ==> c == pal.positive
    ensures Ledger.VoteOf(qs, id) < 0 ==> c == pal.negative
    ensures Ledger.VoteOf(qs, id) == 0 ==> c == pal.neutral
  {
    match Ledger.Find(qs, id)
    case Some(q) => if q.vote > 0 then pal.positive else if q.vote < 0 then pal.negative else pal.neutral
    case None => pal.neutral
  }

  /** The `active` class of the shine. */
  predicate ShineActive(qs: seq<Ledger.Question>, id: int) {
    VoteLevel(qs, id) == 0
  }

  // ---------------------------------------------------------------------------
  // The level of a circle, read back from data-level
  // ---------------------------------------------------------------------------

  /** `parseInt(dataLevel.split('-')[1])`; a missing second piece parses as `NaN`. */
  function ParsedLevel(dataLevel: string): Option<int> {
    var pieces := Split(dataLevel, '-');
    if |pieces| < 2 then None else ParseInt(pieces[1])
  }

  /** Reading the level from the last piece of `data-level` instead. */
  function ParsedLevelLast(dataLevel: string): Option<int> {
    var pieces := Split(dataLevel, '-');
    ParseInt(pieces[|pieces| - 1])
  }

  /** For a non-negative diamond id the second piece is the level. */
  lemma ParsedLevelRecovers(id: int, L: nat)
    requires id >= 0
    ensures ParsedLevel(Geometry.DataLevel(id, L)) == Some(L)
  {
    SplitDigitPair(NatToString(id), NatToString(L));
    ParseIntOfNatToString(L);
  }

  /** For a negative id the sign's dash splits off an empty piece and the id is read as the level. */
  lemma NegativeIdMisreadsLevel(id: int, L: nat)
    requires id < 0
    ensures ParsedLevel(Geometry.DataLevel(id, L)) == Some(-id)
  {
    var k: nat := -id;
    NegativeIdReadsId(id, L, NatToString(k));
    ParseIntOfNatToString(k);
    assert ParsedLevel(Geometry.DataLevel(id, L)) == ParseInt(NatToString(k));
  }

  /** For a negative id `ParsedLevel` reads the digits of the id. */
  lemma NegativeIdReadsId(id: int, L: nat, a: string)
    requires id < 0 && a == NatToString(-id)
    ensures ParsedLevel(Geometry.DataLevel(id, L)) == ParseInt(a)
  {
    NegativeIdPieces(id, L);
    SecondPieceLevel(Geometry.DataLevel(id, L), "", a, NatToString(L));
  }

  /** For a negative id, `data-level` splits into an empty piece, the id's digits and the level's digits. */
  lemma NegativeIdPieces(id: int, L: nat)
    requires id < 0
    ensures Split(Geometry.DataLevel(id, L), '-') == ["", NatToString(-id), NatToString(L)]
  {
    var a, b := NatToString(-id), NatToString(L);
    assert Geometry.DataLevel(id, L) == [] + ['-'] + (a + "-" + b);
    SplitAtFirstSeparator([], '-', a + "-" + b);
    SplitDigitPair(a, b);
  }

  /** `ParsedLevel` reads the second of the pieces `data-level` splits into. */
  lemma SecondPieceLevel(s: string, p0: string, p1: string, p2: string)
    requires Split(s, '-') == [p0, p1, p2]
    ensures ParsedLevel(s) == ParseInt(p1)
  {
  }

  /** The diamond with id -3 reads its level-2 circles as level 3. */
  lemma MisreadExample()
    ensures ParsedLevel(Geometry.DataLevel(-3, 2)) == Some(3)
  {
    NegativeIdMisreadsLevel(-3, 2);
  }

  /** The last piece is the level for every id, and agrees with the second piece when the id is non-negative. */
  lemma ParsedLevelLastRecovers(id: int, L: nat)
    ensures ParsedLevelLast(Geometry.DataLevel(id, L)) == Some(L)
    ensures id >= 0 ==> ParsedLevel(Geometry.DataLevel(id, L)) == ParsedLevelLast(Geometry.DataLevel(id, L))
  {
    var b := NatToString(L);
    SplitJoin(IntToString(id), '-', b);
    DigitsHaveNoSign(b);
    SplitNoSeparator(b, '-');
    ParseIntOfNatToString(L);
    if id >= 0 { ParsedLevelRecovers(id, L); }
  }

  // ---------------------------------------------------------------------------
  // The fill of a circle
  // ---------------------------------------------------------------------------

  /**
   * The fill: the vote colour up to the vote's level, else neutral; neutral
   * while a unit is arriving at the circle; the vote colour while one is
   * departing from it, which wins over arriving.
   */
  function Fill(c: Geometry.Circle, voteLevel: nat, voteColor: string, neutral: string, m: Marks): (f: string)
    ensures f == voteColor || f == neutral
  {
    var level := ParsedLevel(c.dataLevel);
    var fill := if level.Some? && level.value <= voteLevel then voteColor else neutral;
    var fill := if level.Some? && CircleKey(level.value, c.ai) in m.arriving then neutral else fill;
    if level.Some? && CircleKey(level.value, c.ai) in m.departing then voteColor else fill
  }

  /** How many of `cs` are filled with `color`. */
  function CountFilled(cs: seq<Geometry.Circle>, voteLevel: nat, voteColor: string, neutral: string, m: Marks, color: string): nat {
    if |cs| == 0 then 0
    else CountFilled(cs[..|cs| - 1], voteLevel, voteColor, neutral, m, color)
         + (if Fill(cs[|cs| - 1], voteLevel, voteColor, neutral, m) == color then 1 else 0)
  }

  lemma {:induction false} CountFilledConcat(a: seq<Geometry.Circle>, b: seq<Geometry.Circle>, v: nat, vc: string, n: string, m: Marks, color: string)
    ensures CountFilled(a + b, v, vc, n, m, color) == CountFilled(a, v, vc, n, m, color) + CountFilled(b, v, vc, n, m, color)
    decreases |b|
  {
    if |b| == 0 {
      assert a + b == a;
    } else {
      assert (a + b)[..|a + b| - 1] == a + b[..|b| - 1];
      CountFilledConcat(a, b[..|b| - 1], v, vc, n, m, color);
    }
  }

  /** With nothing in flight, a circle whose `data-level` reads back as its level is coloured exactly when that level is within the vote's. */
  lemma {:induction false} FilledFollowsLevels(cs: seq<Geometry.Circle>, v: nat, vc: string, neutral: string)
    requires vc != neutral
    requires forall j :: 0 <= j < |cs| ==> ParsedLevel(cs[j].dataLevel) == Some(cs[j].level as int)
    ensures CountFilled(cs, v, vc, neutral, Marks({}, {}), vc) == Geometry.CountUpTo(cs, v)
    decreases |cs|
  {
    if |cs| > 0 {
      var init := cs[..|cs| - 1];
      assert forall j :: 0 <= j < |init| ==> init[j] == cs[j];
      FilledFollowsLevels(init, v, vc, neutral);
    }
  }

  /** For a non-negative id, every circle of the layout reads back its own level from `data-level`. */
  lemma LayoutLevelsParse(id: int, r: int, m: nat)
    requires id >= 0
    ensures forall j :: 0 <= j < |Geometry.Layout(id, r, m)| ==>
              ParsedLevel(Geometry.Layout(id, r, m)[j].dataLevel) == Some(Geometry.Layout(id, r, m)[j].level as int)
  {
    forall j | 0 <= j < |Geometry.Layout(id, r, m)|
      ensures ParsedLevel(Geometry.Layout(id, r, m)[j].dataLevel) == Some(Geometry.Layout(id, r, m)[j].level as int)
    {
      Geometry.LayoutAt(id, r, m, j);
      ParsedLevelRecovers(id, Geometry.Layout(id, r, m)[j].level);
    }
  }

  /**
   * With nothing in flight, an `m`-level diamond shows `min(v, m)²` circles
   * in a vote colour distinct from the neutral one, `v` the vote's level.
   */
  lemma ColouredCount(id: int, r: int, m: nat, v: nat, vc: string, neutral: string)
    requires id >= 0 && vc != neutral
    ensures CountFilled(Geometry.Layout(id, r, m), v, vc, neutral, Marks({}, {}), vc) == Ledger.Square(Arith.Min(v, m))
  {
    LayoutLevelsParse(id, r, m);
    FilledFollowsLevels(Geometry.Layout(id, r, m), v, vc, neutral);
    Geometry.LayoutUpTo(id, r, m, v);
  }

  /** Without a vote every circle is neutral, whatever is in flight. */
  lemma NoVoteAllNeutral(qs: seq<Ledger.Question>, id: int, pal: Palette, c: Geometry.Circle, m: Marks)
    requires Ledger.VoteOf(qs, id) == 0
    ensures ShineActive(qs, id)
    ensures Fill(c, VoteLevel(qs, id), VoteColor(qs, id, pal), pal.neutral, m) == pal.neutral
  {
  }

  // ---------------------------------------------------------------------------
  // The in-flight marks
  // ---------------------------------------------------------------------------

  /** The `qv:anim` handler on the marks of diamond `id`. */
  function Started(m: Marks, id: int, d: AnimDetail): (r: Marks)
    ensures d.diamondId != id || d.phase != Start ==> r == m
    ensures d.diamondId == id && d.phase == Start && d.direction == ToDiamond ==>
              r == Marks(m.arriving + {CircleKey(d.diamondLevel, d.ai)}, m.departing)
    ensures d.diamondId == id && d.phase == Start && d.direction == ToPool ==>
              r == Marks(m.arriving, m.departing + {CircleKey(d.diamondLevel, d.ai)})
  {
    if d.diamondId != id then m
    else
      var key := CircleKey(d.diamondLevel, d.ai);
      if d.direction == ToDiamond && d.phase == Start then Marks(m.arriving + {key}, m.departing)
      else if d.direction == ToPool && d.phase == Start then Marks(m.arriving, m.departing + {key})
      else m
  }

  /** The `qv:anim-diamond` handler on the marks of diamond `id`; the phase is not looked at. */
  function Ended(m: Marks, id: int, d: DiamondEndDetail): (r: Marks)
    ensures d.diamondId != id ==> r == m
    ensures d.diamondId == id && d.direction == ToDiamond ==>
              r == Marks(m.arriving - {CircleKey(d.diamondLevel, d.ai)}, m.departing)
    ensures d.diamondId == id && d.direction == ToPool ==>
              r == Marks(m.arriving, m.departing - {CircleKey(d.diamondLevel, d.ai)})
  {
    if d.diamondId != id then m
    else
      var key := CircleKey(d.diamondLevel, d.ai);
      match d.direction
      case ToDiamond => Marks(m.arriving - {key}, m.departing)
      case ToPool => Marks(m.arriving, m.departing - {key})
  }

  /** One diamond's component state. */
  class Diamond {
    const id: int
    var arriving: set<CircleKey>
    var departing: set<CircleKey>

    constructor (id: int)
      ensures this.id == id && arriving == {} && departing == {}
    {
      this.id := id;
      arriving := {};
      departing := {};
    }

    method OnAnim(d: AnimDetail)
      modifies this
      ensures Marks(arriving, departing) == Started(old(Marks(arriving, departing)), id, d)
    {
      if d.diamondId != id {
        return;
      }
      var key := CircleKey(d.diamondLevel, d.ai);
      if d.direction == ToDiamond && d.phase == Start {
        arriving := arriving + {key};
      } else if d.direction == ToPool && d.phase == Start {
        departing := departing + {key};
      }
    }

    method OnAnimDiamond(d: DiamondEndDetail)
      modifies this
      ensures Marks(arriving, departing) == Ended(old(Marks(arriving, departing)), id, d)
    {
      if d.diamondId != id {
        return;
      }
      var key := CircleKey(d.diamondLevel, d.ai);
      if d.direction == ToDiamond {
        arriving := arriving - {key};
      } else if d.direction == ToPool {
        departing := departing - {key};
      }
    }
  }

  /**
   * A unit flying to circle `(L, ai)` of this diamond: its start marks the
   * circle arriving, which shows it neutral; its settle removes the mark
   * again, restoring the marks as they were.
   */
  lemma ArrivalRoundTrip(m: Marks, id: int, L: nat, ai: nat, r: int, voteLevel: nat, vc: string, neutral: string)
    requires CircleKey(L, ai) !in m.arriving && CircleKey(L, ai) !in m.departing
    requires id >= 0
    ensures var during := Started(m, id, AnimDetail(Start, ToDiamond, id, L, ai, None));
            && Fill(Geometry.Expected(id, r, L, ai), voteLevel, vc, neutral, during) == neutral
            && Ended(during, id, DiamondEndDetail(End, ToDiamond, id, L, ai)) == m
  {
    ParsedLevelRecovers(id, L);
    var during := Started(m, id, AnimDetail(Start, ToDiamond, id, L, ai, None));
    assert during.arriving - {CircleKey(L, ai)} == m.arriving;
  }

  /**
   * A unit flying from circle `(L, ai)`: while it departs the circle keeps
   * the vote colour; its settle removes the mark, restoring the marks.
   */
  lemma DepartureRoundTrip(m: Marks, id: int, L: nat, ai: nat, r: int, voteLevel: nat, vc: string, neutral: string)
    requires CircleKey(L, ai) !in m.departing
    requires id >= 0
    ensures var during := Started(m, id, AnimDetail(Start, ToPool, id, L, ai, None));
            && Fill(Geometry.Expected(id, r, L, ai), voteLevel, vc, neutral, during) == vc
            && Ended(during, id, DiamondEndDetail(End, ToPool, id, L, ai)) == m
  {
    ParsedLevelRecovers(id, L);
    var during := Started(m, id, AnimDetail(Start, ToPool, id, L, ai, None));
    assert during.departing - {CircleKey(L, ai)} == m.departing;
  }
}
