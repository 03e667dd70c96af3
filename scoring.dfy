/** The scorecard's scoring engine: handicap strokes per hole from the stroke index, net score,
    the app's points table, and gross/net/points totals over a list of holes with a front/back
    split. Scores are integers; 0 gross is the "not yet played" sentinel. */
module Scoring {

  /** One hole of a round as the scorecard holds it. */
  datatype Hole = Hole(par: int, gross: int, strokeIndex: int)

  /** What the engine computes for one hole. */
  datatype HoleScoreCalculation = HoleScoreCalculation(shots: int, net: int, points: int)

  /** Totals over a list of holes. */
  datatype Totals = Totals(grossTotal: int, netTotal: int, pointsTotal: int) {
    /** Component-wise sum. */
    function Plus(other: Totals): Totals {
      Totals(grossTotal + other.grossTotal, netTotal + other.netTotal, pointsTotal + other.pointsTotal)
    }
  }

  const NoTotals := Totals(0, 0, 0)

  /** The front and back totals and the whole round's totals. */
  datatype Split = Split(outTotals: Totals, inTotals: Totals, total: Totals)

  function Min(a: int, b: int): int { if a <= b then a else b }

  function Clamp(x: int, lo: int, hi: int): int { if x < lo then lo else if x > hi then hi else x }

  /** Handicap strokes a player of playing handicap `handicap` receives on the hole of
      stroke index `strokeIndex`: one on the `handicap` hardest holes up to 18, and from 19 up
      one on every hole plus a second on the `handicap - 18` hardest. There is no upper clamp
      and no validation of the stroke index. */
  function ShotsReceived(handicap: int, strokeIndex: int): (shots: int)
    ensures 0 <= shots <= 2
    ensures handicap <= 0 ==> shots == 0
    ensures 1 <= handicap <= 18 ==> (shots == 1 <==> strokeIndex <= handicap) && shots <= 1
    ensures handicap > 18 ==> shots >= 1 && (shots == 2 <==> strokeIndex <= handicap - 18)
  {
    if handicap <= 0 then 0
    else if handicap <= 18 then (if strokeIndex <= handicap then 1 else 0)
    else
      var extraShots := handicap - 18;
      if strokeIndex <= extraShots then 2 else 1
  }

  /** The strokes received over the holes of stroke index 1..n. */
  function ShotsOnIndexes(handicap: int, n: nat): int
    decreases n
  {
    if n == 0 then 0 else ShotsOnIndexes(handicap, n - 1) + ShotsReceived(handicap, n)
  }

  lemma {:induction false} ShotsOnIndexesCount(handicap: int, n: nat)
    ensures ShotsOnIndexes(handicap, n) ==
      if handicap <= 0 then 0
      else if handicap <= 18 then Min(n, handicap)
      else n + Min(n, handicap - 18)
    decreases n
  {
    if n > 0 {
      ShotsOnIndexesCount(handicap, n - 1);
    }
  }

  /** Over the eighteen stroke indexes 1..18 the strokes handed out add up to the playing
      handicap, clamped to 0..36: above 36 every hole is capped at two strokes. */
  lemma TotalShotsAllocated(handicap: int)
    ensures ShotsOnIndexes(handicap, 18) == Clamp(handicap, 0, 36)
  {
    ShotsOnIndexesCount(handicap, 18);
  }

  /** Below 37 the allocation is the usual round-robin one: `handicap / 18` strokes on every
      hole and one more on the `handicap % 18` hardest. */
  lemma ShotsAreRoundRobin(handicap: int, strokeIndex: int)
    requires 0 <= handicap <= 36 && 1 <= strokeIndex <= 18
    ensures ShotsReceived(handicap, strokeIndex) ==
      handicap / 18 + (if strokeIndex <= handicap % 18 then 1 else 0)
  {
    if handicap < 18 {
      assert handicap / 18 == 0 && handicap % 18 == handicap;
    } else if handicap < 36 {
      assert handicap / 18 == 1 && handicap % 18 == handicap - 18;
    } else {
      assert handicap / 18 == 2 && handicap % 18 == 0;
    }
  }

  /** The net score: the gross score less the strokes received, so the two add back up to the
      gross score, and receiving strokes never raises it. */
  function NetScore(gross: int, shotsReceived: int): (net: int)
    ensures net + shotsReceived == gross
    ensures shotsReceived >= 0 ==> net <= gross
  {
    gross - shotsReceived
  }

  /** The app's points table, keyed on `net - par`, with a net score of 0 read as "unplayed".
      As written it is `4 + (net - par)` clamped to 0..6, so a worse net score earns more points. */
  function StablefordPoints(par: int, net: int): (points: int)
    ensures 0 <= points <= 6
    ensures net == 0 ==> points == 0
    ensures net != 0 ==> points == Clamp(4 + (net - par), 0, 6)
  {
    if net == 0 then 0
    else
      var diff := net - par;
      if diff <= -4 then 0
      else if diff == -3 then 1
      else if diff == -2 then 2
      else if diff == -1 then 3
      else if diff == 0 then 4
      else if diff == 1 then 5
      else if diff >= 2 then 6
      else assert false; 0
  }

  /** Among scored holes the points never fall as the net score rises. */
  lemma StablefordRisesWithNet(par: int, net1: int, net2: int)
    requires net1 != 0 && net2 != 0 && net1 <= net2
    ensures StablefordPoints(par, net1) <= StablefordPoints(par, net2)
  {
  }

  /** One hole: strokes received always; net score and points only once the hole is played. */
  function CalculateHoleScore(par: int, gross: int, strokeIndex: int, handicap: int): (score: HoleScoreCalculation)
    ensures score.shots == ShotsReceived(handicap, strokeIndex)
    ensures gross <= 0 ==> score.net == 0 && score.points == 0
    ensures gross > 0 ==> score.net + score.shots == gross && score.points == StablefordPoints(par, score.net)
    ensures 0 <= score.points <= 6
  {
    var shots := ShotsReceived(handicap, strokeIndex);
    var net := if gross > 0 then NetScore(gross, shots) else 0;
    var points := if gross > 0 then StablefordPoints(par, net) else 0;
    HoleScoreCalculation(shots, net, points)
  }

  /** What one hole adds to the totals: its raw gross, with its computed net and points. */
  function HoleTotals(hole: Hole, handicap: int): Totals {
    var score := CalculateHoleScore(hole.par, hole.gross, hole.strokeIndex, handicap);
    Totals(hole.gross, score.net, score.points)
  }

  /** The totals of a list of holes, hole by hole from the first. */
  function RoundTotals(holes: seq<Hole>, handicap: int): (t: Totals)
    ensures 0 <= t.pointsTotal <= 6 * |holes|
    decreases |holes|
  {
    if holes == [] then NoTotals
    else RoundTotals(holes[..|holes| - 1], handicap).Plus(HoleTotals(holes[|holes| - 1], handicap))
  }

  /** `calculateTotals`: one pass over the holes, accumulating three running sums. */
  method CalculateTotals(holes: seq<Hole>, handicap: int) returns (t: Totals)
    ensures t == RoundTotals(holes, handicap)
  {
    var grossTotal, netTotal, pointsTotal := 0, 0, 0;
    for i := 0 to |holes|
      invariant Totals(grossTotal, netTotal, pointsTotal) == RoundTotals(holes[..i], handicap)
    {
      var hole := holes[i];
      var score := CalculateHoleScore(hole.par, hole.gross, hole.strokeIndex, handicap);
      grossTotal := grossTotal + hole.gross;
      netTotal := netTotal + score.net;
      pointsTotal := pointsTotal + score.points;
      assert holes[..i + 1][..i] == holes[..i];
    }
    assert holes[..|holes|] == holes;
    t := Totals(grossTotal, netTotal, pointsTotal);
  }

  /** Totals are additive: the totals of `a + b` are those of `a` plus those of `b`. */
  lemma {:induction false} TotalsAppend(a: seq<Hole>, b: seq<Hole>, handicap: int)
    ensures RoundTotals(a + b, handicap) == RoundTotals(a, handicap).Plus(RoundTotals(b, handicap))
    decreases |b|
  {
    if b == [] {
      assert a + b == a;
    } else {
      var ab, b', last := a + b, b[..|b| - 1], b[|b| - 1];
      assert ab[..|ab| - 1] == a + b';
      assert ab[|ab| - 1] == last;
      TotalsAppend(a, b', handicap);
      var x, y, z := RoundTotals(a, handicap), RoundTotals(b', handicap), HoleTotals(last, handicap);
      calc {
        RoundTotals(ab, handicap);
        RoundTotals(a + b', handicap).Plus(z);
        x.Plus(y).Plus(z);
        x.Plus(y.Plus(z));
        x.Plus(RoundTotals(b, handicap));
      }
    }
  }

  /** The gross total is the sum of the raw gross scores, whatever the handicap. */
  lemma {:induction false} GrossTotalIgnoresHandicap(holes: seq<Hole>, h1: int, h2: int)
    ensures RoundTotals(holes, h1).grossTotal == RoundTotals(holes, h2).grossTotal
    decreases |holes|
  {
    if holes != [] {
      GrossTotalIgnoresHandicap(holes[..|holes| - 1], h1, h2);
    }
  }

  /** A round in which no hole has been played totals zero on every count. */
  lemma {:induction false} UnplayedRoundTotalsNothing(holes: seq<Hole>, handicap: int)
    requires forall i :: 0 <= i < |holes| ==> holes[i].gross == 0
    ensures RoundTotals(holes, handicap) == NoTotals
    decreases |holes|
  {
    if holes != [] {
      var init, last := holes[..|holes| - 1], holes[|holes| - 1];
      assert forall i :: 0 <= i < |init| ==> init[i] == holes[i];
      UnplayedRoundTotalsNothing(init, handicap);
      assert HoleTotals(last, handicap) == NoTotals;
    }
  }

  /** The strokes received over a list of holes. */
  function StrokesReceived(holes: seq<Hole>, handicap: int): int
    decreases |holes|
  {
    if holes == [] then 0
    else StrokesReceived(holes[..|holes| - 1], handicap) + ShotsReceived(handicap, holes[|holes| - 1].strokeIndex)
  }

  /** Once every hole is played, the net total is the gross total less the strokes received. */
  lemma {:induction false} PlayedRoundNetTotal(holes: seq<Hole>, handicap: int)
    requires forall i :: 0 <= i < |holes| ==> holes[i].gross > 0
    ensures RoundTotals(holes, handicap).netTotal ==
            RoundTotals(holes, handicap).grossTotal - StrokesReceived(holes, handicap)
    decreases |holes|
  {
    if holes != [] {
      PlayedRoundNetTotal(holes[..|holes| - 1], handicap);
    }
  }

  /** A scratch player who plays every hole in par scores four points a hole. */
  lemma {:induction false} ScratchLevelParRound(holes: seq<Hole>, handicap: int)
    requires handicap <= 0
    requires forall i :: 0 <= i < |holes| ==> holes[i].gross == holes[i].par > 0
    ensures RoundTotals(holes, handicap).pointsTotal == 4 * |holes|
    ensures RoundTotals(holes, handicap).netTotal == RoundTotals(holes, handicap).grossTotal
    decreases |holes|
  {
    if holes != [] {
      ScratchLevelParRound(holes[..|holes| - 1], handicap);
    }
  }

  /** A player off 18 who plays every hole in par is a net birdie on each, which this table
      scores as three points a hole (not five). */
  lemma {:induction false} Handicap18LevelParRound(holes: seq<Hole>)
    requires forall i :: 0 <= i < |holes| ==> holes[i].gross == holes[i].par > 1
    requires forall i :: 0 <= i < |holes| ==> 1 <= holes[i].strokeIndex <= 18
    ensures RoundTotals(holes, 18).pointsTotal == 3 * |holes|
    ensures RoundTotals(holes, 18).netTotal == RoundTotals(holes, 18).grossTotal - |holes|
    decreases |holes|
  {
    if holes != [] {
      Handicap18LevelParRound(holes[..|holes| - 1]);
    }
  }

  /** `calculateSplit`: totals of the first `splitAt` holes, of the rest, and of all of them,
      each computed separately. As with `slice`, a split point past the end takes every hole. */
  method CalculateSplit(holes: seq<Hole>, handicap: int, splitAt: nat := 9) returns (split: Split)
    ensures split.outTotals == RoundTotals(holes[..Min(splitAt, |holes|)], handicap)
    ensures split.inTotals == RoundTotals(holes[Min(splitAt, |holes|)..], handicap)
    ensures split.total == RoundTotals(holes, handicap)
    ensures split.total == split.outTotals.Plus(split.inTotals)
    ensures splitAt >= |holes| ==> split.inTotals == NoTotals
  {
    var k := Min(splitAt, |holes|);
    var outHoles := holes[..k];
    var inHoles := holes[k..];
    var out := CalculateTotals(outHoles, handicap);
    var inTotals := CalculateTotals(inHoles, handicap);
    var total := CalculateTotals(holes, handicap);
    assert outHoles + inHoles == holes;
    TotalsAppend(outHoles, inHoles, handicap);
    split := Split(out, inTotals, total);
  }
}
