/** `_calculate_conversion_stats` and `_calculate_time_savings`
    (src/shopbotjog/core.py:162-276): how many cuts the rewrite turns into
    jogs, and how long the positioning moves take at either rate. */
module Stats {
  import opened Wrappers
  import opened Failures
  import opened Heights

  /** `{h for h, _ in positioning_heights}`. */
  function HeightSet(hs: seq<HeightCount>): (s: set<real>)
    ensures forall h :: h in s <==> exists i :: 0 <= i < |hs| && hs[i].z == h
  {
    set i | 0 <= i < |hs| :: hs[i].z
  }

  /** `[h for h, _ in positioning_heights]`. */
  function HeightsOf(hs: seq<HeightCount>): (r: seq<real>)
    ensures |r| == |hs| && forall i :: 0 <= i < |hs| ==> r[i] == hs[i].z
  {
    seq(|hs|, i requires 0 <= i < |hs| => hs[i].z)
  }

  /** `sum(1 for z in z_values if z in heights_set)`. */
  function CountIn(zs: seq<real>, hset: set<real>): (n: nat)
    ensures n <= |zs|
  {
    if zs == [] then 0 else (if zs[0] in hset then 1 else 0) + CountIn(zs[1..], hset)
  }

  lemma {:induction false} CountInAppend(zs: seq<real>, ws: seq<real>, hset: set<real>)
    ensures CountIn(zs + ws, hset) == CountIn(zs, hset) + CountIn(ws, hset)
  {
    if zs == [] {
      assert zs + ws == ws;
    } else {
      assert (zs + ws)[1..] == zs[1..] + ws;
      CountInAppend(zs[1..], ws, hset);
    }
  }

  /** Counting against a single height is that height's `Counter` entry. */
  lemma {:induction false} CountInSingle(zs: seq<real>, h: real)
    ensures CountIn(zs, {h}) == Count(zs, h)
  {
    if zs != [] {
      assert zs == [zs[0]] + zs[1..];
      CountInSingle(zs[1..], h);
    }
  }

  /** Every cut counts when all heights are in the set, none when none is. */
  lemma {:induction false} CountInExtremes(zs: seq<real>, hset: set<real>)
    ensures (forall i :: 0 <= i < |zs| ==> zs[i] in hset) ==> CountIn(zs, hset) == |zs|
    ensures (forall i :: 0 <= i < |zs| ==> zs[i] !in hset) ==> CountIn(zs, hset) == 0
  {
    if zs != [] {
      assert forall i :: 0 <= i < |zs| - 1 ==> zs[1..][i] == zs[i + 1];
      CountInExtremes(zs[1..], hset);
    }
  }

  datatype ConversionStats = ConversionStats(
    totalCuts: nat,
    positioningCommands: nat,
    cuttingCommands: nat,
    conversionPercentage: real,
    heightsToConvert: seq<real>)

  /** The conversion statistics of the cut heights `zs` against the
      `(height, count)` pairs `hs`. */
  function ConversionStatsOf(zs: seq<real>, hs: seq<HeightCount>): ConversionStats {
    if hs == [] then ConversionStats(|zs|, 0, |zs|, 0.0, [])
    else
      var p := CountIn(zs, HeightSet(hs));
      ConversionStats(|zs|, p, |zs| - p, if zs != [] then p as real / |zs| as real * 100.0 else 0.0, HeightsOf(hs))
  }

  /** Every cut is either a positioning move or a cutting move; the
      positioning moves are exactly the cuts whose height is in the set. */
  lemma ConversionSplitsCuts(zs: seq<real>, hs: seq<HeightCount>)
    ensures var c := ConversionStatsOf(zs, hs);
      c.totalCuts == |zs| && c.positioningCommands + c.cuttingCommands == c.totalCuts
      && c.positioningCommands == CountIn(zs, HeightSet(hs))
  {
    if hs == [] {
      CountInExtremes(zs, {});
    }
  }

  /** The percentage is the positioning share of all cuts, in [0, 100]. */
  lemma ConversionPercentage(zs: seq<real>, hs: seq<HeightCount>)
    ensures var c := ConversionStatsOf(zs, hs);
      0.0 <= c.conversionPercentage <= 100.0
      && c.conversionPercentage * |zs| as real == c.positioningCommands as real * 100.0
  {
    if hs != [] && zs != [] {
      var p, n := CountIn(zs, HeightSet(hs)) as real, |zs| as real;
      assert p <= n;
      assert p / n <= 1.0;
      assert p / n * 100.0 * n == p * 100.0;
    }
  }

  /** With no heights nothing is converted and every cut stays a cut. */
  lemma ConversionWithoutHeights(zs: seq<real>)
    ensures ConversionStatsOf(zs, []) == ConversionStats(|zs|, 0, |zs|, 0.0, [])
  {
  }

  /** With the detected heights, the positioning moves are exactly the
      occurrences of the feed height that `Counter` reported. */
  lemma ConversionOfFeedHeight(zs: seq<real>)
    requires FeedHeight(zs).Some?
    ensures ConversionStatsOf(zs, PositioningHeights(zs)).positioningCommands
      == PositioningHeights(zs)[0].count
  {
    var hs := PositioningHeights(zs);
    assert HeightSet(hs) == {hs[0].z};
    CountInSingle(zs, hs[0].z);
  }

  /** One `(x, y, z)` triple of a cut. */
  datatype Point = Point(x: real, y: real, z: real)

  function Zs(pts: seq<Point>): (r: seq<real>)
    ensures |r| == |pts| && forall i :: 0 <= i < |pts| ==> r[i] == pts[i].z
  {
    seq(|pts|, i requires 0 <= i < |pts| => pts[i].z)
  }

  /** `[(x, y, z) for x, y, z in m3_coordinates if z in heights_set]`. */
  function PositioningPoints(pts: seq<Point>, hset: set<real>): (r: seq<Point>)
    ensures |r| <= |pts| && forall i :: 0 <= i < |r| ==> r[i].z in hset
  {
    if pts == [] then []
    else (if pts[0].z in hset then [pts[0]] else []) + PositioningPoints(pts[1..], hset)
  }

  /** Every cut at a listed height is kept, and nothing else. */
  lemma {:induction false} PositioningPointsMembers(pts: seq<Point>, hset: set<real>)
    ensures forall p :: p in PositioningPoints(pts, hset) <==> p in pts && p.z in hset
  {
    if pts != [] {
      PositioningPointsMembers(pts[1..], hset);
      assert pts == [pts[0]] + pts[1..];
    }
  }

  /** The filter keeps file order: the positioning points of two stretches
      of the file are those of the first followed by those of the second. */
  lemma {:induction false} PositioningPointsAppend(a: seq<Point>, b: seq<Point>, hset: set<real>)
    ensures PositioningPoints(a + b, hset) == PositioningPoints(a, hset) + PositioningPoints(b, hset)
  {
    if a != [] {
      assert (a + b)[0] == a[0] && (a + b)[1..] == a[1..] + b;
      PositioningPointsAppend(a[1..], b, hset);
    } else {
      assert a + b == b;
    }
  }

  /** When every cut is at a listed height, every cut is kept, in order. */
  lemma {:induction false} PositioningPointsKeepsAll(pts: seq<Point>, hset: set<real>)
    requires forall i :: 0 <= i < |pts| ==> pts[i].z in hset
    ensures PositioningPoints(pts, hset) == pts
  {
    if pts != [] {
      PositioningPointsKeepsAll(pts[1..], hset);
    }
  }

  /** There are as many positioning points as positioning commands. */
  lemma {:induction false} PositioningPointsCount(pts: seq<Point>, hset: set<real>)
    ensures |PositioningPoints(pts, hset)| == CountIn(Zs(pts), hset)
  {
    if pts != [] {
      assert Zs(pts)[1..] == Zs(pts[1..]);
      PositioningPointsCount(pts[1..], hset);
    }
  }

  /** `norm(dx, dy)` stands for `(dx ** 2 + dy ** 2) ** 0.5`; a norm that
      is the Euclidean length satisfies this. */
  ghost predicate IsHypot(norm: (real, real) -> real) {
    forall dx, dy :: norm(dx, dy) >= 0.0 && norm(dx, dy) * norm(dx, dy) == dx * dx + dy * dy
  }

  /** The planar distance from `p` to `q`. */
  function Step(norm: (real, real) -> real, p: Point, q: Point): real {
    norm(q.x - p.x, q.y - p.y)
  }

  /** The length of the path through `ps` in order, summed front to back as
      the loop does. */
  function PathLength(norm: (real, real) -> real, ps: seq<Point>): real {
    if |ps| <= 1 then 0.0
    else PathLength(norm, ps[..|ps| - 1]) + Step(norm, ps[|ps| - 2], ps[|ps| - 1])
  }

  lemma {:induction false} PathLengthNonNegative(norm: (real, real) -> real, ps: seq<Point>)
    requires IsHypot(norm)
    ensures PathLength(norm, ps) >= 0.0
  {
    if |ps| > 1 {
      PathLengthNonNegative(norm, ps[..|ps| - 1]);
      assert Step(norm, ps[|ps| - 2], ps[|ps| - 1]) >= 0.0;
    }
  }

  datatype Rates = Rates(cuttingSpeedIpm: real, jogSpeedIpm: real)

  /** The dictionary `_calculate_time_savings` returns. The early returns
      carry `time_saved_percentage` (0.0) but not the rates; the full
      computation carries the rates but no percentage. */
  datatype TimeSavings = TimeSavings(
    positioningCommands: nat,
    avgMoveDistance: real,
    totalMoveDistance: real,
    timeAtCuttingSpeed: real,
    timeAtJogSpeed: real,
    timeSavedMinutes: real,
    timeSavedPercentage: Option<real>,
    speedImprovementFactor: real,
    rates: Option<Rates>)

  function NoSavings(n: nat, cut: real, jog: real): TimeSavings
    requires cut != 0.0
  {
    TimeSavings(n, 0.0, 0.0, 0.0, 0.0, 0.0, Some(0.0), jog / cut, None)
  }

  /** The time savings of the cuts `pts` at the heights `hs`, cutting at
      `cut` and jogging at `jog` inches per minute. Python divides by
      `cut` in every branch and by `jog` once there are two points, and a
      zero divisor raises ZeroDivisionError. */
  function TimeSavingsOf(norm: (real, real) -> real, pts: seq<Point>, hs: seq<HeightCount>, cut: real, jog: real)
    : Result<TimeSavings, Failure>
  {
    if hs == [] || pts == [] then
      if cut == 0.0 then Err(ZeroDivision) else Ok(NoSavings(0, cut, jog))
    else
      var ps := PositioningPoints(pts, HeightSet(hs));
      if |ps| <= 1 then
        if cut == 0.0 then Err(ZeroDivision) else Ok(NoSavings(|ps|, cut, jog))
      else if cut == 0.0 || jog == 0.0 then Err(ZeroDivision)
      else
        var total := PathLength(norm, ps);
        Ok(TimeSavings(|ps|, total / (|ps| - 1) as real, total, total / cut, total / jog,
          total / cut - total / jog, None, jog / cut, Some(Rates(cut, jog))))
  }

  /** The loop of `_calculate_time_savings`: sums the distances between
      consecutive positioning points. */
  method CalculateTimeSavings(norm: (real, real) -> real, pts: seq<Point>, hs: seq<HeightCount>, cut: real, jog: real)
    returns (r: Result<TimeSavings, Failure>)
    ensures r == TimeSavingsOf(norm, pts, hs, cut, jog)
  {
    if hs == [] || pts == [] {
      if cut == 0.0 { return Err(ZeroDivision); }
      return Ok(NoSavings(0, cut, jog));
    }
    var ps := PositioningPoints(pts, HeightSet(hs));
    if |ps| <= 1 {
      if cut == 0.0 { return Err(ZeroDivision); }
      return Ok(NoSavings(|ps|, cut, jog));
    }
    var total := SumDistances(norm, ps);
    var moves := |ps| - 1;
    if cut == 0.0 || jog == 0.0 {
      return Err(ZeroDivision);
    }
    var atCutting := total / cut;
    var atJog := total / jog;
    r := Ok(TimeSavings(|ps|, total / moves as real, total, atCutting, atJog, atCutting - atJog, None,
      jog / cut, Some(Rates(cut, jog))));
  }

  /** `total_distance` accumulated over consecutive pairs. */
  method SumDistances(norm: (real, real) -> real, ps: seq<Point>) returns (total: real)
    ensures total == PathLength(norm, ps)
  {
    total := 0.0;
    if |ps| <= 1 {
      return;
    }
    var i := 1;
    while i < |ps|
      invariant 1 <= i <= |ps|
      invariant total == PathLength(norm, ps[..i])
    {
      assert ps[..i + 1][..i] == ps[..i];
      total := total + norm(ps[i].x - ps[i - 1].x, ps[i].y - ps[i - 1].y);
      i := i + 1;
    }
    assert ps[..i] == ps;
  }

  /** The calculation fails exactly when it divides by a zero rate. */
  lemma TimeSavingsFails(norm: (real, real) -> real, pts: seq<Point>, hs: seq<HeightCount>, cut: real, jog: real)
    ensures TimeSavingsOf(norm, pts, hs, cut, jog).Err? <==>
      cut == 0.0 || (jog == 0.0 && hs != [] && |PositioningPoints(pts, HeightSet(hs))| >= 2)
  {
    if hs != [] && pts == [] {
      assert PositioningPoints(pts, HeightSet(hs)) == [];
    }
  }

  /** Whatever the branch, the improvement factor is `jog / cut`, and with
      fewer than two positioning points every distance and time is zero. */
  lemma TimeSavingsFactor(norm: (real, real) -> real, pts: seq<Point>, hs: seq<HeightCount>, cut: real, jog: real)
    requires TimeSavingsOf(norm, pts, hs, cut, jog).Ok?
    ensures var t := TimeSavingsOf(norm, pts, hs, cut, jog).value;
      t.speedImprovementFactor == jog / cut
      && (t.positioningCommands <= 1 ==>
        t.totalMoveDistance == 0.0 && t.timeAtCuttingSpeed == 0.0 && t.timeAtJogSpeed == 0.0
        && t.timeSavedMinutes == 0.0 && t.timeSavedPercentage == Some(0.0))
  {
  }

  /** The full computation: the total is the length of the path through
      the positioning cuts in file order, the average times the number of
      moves is the total, the saving is the cutting time minus the jogging
      time, and both times are the total over their rates. */
  lemma {:induction false} TimeSavingsMeaning(norm: (real, real) -> real, pts: seq<Point>, hs: seq<HeightCount>, cut: real, jog: real)
    requires TimeSavingsOf(norm, pts, hs, cut, jog).Ok?
    requires TimeSavingsOf(norm, pts, hs, cut, jog).value.positioningCommands >= 2
    ensures var t := TimeSavingsOf(norm, pts, hs, cut, jog).value;
      var ps := PositioningPoints(pts, HeightSet(hs));
      t.positioningCommands == |ps| && t.totalMoveDistance == PathLength(norm, ps)
      && t.avgMoveDistance * (t.positioningCommands - 1) as real == t.totalMoveDistance
      && t.timeAtCuttingSpeed * cut == t.totalMoveDistance
      && t.timeAtJogSpeed * jog == t.totalMoveDistance
      && t.timeSavedMinutes == t.timeAtCuttingSpeed - t.timeAtJogSpeed
      && t.rates == Some(Rates(cut, jog)) && t.timeSavedPercentage.None?
  {
    FullSavings(norm, pts, hs, cut, jog);
    var ps := PositioningPoints(pts, HeightSet(hs));
    SavingsArithmetic(|ps|, PathLength(norm, ps), cut, jog);
  }

  /** The value of the full computation, spelled out. */
  lemma FullSavings(norm: (real, real) -> real, pts: seq<Point>, hs: seq<HeightCount>, cut: real, jog: real)
    requires TimeSavingsOf(norm, pts, hs, cut, jog).Ok?
    requires TimeSavingsOf(norm, pts, hs, cut, jog).value.positioningCommands >= 2
    ensures var ps := PositioningPoints(pts, HeightSet(hs));
      var total := PathLength(norm, ps);
      |ps| >= 2 && cut != 0.0 && jog != 0.0
      && TimeSavingsOf(norm, pts, hs, cut, jog).value
        == TimeSavings(|ps|, total / (|ps| - 1) as real, total, total / cut, total / jog, total / cut - total / jog,
          None, jog / cut, Some(Rates(cut, jog)))
  {
  }

  /** The arithmetic of the full computation, for any total. */
  lemma SavingsArithmetic(n: nat, total: real, cut: real, jog: real)
    requires n >= 2 && cut != 0.0 && jog != 0.0
    ensures var t := TimeSavings(n, total / (n - 1) as real, total, total / cut, total / jog,
        total / cut - total / jog, None, jog / cut, Some(Rates(cut, jog)));
      t.avgMoveDistance * (t.positioningCommands - 1) as real == t.totalMoveDistance
      && t.timeAtCuttingSpeed * cut == t.totalMoveDistance
      && t.timeAtJogSpeed * jog == t.totalMoveDistance
  {
    var m := (n - 1) as real;
    assert total / m * m == total;
  }

  /** The positioning moves counted here are the ones the conversion
      statistics count. */
  lemma TimeSavingsCountsPositioning(norm: (real, real) -> real, pts: seq<Point>, hs: seq<HeightCount>, cut: real, jog: real)
    requires TimeSavingsOf(norm, pts, hs, cut, jog).Ok?
    ensures TimeSavingsOf(norm, pts, hs, cut, jog).value.positioningCommands
      == ConversionStatsOf(Zs(pts), hs).positioningCommands
  {
    if hs != [] {
      PositioningPointsCount(pts, HeightSet(hs));
      if pts == [] {
        assert Zs(pts) == [];
      }
    }
  }

  /** Jogging at least as fast as cutting never loses time. */
  lemma JoggingSavesTime(norm: (real, real) -> real, pts: seq<Point>, hs: seq<HeightCount>, cut: real, jog: real)
    requires IsHypot(norm) && 0.0 < cut <= jog
    ensures TimeSavingsOf(norm, pts, hs, cut, jog).Ok?
    ensures TimeSavingsOf(norm, pts, hs, cut, jog).value.timeSavedMinutes >= 0.0
  {
    if hs != [] && pts != [] {
      var ps := PositioningPoints(pts, HeightSet(hs));
      if |ps| >= 2 {
        var d := PathLength(norm, ps);
        PathLengthNonNegative(norm, ps);
        SlowerTakesLonger(d, cut, jog);
      }
    }
  }

  lemma SlowerTakesLonger(d: real, cut: real, jog: real)
    requires d >= 0.0 && 0.0 < cut <= jog
    ensures d / cut - d / jog >= 0.0
  {
    assert d / jog * jog == d;
    assert d / cut * cut == d;
    assert d / jog * cut <= d / jog * jog;
  }

  /** A single hop of a 3-4-5 triangle at the default rates (60 and 300
      inches per minute). */
  lemma ThreeFourFive(norm: (real, real) -> real)
    requires IsHypot(norm)
    ensures var pts := [Point(0.0, 0.0, 0.5), Point(3.0, 4.0, 0.5)];
      var r := TimeSavingsOf(norm, pts, [HeightCount(0.5, 2)], 60.0, 300.0);
      r.Ok? && r.value.totalMoveDistance == 5.0 && r.value.timeSavedMinutes == 5.0 / 60.0 - 5.0 / 300.0
  {
    var pts := [Point(0.0, 0.0, 0.5), Point(3.0, 4.0, 0.5)];
    var hs := [HeightCount(0.5, 2)];
    assert HeightSet(hs) == {0.5} by {
      assert hs[0].z == 0.5;
      forall h ensures h in HeightSet(hs) <==> h == 0.5 {
        if h in HeightSet(hs) {
          var i :| 0 <= i < |hs| && hs[i].z == h;
        }
      }
    }
    assert PositioningPoints(pts[1..], {0.5}) == [pts[1]];
    assert PositioningPoints(pts, {0.5}) == pts;
    assert pts[..1] == [pts[0]];
    var n := norm(3.0, 4.0);
    assert n >= 0.0 && n * n == 25.0;
    SquareRootOf25(n);
  }

  lemma SquareRootOf25(n: real)
    requires n >= 0.0 && n * n == 25.0
    ensures n == 5.0
  {
    assert (5.0 - n) * (5.0 + n) == 0.0;
    assert 5.0 + n > 0.0;
  }
}
