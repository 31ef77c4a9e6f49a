/** `SpeedAnalyzer` (src/shopbotjog/speed_analyzer.py): the statistics of
    the processor again, with every positioning move taken to be 2.0
    inches long instead of measured. Its conversion statistics are the
    processor's (`Stats.ConversionStatsOf`); its time estimate is its own. */
module SpeedAnalyzer {
  import opened Wrappers
  import opened Failures
  import opened Heights
  import opened Stats

  /** The conservative length of one positioning move, in inches. */
  const AvgMoveDistance: real := 2.0

  /** The rates `SpeedAnalyzer()` is constructed with by default. */
  const DefaultCuttingSpeed: real := 60.0
  const DefaultJogSpeed: real := 300.0

  /** The dictionary `calculate_time_savings` returns; only the full
      estimate carries the rates. */
  datatype Estimate = Estimate(
    positioningCommands: nat,
    avgMoveDistance: real,
    timeAtCuttingSpeed: real,
    timeAtJogSpeed: real,
    timeSavedMinutes: real,
    timeSavedPercentage: real,
    speedImprovementFactor: real,
    rates: Option<Rates>)

  /** `calculate_time_savings(z_values, positioning_heights, cut, jog)`.
      Python divides by `cut` in every branch and also by `jog` in the full
      estimate; a zero divisor raises ZeroDivisionError. */
  function TimeEstimate(zs: seq<real>, hs: seq<HeightCount>, cut: real, jog: real): Result<Estimate, Failure> {
    if hs == [] || zs == [] then
      if cut == 0.0 then Err(ZeroDivision)
      else Ok(Estimate(0, 0.0, 0.0, 0.0, 0.0, 0.0, jog / cut, None))
    else if cut == 0.0 || jog == 0.0 then Err(ZeroDivision)
    else
      var p := CountIn(zs, HeightSet(hs));
      var atCutting := p as real * AvgMoveDistance / cut;
      var atJog := p as real * AvgMoveDistance / jog;
      var factor := jog / cut;
      Ok(Estimate(p, AvgMoveDistance, atCutting, atJog, atCutting - atJog, (factor - 1.0) / factor * 100.0,
        factor, Some(Rates(cut, jog))))
  }

  /** The estimate fails exactly when it divides by a zero rate. */
  lemma EstimateFails(zs: seq<real>, hs: seq<HeightCount>, cut: real, jog: real)
    ensures TimeEstimate(zs, hs, cut, jog).Err? <==> cut == 0.0 || (jog == 0.0 && hs != [] && zs != [])
  {
  }

  /** With no heights or no cuts every time is zero, and the factor is
      still `jog / cut`. */
  lemma EstimateWithoutMoves(zs: seq<real>, hs: seq<HeightCount>, cut: real, jog: real)
    requires hs == [] || zs == []
    requires cut != 0.0
    ensures var e := TimeEstimate(zs, hs, cut, jog);
      e.Ok? && e.value.positioningCommands == 0 && e.value.timeAtCuttingSpeed == 0.0
      && e.value.timeAtJogSpeed == 0.0 && e.value.timeSavedMinutes == 0.0
      && e.value.timeSavedPercentage == 0.0 && e.value.speedImprovementFactor == jog / cut
  {
  }

  /** The full estimate: each move is 2.0 inches, each time is the distance
      over its rate, the saving is their difference, and the positioning
      moves are those the conversion statistics count. */
  lemma EstimateMeaning(zs: seq<real>, hs: seq<HeightCount>, cut: real, jog: real)
    requires hs != [] && zs != [] && cut != 0.0 && jog != 0.0
    ensures var e := TimeEstimate(zs, hs, cut, jog).value;
      var distance := e.positioningCommands as real * 2.0;
      e.positioningCommands == ConversionStatsOf(zs, hs).positioningCommands
      && e.timeAtCuttingSpeed * cut == distance && e.timeAtJogSpeed * jog == distance
      && e.timeSavedMinutes == e.timeAtCuttingSpeed - e.timeAtJogSpeed
      && e.speedImprovementFactor * cut == jog
  {
    var e := TimeEstimate(zs, hs, cut, jog).value;
    var d := e.positioningCommands as real * 2.0;
    assert d / cut * cut == d;
    assert d / jog * jog == d;
    assert jog / cut * cut == jog;
  }

  /** `time_saved_percentage` is the share of the cutting time that jogging
      saves: `(factor - 1) / factor * 100 == time_saved / time_at_cutting * 100`
      whenever some move is converted. */
  lemma PercentageIsShareSaved(zs: seq<real>, hs: seq<HeightCount>, cut: real, jog: real)
    requires hs != [] && zs != [] && cut != 0.0 && jog != 0.0
    requires CountIn(zs, HeightSet(hs)) > 0
    ensures var e := TimeEstimate(zs, hs, cut, jog).value;
      e.timeSavedPercentage == e.timeSavedMinutes / e.timeAtCuttingSpeed * 100.0
  {
    var d := CountIn(zs, HeightSet(hs)) as real * 2.0;
    ShareSaved(d, cut, jog);
  }

  lemma ShareSaved(d: real, cut: real, jog: real)
    requires d != 0.0 && cut != 0.0 && jog != 0.0
    ensures (jog / cut - 1.0) / (jog / cut) == (d / cut - d / jog) / (d / cut)
  {
    var f := jog / cut;
    assert f * cut == jog;
    assert (f - 1.0) / f == 1.0 - cut / jog by {
      assert (f - 1.0) / f == 1.0 - 1.0 / f;
      assert 1.0 / f == cut / jog;
    }
    assert (d / cut - d / jog) / (d / cut) == 1.0 - cut / jog by {
      assert (d / jog) / (d / cut) == cut / jog;
    }
  }

  /** When jogging is at least as fast as cutting, the percentage lies in
      [0, 100). */
  lemma PercentageBounds(zs: seq<real>, hs: seq<HeightCount>, cut: real, jog: real)
    requires hs != [] && zs != [] && 0.0 < cut <= jog
    ensures 0.0 <= TimeEstimate(zs, hs, cut, jog).value.timeSavedPercentage < 100.0
  {
    var f := jog / cut;
    assert f >= 1.0 by {
      assert f * cut == jog;
    }
    assert (f - 1.0) / f == 1.0 - 1.0 / f;
    assert 0.0 < 1.0 / f <= 1.0;
  }

  /** The default rates, 60 and 300 inches per minute, save 80% of the
      positioning time. */
  lemma DefaultRatesSaveEighty(zs: seq<real>, hs: seq<HeightCount>)
    requires hs != [] && zs != []
    ensures TimeEstimate(zs, hs, DefaultCuttingSpeed, DefaultJogSpeed).value.timeSavedPercentage == 80.0
  {
    assert DefaultJogSpeed / DefaultCuttingSpeed == 5.0;
  }

  /** `calculate_conversion_stats` (speed_analyzer.py:19-51): the positioning
      commands are the cuts at a listed height, the rest are cutting
      commands, the percentage is their share, and the heights to convert
      are the listed heights in their given order. */
  lemma ConversionStatsMeaning(zs: seq<real>, hs: seq<HeightCount>)
    ensures var c := ConversionStatsOf(zs, hs);
      c.totalCuts == |zs|
      && c.positioningCommands == (if hs == [] then 0 else CountIn(zs, HeightSet(hs)))
      && c.cuttingCommands == c.totalCuts - c.positioningCommands
      && 0.0 <= c.conversionPercentage <= 100.0
      && |c.heightsToConvert| == |hs| && forall i :: 0 <= i < |hs| ==> c.heightsToConvert[i] == hs[i].z
  {
    ConversionSplitsCuts(zs, hs);
    ConversionPercentage(zs, hs);
  }

  /** Without heights nothing is converted, whatever the cuts. */
  lemma ConversionStatsEmpty(zs: seq<real>, hs: seq<HeightCount>)
    requires hs == []
    ensures ConversionStatsOf(zs, hs) == ConversionStats(|zs|, 0, |zs|, 0.0, [])
  {
  }
}
