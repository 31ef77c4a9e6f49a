/** The pass of `analyze_file` over a file's lines
    (src/shopbotjog/core.py:41-117): it counts lines and cuts, collects the
    cut heights and coordinates, remembers the last declared move and jog
    rates, and assembles the analysis the rewrite is driven by. */
module Analysis {
  import opened Wrappers
  import opened Failures
  import opened Text
  import opened Parser
  import opened Heights
  import opened Stats

  /** The loop variables of `analyze_file` after some lines. */
  datatype Scan = Scan(
    totalLines: nat,
    m3Commands: nat,
    zValues: seq<real>,
    m3Coordinates: seq<Point>,
    detectedMoveSpeed: Option<real>,
    detectedJogSpeed: Option<real>)

  const EmptyScan := Scan(0, 0, [], [], None, None)

  /** The command on each line, as `analyze_file` reads it after
      `line.strip()`. */
  function Commands(lines: seq<string>): (cmds: seq<Command>)
    ensures |cmds| == |lines| && forall i :: 0 <= i < |lines| ==> cmds[i] == Classify(Strip(lines[i]))
  {
    seq(|lines|, i requires 0 <= i < |lines| => Classify(Strip(lines[i])))
  }

  /** What the command of one line does to the loop variables. Declared
      rates are in inches per second and kept per minute. */
  function ScanLine(s: Scan, c: Command): Result<Scan, Failure> {
    var s1 := s.(totalLines := s.totalLines + 1);
    match c
    case Cut(x, y, z) =>
      Ok(s1.(m3Commands := s.m3Commands + 1, zValues := s.zValues + [z],
        m3Coordinates := s.m3Coordinates + [Point(x, y, z)]))
    case MoveSpeed(v) => Ok(s1.(detectedMoveSpeed := Some(v * 60.0)))
    case JogSpeed(v) => Ok(s1.(detectedJogSpeed := Some(v * 60.0)))
    case Malformed(f) => Err(BadNumber(f))
    case Other => Ok(s1)
  }

  /** The loop variables after the lines whose commands are `cmds`, or the
      ValueError that stopped the loop. */
  function ScanOf(cmds: seq<Command>): Result<Scan, Failure> {
    if cmds == [] then Ok(EmptyScan)
    else
      match ScanOf(cmds[..|cmds| - 1])
      case Err(e) => Err(e)
      case Ok(s) => ScanLine(s, cmds[|cmds| - 1])
  }

  /** The `for line_num, line in enumerate(f, 1)` loop, over the lines'
      commands. */
  method ScanLines(cmds: seq<Command>) returns (r: Result<Scan, Failure>)
    ensures r == ScanOf(cmds)
  {
    var s := EmptyScan;
    var i := 0;
    while i < |cmds|
      invariant 0 <= i <= |cmds|
      invariant ScanOf(cmds[..i]) == Ok(s)
    {
      assert cmds[..i + 1][..i] == cmds[..i];
      var next := ScanLine(s, cmds[i]);
      if next.Err? {
        ErrorPersists(cmds, i + 1);
        return next;
      }
      s := next.value;
      i := i + 1;
    }
    assert cmds[..i] == cmds;
    r := Ok(s);
  }

  /** Once the scan fails it stays failed with the same error. */
  lemma {:induction false} ErrorPersists(cmds: seq<Command>, i: nat)
    requires i <= |cmds| && ScanOf(cmds[..i]).Err?
    ensures ScanOf(cmds) == ScanOf(cmds[..i])
    decreases |cmds| - i
  {
    if i < |cmds| {
      assert cmds[..i + 1][..i] == cmds[..i];
      ErrorPersists(cmds, i + 1);
    } else {
      assert cmds[..i] == cmds;
    }
  }

  /** A line that does not parse ends the scan with a ValueError quoting
      its rejected field. */
  lemma ErrorStops(cmds: seq<Command>, i: nat)
    requires i < |cmds| && ScanOf(cmds[..i]).Ok? && cmds[i].Malformed?
    ensures ScanOf(cmds[..i + 1]) == Err(BadNumber(cmds[i].field))
  {
    assert cmds[..i + 1][..i] == cmds[..i];
  }

  /** The scan fails exactly when some line matches a pattern with a field
      `float()` rejects, and the error quotes the field of the first such
      line. */
  lemma {:induction false} ScanFails(cmds: seq<Command>)
    ensures ScanOf(cmds).Ok? <==> forall i :: 0 <= i < |cmds| ==> !cmds[i].Malformed?
    ensures ScanOf(cmds).Err? ==> exists k :: (0 <= k < |cmds| && cmds[k].Malformed?
      && ScanOf(cmds) == Err(BadNumber(cmds[k].field)) && forall j :: 0 <= j < k ==> !cmds[j].Malformed?)
  {
    if cmds != [] {
      var init := cmds[..|cmds| - 1];
      ScanFails(init);
      if ScanOf(init).Err? {
        var k :| 0 <= k < |init| && init[k].Malformed?
          && ScanOf(init) == Err(BadNumber(init[k].field)) && forall j :: 0 <= j < k ==> !init[j].Malformed?;
        assert cmds[k] == init[k];
      }
    }
  }

  /** The number of cut lines. */
  function CutLines(cmds: seq<Command>): nat {
    if cmds == [] then 0
    else CutLines(cmds[..|cmds| - 1]) + (if cmds[|cmds| - 1].Cut? then 1 else 0)
  }

  /** A line declaring a rate: MS when `move`, JS otherwise. */
  predicate Declares(c: Command, move: bool) {
    if move then c.MoveSpeed? else c.JogSpeed?
  }

  /** The last declared rate in file order, converted to inches per
      minute: `move` selects MS, otherwise JS. */
  function LastRate(cmds: seq<Command>, move: bool): Option<real> {
    if cmds == [] then None
    else if Declares(cmds[|cmds| - 1], move) then Some(cmds[|cmds| - 1].xy * 60.0)
    else LastRate(cmds[..|cmds| - 1], move)
  }

  /** There is no detected rate exactly when no line declares one. */
  lemma {:induction false} NoDeclaredRate(cmds: seq<Command>, move: bool)
    ensures LastRate(cmds, move).None? <==> forall i :: 0 <= i < |cmds| ==> !Declares(cmds[i], move)
  {
    if cmds != [] {
      NoDeclaredRate(cmds[..|cmds| - 1], move);
    }
  }

  /** The last declaration wins: a detected rate is 60 times the rate of a
      declaring line after which no line declares one. */
  lemma {:induction false} LastRateWins(cmds: seq<Command>, move: bool)
    requires LastRate(cmds, move).Some?
    ensures exists i :: (0 <= i < |cmds| && Declares(cmds[i], move)
      && LastRate(cmds, move).value == cmds[i].xy * 60.0
      && forall j :: i < j < |cmds| ==> !Declares(cmds[j], move))
  {
    var n := |cmds| - 1;
    if Declares(cmds[n], move) {
      assert Declares(cmds[n], move) && LastRate(cmds, move).value == cmds[n].xy * 60.0;
    } else {
      var init := cmds[..n];
      LastRateWins(init, move);
      var i :| 0 <= i < |init| && Declares(init[i], move)
        && LastRate(init, move).value == init[i].xy * 60.0
        && forall j :: i < j < |init| ==> !Declares(init[j], move);
      assert Declares(cmds[i], move);
    }
  }

  /** The heights of the cuts, in file order. */
  function CutHeights(cmds: seq<Command>): seq<real> {
    if cmds == [] then []
    else CutHeights(cmds[..|cmds| - 1]) + (if cmds[|cmds| - 1].Cut? then [cmds[|cmds| - 1].z] else [])
  }

  /** A successful scan counts every line, collects one height and one
      triple per cut line, in order, and holds the last declared rates. */
  lemma {:induction false} ScanMeaning(cmds: seq<Command>)
    requires ScanOf(cmds).Ok?
    ensures var s := ScanOf(cmds).value;
      s.totalLines == |cmds| && s.m3Commands == |s.zValues| == |s.m3Coordinates| == CutLines(cmds)
      && s.zValues == CutHeights(cmds) && Zs(s.m3Coordinates) == s.zValues
      && s.detectedMoveSpeed == LastRate(cmds, true) && s.detectedJogSpeed == LastRate(cmds, false)
  {
    if cmds != [] {
      var init := cmds[..|cmds| - 1];
      ScanMeaning(init);
      var s := ScanOf(init).value;
      var t := ScanOf(cmds).value;
      if cmds[|cmds| - 1].Cut? {
        assert Zs(t.m3Coordinates) == Zs(s.m3Coordinates) + [t.zValues[|t.zValues| - 1]];
      }
    }
  }

  /** What `analyze_file` returns for a readable `.sbp` file. */
  datatype FileAnalysis =
    /** The "No M3 commands found in file" dictionary. */
    | NoCutCommands(totalLines: nat)
    | Analyzed(
        totalLines: nat,
        m3Commands: nat,
        zValues: seq<real>,
        heights: HeightAnalysis,
        detectedMoveSpeed: Option<real>,
        detectedJogSpeed: Option<real>,
        actualCuttingSpeed: real,
        actualJogSpeed: real,
        conversionStats: ConversionStats,
        timeSavings: TimeSavings)
  {
    /** `suggested_retract_height` (the feed height); `None` without cuts. */
    function SuggestedRetractHeight(): Option<real> {
      if NoCutCommands? then None else heights.feedHeight
    }

    /** `m3_commands`. */
    function CutCount(): nat {
      if NoCutCommands? then 0 else m3Commands
    }
  }

  /** The analysis of a file whose lines have the commands `cmds`, with
      the processor's configured rates `cut` and `jog` as fallbacks and
      `norm` as the planar distance. */
  function AnalyzeLines(norm: (real, real) -> real, cmds: seq<Command>, cut: real, jog: real)
    : Result<FileAnalysis, Failure>
  {
    match ScanOf(cmds)
    case Err(e) => Err(e)
    case Ok(s) =>
      if s.zValues == [] then Ok(NoCutCommands(s.totalLines))
      else
        var actualCut := s.detectedMoveSpeed.GetOr(cut);
        var actualJog := s.detectedJogSpeed.GetOr(jog);
        var h := AnalyzePositioningHeights(s.zValues);
        match TimeSavingsOf(norm, s.m3Coordinates, h.positioningHeights, actualCut, actualJog)
        case Err(e) => Err(e)
        case Ok(t) =>
          Ok(Analyzed(s.totalLines, s.m3Commands, s.zValues, h, s.detectedMoveSpeed, s.detectedJogSpeed,
            actualCut, actualJog, ConversionStatsOf(s.zValues, h.positioningHeights), t))
  }

  /** Declared rates replace the configured ones; without a declaration
      the configured rate is used. */
  lemma DeclaredRatesOverride(norm: (real, real) -> real, cmds: seq<Command>, cut: real, jog: real)
    requires AnalyzeLines(norm, cmds, cut, jog).Ok? && AnalyzeLines(norm, cmds, cut, jog).value.Analyzed?
    ensures var a := AnalyzeLines(norm, cmds, cut, jog).value;
      a.actualCuttingSpeed == LastRate(cmds, true).GetOr(cut)
      && a.actualJogSpeed == LastRate(cmds, false).GetOr(jog)
      && a.detectedMoveSpeed == LastRate(cmds, true) && a.detectedJogSpeed == LastRate(cmds, false)
  {
    ScanMeaning(cmds);
  }

  /** Without cut lines the analysis is the "no M3 commands" result, with
      no suggested height and a cut count of 0. */
  lemma NoCutsResult(norm: (real, real) -> real, cmds: seq<Command>, cut: real, jog: real)
    requires ScanOf(cmds).Ok? && CutLines(cmds) == 0
    ensures AnalyzeLines(norm, cmds, cut, jog) == Ok(NoCutCommands(|cmds|))
    ensures AnalyzeLines(norm, cmds, cut, jog).value.SuggestedRetractHeight().None?
    ensures AnalyzeLines(norm, cmds, cut, jog).value.CutCount() == 0
  {
    ScanMeaning(cmds);
  }

  lemma AnalysisSuggestsFeedHeight(norm: (real, real) -> real, cmds: seq<Command>, cut: real, jog: real)
    requires AnalyzeLines(norm, cmds, cut, jog).Ok? && AnalyzeLines(norm, cmds, cut, jog).value.Analyzed?
    ensures var a := AnalyzeLines(norm, cmds, cut, jog).value;
      a.SuggestedRetractHeight() == FeedHeight(CutHeights(cmds))
  {
    ScanMeaning(cmds);
  }
  lemma AnalysisCounts(norm: (real, real) -> real, cmds: seq<Command>, cut: real, jog: real)
    requires AnalyzeLines(norm, cmds, cut, jog).Ok? && AnalyzeLines(norm, cmds, cut, jog).value.Analyzed?
    ensures var a := AnalyzeLines(norm, cmds, cut, jog).value;
      a.m3Commands == CutLines(cmds) && a.totalLines == |cmds|
      && a.conversionStats.totalCuts == a.m3Commands
  {
    ScanMeaning(cmds);
  }
}
