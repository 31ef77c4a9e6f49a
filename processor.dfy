/** `ShopBotJogProcessor` (src/shopbotjog/core.py:11-474) over a modelled
    file system: `analyze_file` on a stored file, the choice of heights,
    the in-place rewrite with its timestamped backup or the rewrite into a
    separate file, and `validate_sbp_file`. */
module Processor {
  import opened Wrappers
  import opened Failures
  import opened Text
  import opened Parser
  import opened Heights
  import opened Stats
  import opened Analysis
  import opened Rewrite
  import opened Files

  /** `analyze_file(file_path)` with the files `files`, the configured
      rates `cut` and `jog` and `norm` as the planar distance: a missing
      file and a wrong suffix raise before the file is read. */
  function AnalyzeIn(files: map<Path, seq<string>>, p: Path, norm: (real, real) -> real, cut: real, jog: real)
    : Result<FileAnalysis, Failure>
  {
    if p !in files then Err(FileNotFound)
    else if !HasSbpSuffix(p) then Err(NotSbpFile)
    else AnalyzeLines(norm, Commands(files[p]), cut, jog)
  }

  /** The checks come first: a missing file is FileNotFoundError, an
      existing file without the `.sbp` suffix is ValueError, and an
      analysis that succeeds has read a `.sbp` file every line of which
      the scan accepted. */
  lemma AnalyzeInChecks(files: map<Path, seq<string>>, p: Path, norm: (real, real) -> real, cut: real, jog: real)
    ensures p !in files ==> AnalyzeIn(files, p, norm, cut, jog) == Err(FileNotFound)
    ensures p in files && !HasSbpSuffix(p) ==> AnalyzeIn(files, p, norm, cut, jog) == Err(NotSbpFile)
    ensures AnalyzeIn(files, p, norm, cut, jog).Ok? ==>
      p in files && HasSbpSuffix(p) && ScanOf(Commands(files[p])).Ok?
  {
  }

  /** The exceptions the analysis of a present `.sbp` file can raise: a
      ValueError naming a line, or a ZeroDivisionError. */
  lemma AnalysisErrors(norm: (real, real) -> real, cmds: seq<Command>, cut: real, jog: real)
    requires AnalyzeLines(norm, cmds, cut, jog).Err?
    ensures AnalyzeLines(norm, cmds, cut, jog).error.BadNumber? || AnalyzeLines(norm, cmds, cut, jog).error.ZeroDivision?
  {
    ScanFails(cmds);
  }

  /** The heights `process_file` converts: an explicit list first, then
      the legacy single `retract_height`, then the detected heights. */
  function ChooseHeights(explicit: Option<seq<real>>, legacy: Option<real>, detected: seq<HeightCount>): (hs: seq<real>)
    ensures explicit.Some? ==> hs == explicit.value
    ensures explicit.None? && legacy.Some? ==> hs == [legacy.value]
    ensures explicit.None? && legacy.None? ==> hs == HeightsOf(detected)
    ensures hs == [] <==> explicit == Some([]) || (explicit.None? && legacy.None? && detected == [])
  {
    match explicit
    case Some(hs) => hs
    case None =>
      match legacy
      case Some(h) => [h]
      case None => HeightsOf(detected)
  }

  /** Left to itself, the processor converts the feed height alone, and
      has nothing to convert exactly when there is no feed height. */
  lemma DetectedHeightsChosen(zs: seq<real>)
    ensures ChooseHeights(None, None, PositioningHeights(zs))
      == match FeedHeight(zs) case Some(h) => [h] case None => []
  {
  }

  /** The arguments of `process_file`. */
  datatype Request = Request(
    input: Path,
    output: Option<Path>,
    heights: Option<seq<real>>,
    retractHeight: Option<real>)

  /** What the processor takes from its surroundings: its version, the
      moment of the call, the planar distance, and the float renderings
      the header uses (`str(h)` and `f"{h:.4f}"`). */
  datatype Env = Env(
    version: string,
    now: DateTime,
    norm: (real, real) -> real,
    repr: real -> string,
    fixed4: real -> string)

  /** The dictionary of a successful `process_file`. */
  datatype Report = Report(
    inputFile: Path,
    outputFile: Path,
    positioningHeights: seq<real>,
    retractHeight: real,
    modificationsMade: nat,
    totalM3Commands: nat,
    conversionStats: ConversionStats,
    timeSavings: TimeSavings,
    inPlaceModification: bool,
    backupFile: Option<Path>)

  /** What `process_file` returns when it raises nothing: the "No M3
      commands found in file" analysis unchanged, "Could not determine
      positioning heights", "Failed to create backup", or the report. */
  datatype Outcome =
    | NoCuts(totalLines: nat)
    | NoHeights
    | BackupFailed
    | Processed(report: Report)

  /** One call of `process_file`: its result or exception, the files
      afterwards, and the heights it stored in `positioning_heights`
      (`None` when it returned before choosing them). */
  datatype Run = Run(result: Result<Outcome, Failure>, files: map<Path, seq<string>>, adopted: Option<seq<real>>)

  /** `process_file(input, output, heights, retract_height)` with the
      files `files`, of which those in `readOnly` cannot be opened for
      writing, and the processor's rates `cut` and `jog`. The input is
      read in full before any output is opened. */
  function ProcessIn(files: map<Path, seq<string>>, readOnly: set<Path>, req: Request, env: Env, cut: real, jog: real)
    : Run
  {
    match AnalyzeIn(files, req.input, env.norm, cut, jog)
    case Err(e) => Run(Err(e), files, None)
    case Ok(a) =>
      if a.NoCutCommands? then Run(Ok(NoCuts(a.totalLines)), files, None)
      else
        AnalyzeInChecks(files, req.input, env.norm, cut, jog);
        ViewsClean(files[req.input]);
        Convert(files, readOnly, req, env, a, Views(files[req.input]))
  }

  /** No line is a cut whose z field `float()` rejects. */
  predicate Clean(vs: seq<LineView>) {
    forall i :: 0 <= i < |vs| ==> !vs[i].kind.BadZ?
  }

  /** Once the analysis has accepted every line, no line can make the
      rewrite fail. */
  lemma ViewsClean(lines: seq<string>)
    requires ScanOf(Commands(lines)).Ok?
    ensures Clean(Views(lines))
  {
    ViewsAgree(lines);
  }

  /** `process_file` once the analysis found cuts, with `vs` the views of
      the input's lines: choose the heights, then deliver the rewritten
      file. */
  function Convert(files: map<Path, seq<string>>, readOnly: set<Path>, req: Request, env: Env, a: FileAnalysis,
    vs: seq<LineView>): Run
    requires req.input in files && a.Analyzed? && Clean(vs)
  {
    var hs := ChooseHeights(req.heights, req.retractHeight, a.heights.positioningHeights);
    if hs == [] then Run(Ok(NoHeights), files, None)
    else
      Deliver(files, readOnly, req, BackupPath(req.input, Stamp(env.now)), a, hs,
        OutputLines(vs, hs, env, req.input.name), Modifications(vs, hs))
  }

  /** The lines written: the header, then the rewritten lines. */
  function OutputLines(vs: seq<LineView>, hs: seq<real>, env: Env, name: string): seq<string>
    requires Clean(vs)
  {
    RewriteFails(vs, hs);
    Header(env.version, hs, name, env.repr, env.fixed4) + RewriteOf(vs, hs).value.body
  }

  /** The `modifications` count of the rewrite. */
  function Modifications(vs: seq<LineView>, hs: seq<real>): nat
    requires Clean(vs)
  {
    RewriteFails(vs, hs);
    RewriteOf(vs, hs).value.modifications
  }

  /** The part of `process_file` after the heights are chosen, given the
      backup path, the lines to write and their `modifications` count:
      the backup and rewrite in place, or the rewrite into the output
      file. The input is read in full before any output is opened. */
  function Deliver(files: map<Path, seq<string>>, readOnly: set<Path>, req: Request, backup: Path, a: FileAnalysis,
    hs: seq<real>, out: seq<string>, modifications: nat): Run
    requires req.input in files && a.Analyzed? && hs != []
  {
    var report := Report(req.input, req.output.GetOr(req.input), hs, hs[0], modifications, a.m3Commands,
      a.conversionStats, a.timeSavings, req.output.None?, None);
    match req.output
    case None =>
      if backup in readOnly then Run(Ok(BackupFailed), files, Some(hs))
      else
        var saved := files[backup := files[req.input]];
        if req.input in readOnly then Run(Err(WriteFailed), saved, Some(hs))
        else Run(Ok(Processed(report.(backupFile := Some(backup)))), saved[req.input := out], Some(hs))
    case Some(target) =>
      if target in readOnly then Run(Err(WriteFailed), files, Some(hs))
      else Run(Ok(Processed(report)), files[target := out], Some(hs))
  }

  /** `validate_sbp_file`'s signs of a ShopBot program. */
  const Indicators: seq<string> := ["SA", "M3,", "J2,", "J3,", "TR,", "CN,"]

  /** `f.read(1000)`: the first 1000 characters, or the whole text when it
      is shorter. */
  function Head(s: string): (r: string)
    ensures |r| <= 1000 && |r| <= |s| && r == s[..|r|]
    ensures |r| == |s| || |r| == 1000
  {
    if |s| <= 1000 then s else s[..1000]
  }

  /** Some indicator occurs in the first 1000 characters. */
  predicate Sniff(content: string) {
    exists k | 0 <= k < |Indicators| :: Contains(Head(content), Indicators[k])
  }

  /** `validate_sbp_file(p)`: an existing `.sbp` file whose text begins
      with an indicator within its first 1000 characters. */
  predicate ValidateSbpFile(files: map<Path, seq<string>>, p: Path) {
    p in files && HasSbpSuffix(p) && Sniff(Concat(files[p]))
  }

  /** The sniff test sees an indicator exactly when one occurs ending no
      later than the 1000th character. */
  lemma SniffWindow(content: string)
    ensures Sniff(content) <==> exists k, i :: (0 <= k < |Indicators| && OccursAt(content, Indicators[k], i)
      && i + |Indicators[k]| <= 1000)
  {
    var h := Head(content);
    if Sniff(content) {
      var k :| 0 <= k < |Indicators| && Contains(h, Indicators[k]);
      var i :| 0 <= i <= |h| && OccursAt(h, Indicators[k], i);
      assert content[i..i + |Indicators[k]|] == h[i..i + |Indicators[k]|];
      assert OccursAt(content, Indicators[k], i);
    }
    if exists k, i :: 0 <= k < |Indicators| && OccursAt(content, Indicators[k], i) && i + |Indicators[k]| <= 1000 {
      var k, i :| 0 <= k < |Indicators| && OccursAt(content, Indicators[k], i) && i + |Indicators[k]| <= 1000;
      assert h[i..i + |Indicators[k]|] == content[i..i + |Indicators[k]|];
      assert OccursAt(h, Indicators[k], i);
    }
  }

  /** A file that passes validation is never refused by the analysis for
      being missing or for its suffix. */
  lemma ValidIsAnalyzable(files: map<Path, seq<string>>, p: Path, norm: (real, real) -> real, cut: real, jog: real)
    requires ValidateSbpFile(files, p)
    ensures AnalyzeIn(files, p, norm, cut, jog) != Err(FileNotFound)
    ensures AnalyzeIn(files, p, norm, cut, jog) != Err(NotSbpFile)
  {
    if AnalyzeIn(files, p, norm, cut, jog).Err? {
      AnalysisErrors(norm, Commands(files[p]), cut, jog);
    }
  }

  /** A call that got as far as choosing heights: what the analysis
      found, which heights it chose, and that the rest is `Deliver`. */
  lemma DeliveredRun(files: map<Path, seq<string>>, readOnly: set<Path>, req: Request, env: Env, cut: real, jog: real)
    returns (a: FileAnalysis, hs: seq<real>)
    requires ProcessIn(files, readOnly, req, env, cut, jog).adopted.Some?
    ensures AnalyzeIn(files, req.input, env.norm, cut, jog) == Ok(a) && a.Analyzed?
    ensures req.input in files && ScanOf(Commands(files[req.input])).Ok? && Clean(Views(files[req.input]))
    ensures hs == ChooseHeights(req.heights, req.retractHeight, a.heights.positioningHeights) && hs != []
    ensures ProcessIn(files, readOnly, req, env, cut, jog)
      == Deliver(files, readOnly, req, BackupPath(req.input, Stamp(env.now)), a, hs,
        OutputLines(Views(files[req.input]), hs, env, req.input.name), Modifications(Views(files[req.input]), hs))
  {
    a := AnalyzeIn(files, req.input, env.norm, cut, jog).value;
    AnalyzeInChecks(files, req.input, env.norm, cut, jog);
    ViewsClean(files[req.input]);
    hs := ChooseHeights(req.heights, req.retractHeight, a.heights.positioningHeights);
  }

  /** An analysis that raises makes `process_file` raise the same,
      changing no file. */
  lemma AnalysisFailurePropagates(files: map<Path, seq<string>>, readOnly: set<Path>, req: Request, env: Env, cut: real,
    jog: real, e: Failure)
    requires AnalyzeIn(files, req.input, env.norm, cut, jog) == Err(e)
    ensures ProcessIn(files, readOnly, req, env, cut, jog) == Run(Err(e), files, None)
  {
  }

  /** A file without cuts is reported as the analysis found it, changing
      no file. */
  lemma NoCutsReturned(files: map<Path, seq<string>>, readOnly: set<Path>, req: Request, env: Env, cut: real,
    jog: real, n: nat)
    requires AnalyzeIn(files, req.input, env.norm, cut, jog) == Ok(NoCutCommands(n))
    ensures ProcessIn(files, readOnly, req, env, cut, jog) == Run(Ok(NoCuts(n)), files, None)
  {
  }

  /** With cuts in the file and no height chosen, `process_file` returns
      "Could not determine positioning heights" and changes no file. */
  lemma NoHeightsReturned(files: map<Path, seq<string>>, readOnly: set<Path>, req: Request, env: Env, cut: real,
    jog: real, a: FileAnalysis)
    requires AnalyzeIn(files, req.input, env.norm, cut, jog) == Ok(a) && a.Analyzed?
    requires ChooseHeights(req.heights, req.retractHeight, a.heights.positioningHeights) == []
    ensures ProcessIn(files, readOnly, req, env, cut, jog) == Run(Ok(NoHeights), files, None)
  {
    AnalyzeInChecks(files, req.input, env.norm, cut, jog);
    ViewsClean(files[req.input]);
  }

  /** With cuts in the file and some height chosen, `process_file` goes
      on to deliver with exactly those heights. */
  lemma HeightsAdopted(files: map<Path, seq<string>>, readOnly: set<Path>, req: Request, env: Env, cut: real,
    jog: real, a: FileAnalysis)
    requires AnalyzeIn(files, req.input, env.norm, cut, jog) == Ok(a) && a.Analyzed?
    requires ChooseHeights(req.heights, req.retractHeight, a.heights.positioningHeights) != []
    ensures ProcessIn(files, readOnly, req, env, cut, jog).adopted
      == Some(ChooseHeights(req.heights, req.retractHeight, a.heights.positioningHeights))
  {
    AnalyzeInChecks(files, req.input, env.norm, cut, jog);
    var vs := Views(files[req.input]);
    ViewsClean(files[req.input]);
    var hs := ChooseHeights(req.heights, req.retractHeight, a.heights.positioningHeights);
    DeliverAdopts(files, readOnly, req, BackupPath(req.input, Stamp(env.now)), a, hs,
      OutputLines(vs, hs, env, req.input.name), Modifications(vs, hs));
  }

  /** Past the choice of heights, the chosen heights are adopted whatever
      happens to the files. */
  lemma DeliverAdopts(files: map<Path, seq<string>>, readOnly: set<Path>, req: Request, backup: Path,
    a: FileAnalysis, hs: seq<real>, out: seq<string>, modifications: nat)
    requires req.input in files && a.Analyzed? && hs != []
    ensures Deliver(files, readOnly, req, backup, a, hs, out, modifications).adopted == Some(hs)
    ensures Deliver(files, readOnly, req, backup, a, hs, out, modifications).result.Ok? ==>
      Deliver(files, readOnly, req, backup, a, hs, out, modifications).result.value.BackupFailed?
      || Deliver(files, readOnly, req, backup, a, hs, out, modifications).result.value.Processed?
  {
  }

  /** The paths a call may write: the input and its backup in place, the
      output file otherwise. */
  function Touched(req: Request, backup: Path): set<Path> {
    match req.output
    case None => {req.input, backup}
    case Some(target) => {target}
  }

  /** No file outside `Touched` is created, removed or changed. */
  lemma OnlyTouchedChange(files: map<Path, seq<string>>, readOnly: set<Path>, req: Request, backup: Path,
    a: FileAnalysis, hs: seq<real>, out: seq<string>, modifications: nat)
    requires req.input in files && a.Analyzed? && hs != []
    ensures var run := Deliver(files, readOnly, req, backup, a, hs, out, modifications);
      run.files.Keys <= files.Keys + Touched(req, backup)
      && forall q :: q in files && q !in Touched(req, backup) ==> q in run.files && run.files[q] == files[q]
  {
  }

  /** A failed backup leaves every file as it was, and happens only in
      place, when the backup path cannot be written. */
  lemma BackupFailureChangesNothing(files: map<Path, seq<string>>, readOnly: set<Path>, req: Request, backup: Path,
    a: FileAnalysis, hs: seq<real>, out: seq<string>, modifications: nat)
    requires req.input in files && a.Analyzed? && hs != []
    ensures var run := Deliver(files, readOnly, req, backup, a, hs, out, modifications);
      run.result == Ok(BackupFailed) <==> req.output.None? && backup in readOnly
    ensures var run := Deliver(files, readOnly, req, backup, a, hs, out, modifications);
      run.result == Ok(BackupFailed) ==> run.files == files
  {
  }

  /** In place, the backup is taken before the input is touched: once it
      is, the backup holds the original lines whether or not the input
      can then be written, and a failed write leaves the input as it was. */
  lemma BackupBeforeWrite(files: map<Path, seq<string>>, readOnly: set<Path>, req: Request, backup: Path,
    a: FileAnalysis, hs: seq<real>, out: seq<string>, modifications: nat)
    requires req.input in files && a.Analyzed? && hs != [] && req.output.None?
    requires Deliver(files, readOnly, req, backup, a, hs, out, modifications).result != Ok(BackupFailed)
    ensures var run := Deliver(files, readOnly, req, backup, a, hs, out, modifications);
      backup in run.files && (backup != req.input ==> run.files[backup] == files[req.input])
      && (run.result == Err(WriteFailed) ==> run.files == files[backup := files[req.input]])
  {
  }

  /** The written file and the report: in place, the output is the input
      and the backup is named; with an output path there is no backup,
      and the input is left as it was unless it is the output. */
  lemma ReportedPaths(files: map<Path, seq<string>>, readOnly: set<Path>, req: Request, backup: Path,
    a: FileAnalysis, hs: seq<real>, out: seq<string>, modifications: nat)
    requires req.input in files && a.Analyzed? && hs != []
    requires var r := Deliver(files, readOnly, req, backup, a, hs, out, modifications).result;
      r.Ok? && r.value.Processed?
    ensures var run := Deliver(files, readOnly, req, backup, a, hs, out, modifications);
      var rep := run.result.value.report;
      rep.outputFile in run.files && run.files[rep.outputFile] == out
      && rep.inputFile == req.input && rep.inPlaceModification == req.output.None?
      && rep.positioningHeights == hs && rep.retractHeight == hs[0] && rep.modificationsMade == modifications
      && rep.totalM3Commands == a.m3Commands && run.adopted == Some(hs)
      && (req.output.None? ==> rep.outputFile == req.input && rep.backupFile == Some(backup))
      && (req.output.Some? ==> rep.outputFile == req.output.value && rep.backupFile.None?)
      && (req.output.Some? && req.output.value != req.input ==> run.files[req.input] == files[req.input])
  {
  }

  /** The lines written are the five header lines followed by exactly one
      line per input line: the converted line for a cut at a chosen
      height, the input line itself otherwise. */
  lemma WrittenLines(lines: seq<string>, hs: seq<real>, env: Env, name: string)
    requires Clean(Views(lines))
    ensures var written := OutputLines(Views(lines), hs, env, name);
      |written| == 5 + |lines|
      && written[..5] == Header(env.version, hs, name, env.repr, env.fixed4)
      && forall i :: 0 <= i < |lines| ==> written[5 + i] == Output(View(lines[i]), hs)
  {
    var vs := Views(lines);
    RewriteFails(vs, hs);
    RewriteMeaning(vs, hs);
    var h := Header(env.version, hs, name, env.repr, env.fixed4);
    HeaderShape(env.version, hs, name, env.repr, env.fixed4);
    var b := RewriteOf(vs, hs).value.body;
    var written := OutputLines(vs, hs, env, name);
    assert written == h + b;
    assert written[..5] == h;
    forall i | 0 <= i < |lines|
      ensures written[5 + i] == Output(View(lines[i]), hs)
    {
      ViewAt(lines, i);
      assert written[5 + i] == b[i];
    }
  }

  /** `modifications_made` is the number of cuts at a chosen height, no
      more than the number of cuts. */
  lemma ModificationsCounted(lines: seq<string>, hs: seq<real>)
    requires ScanOf(Commands(lines)).Ok? && Clean(Views(lines))
    ensures Modifications(Views(lines), hs) == CountIn(CutHeights(Commands(lines)), Members(hs))
    ensures Modifications(Views(lines), hs) <= CutLines(Commands(lines))
  {
    RewriteAgreesWithScan(lines, hs);
  }

  /** With no heights given, the single detected feed height is chosen,
      and the lines converted are exactly the `positioning_commands` of
      the analysis's conversion statistics: the occurrences of that height. */
  lemma {:induction false} DetectedModifications(lines: seq<string>)
    requires ScanOf(Commands(lines)).Ok? && Clean(Views(lines))
    requires FeedHeight(CutHeights(Commands(lines))).Some?
    ensures var zs := CutHeights(Commands(lines));
      var hs := ChooseHeights(None, None, PositioningHeights(zs));
      hs == [FeedHeight(zs).value]
      && Modifications(Views(lines), hs) == ConversionStatsOf(zs, PositioningHeights(zs)).positioningCommands
      && Modifications(Views(lines), hs) == PositioningHeights(zs)[0].count
  {
    var zs := CutHeights(Commands(lines));
    var hs := ChooseHeights(None, None, PositioningHeights(zs));
    ModificationsCounted(lines, hs);
    FeedHeightCount(zs, hs, Modifications(Views(lines), hs));
  }

  /** The count of cuts at the detected height is the conversion
      statistics' `positioning_commands`. */
  lemma FeedHeightCount(zs: seq<real>, hs: seq<real>, m: nat)
    requires FeedHeight(zs).Some? && hs == ChooseHeights(None, None, PositioningHeights(zs))
    requires m == CountIn(zs, Members(hs))
    ensures hs == [FeedHeight(zs).value]
    ensures m == ConversionStatsOf(zs, PositioningHeights(zs)).positioningCommands
    ensures m == PositioningHeights(zs)[0].count
  {
    var ph := PositioningHeights(zs);
    DetectedHeightsChosen(zs);
    var h := FeedHeight(zs).value;
    assert Members([h]) == {h};
    assert |ph| == 1 && ph[0].z == h;
    assert HeightSet(ph) == {h};
    ConversionSplitsCuts(zs, ph);
    ConversionOfFeedHeight(zs);
  }

  /** The streaming branch of `process_file` as written: the output file
      is opened for writing, and so emptied, before the input is read
      line by line; the result is the new files and the count of changed
      lines. A rewrite that raises is never reached after a successful
      analysis, and gives the emptied output with no lines changed. */
  function StreamedAsWritten(files: map<Path, seq<string>>, input: Path, target: Path, header: seq<string>,
    hs: seq<real>): (r: (map<Path, seq<string>>, nat))
    requires input in files
  {
    var emptied := files[target := []];
    match RewriteOf(Views(emptied[input]), hs)
    case Ok(rw) => (emptied[target := header + rw.body], rw.modifications)
    case Err(_) => (emptied, 0)
  }

  /** When the output path names a different file, streaming writes the
      header and the rewritten lines, as `Deliver` does. */
  lemma StreamedElsewhere(files: map<Path, seq<string>>, input: Path, target: Path, header: seq<string>, hs: seq<real>)
    requires input in files && target != input && Clean(Views(files[input]))
    ensures RewriteOf(Views(files[input]), hs).Ok?
    ensures var rw := RewriteOf(Views(files[input]), hs).value;
      StreamedAsWritten(files, input, target, header, hs) == (files[target := header + rw.body], rw.modifications)
  {
    var vs := Views(files[input]);
    RewriteFails(vs, hs);
    var emptied := files[target := []];
    assert emptied[input] == files[input];
    assert RewriteOf(Views(emptied[input]), hs) == RewriteOf(vs, hs);
    var rw := RewriteOf(vs, hs).value;
    assert StreamedAsWritten(files, input, target, header, hs) == (emptied[target := header + rw.body], rw.modifications);
    assert emptied[target := header + rw.body] == files[target := header + rw.body];
  }

  /** When the output path is the input path, streaming reads the file it
      has just emptied: whatever the input held, the file ends up holding
      the header alone and no line is counted as changed. */
  lemma StreamedOntoInputLosesLines(files: map<Path, seq<string>>, input: Path, header: seq<string>, hs: seq<real>)
    requires input in files
    ensures StreamedAsWritten(files, input, input, header, hs) == (files[input := header], 0)
  {
    var emptied := files[input := []];
    assert Views(emptied[input]) == [];
    assert RewriteOf(Views(emptied[input]), hs) == Ok(Rewritten([], 0));
    assert header + [] == header;
    assert emptied[input := header] == files[input := header];
  }

  /** The corrected behaviour, which `Deliver` models: reading the input
      before the output is opened, an output path equal to the input path
      receives the header and every input line, rewritten. */
  lemma OutputOntoInputKeepsLines(files: map<Path, seq<string>>, readOnly: set<Path>, req: Request, env: Env,
    a: FileAnalysis, hs: seq<real>)
    requires req.input in files && a.Analyzed? && hs != [] && Clean(Views(files[req.input]))
    requires req.output == Some(req.input) && req.input !in readOnly
    ensures var lines := files[req.input];
      var out := OutputLines(Views(lines), hs, env, req.input.name);
      var run := Deliver(files, readOnly, req, BackupPath(req.input, Stamp(env.now)), a, hs, out, Modifications(Views(lines), hs));
      run.result.Ok? && run.result.value.Processed? && run.files[req.input] == out
      && |out| == 5 + |lines|
      && forall i :: 0 <= i < |lines| ==> out[5 + i] == Output(View(lines[i]), hs)
  {
    WrittenLines(files[req.input], hs, env, req.input.name);
  }

  /** The header and the rewrite loop of `process_file`. */
  method RenderOutput(vs: seq<LineView>, hs: seq<real>, env: Env, name: string)
    returns (out: seq<string>, modifications: nat)
    requires Clean(vs)
    ensures out == OutputLines(vs, hs, env, name) && modifications == Modifications(vs, hs)
  {
    RewriteFails(vs, hs);
    var rewritten := RewriteBody(vs, hs);
    out := Header(env.version, hs, name, env.repr, env.fixed4) + rewritten.value.body;
    modifications := rewritten.value.modifications;
  }

  /** The processor object: the heights and count of its last run, and
      the fallback rates. */
  class ShopBotJogProcessor {
    var positioningHeights: seq<real>
    var modificationsMade: nat
    var cuttingSpeedIpm: real
    var jogSpeedIpm: real

    constructor()
      ensures positioningHeights == [] && modificationsMade == 0
      ensures cuttingSpeedIpm == 60.0 && jogSpeedIpm == 300.0
    {
      positioningHeights := [];
      modificationsMade := 0;
      cuttingSpeedIpm := 60.0;
      jogSpeedIpm := 300.0;
    }

    /** `analyze_file(p)`. */
    method AnalyzeFile(store: FileStore, p: Path, norm: (real, real) -> real) returns (r: Result<FileAnalysis, Failure>)
      ensures r == AnalyzeIn(store.files, p, norm, cuttingSpeedIpm, jogSpeedIpm)
    {
      if !store.Exists(p) {
        return Err(FileNotFound);
      }
      if !HasSbpSuffix(p) {
        return Err(NotSbpFile);
      }
      var scan := ScanLines(Commands(store.files[p]));
      if scan.Err? {
        return Err(scan.error);
      }
      var s := scan.value;
      if s.zValues == [] {
        return Ok(NoCutCommands(s.totalLines));
      }
      var actualCut := s.detectedMoveSpeed.GetOr(cuttingSpeedIpm);
      var actualJog := s.detectedJogSpeed.GetOr(jogSpeedIpm);
      var h := AnalyzePositioningHeights(s.zValues);
      var t := CalculateTimeSavings(norm, s.m3Coordinates, h.positioningHeights, actualCut, actualJog);
      if t.Err? {
        return Err(t.error);
      }
      r := Ok(Analyzed(s.totalLines, s.m3Commands, s.zValues, h, s.detectedMoveSpeed, s.detectedJogSpeed,
        actualCut, actualJog, ConversionStatsOf(s.zValues, h.positioningHeights), t.value));
    }

    /** `process_file`: the files, the result and the processor's fields
        after the call are those `ProcessIn` describes; the heights are
        stored once chosen, the modification count only on success. */
    method ProcessFile(store: FileStore, req: Request, env: Env) returns (r: Result<Outcome, Failure>)
      modifies this, store
      ensures var run := ProcessIn(old(store.files), old(store.readOnly), req, env, old(cuttingSpeedIpm), old(jogSpeedIpm));
        r == run.result && store.files == run.files
        && positioningHeights == run.adopted.GetOr(old(positioningHeights))
      ensures modificationsMade == if r.Ok? && r.value.Processed? then r.value.report.modificationsMade
        else old(modificationsMade)
      ensures store.readOnly == old(store.readOnly)
      ensures cuttingSpeedIpm == old(cuttingSpeedIpm) && jogSpeedIpm == old(jogSpeedIpm)
    {
      var analysis := AnalyzeFile(store, req.input, env.norm);
      if analysis.Err? {
        return Err(analysis.error);
      }
      var a := analysis.value;
      if a.NoCutCommands? {
        return Ok(NoCuts(a.totalLines));
      }
      AnalyzeInChecks(store.files, req.input, env.norm, cuttingSpeedIpm, jogSpeedIpm);
      ViewsClean(store.files[req.input]);
      r := ConvertFile(store, req, env, a, Views(store.files[req.input]));
    }

    /** `process_file` from the choice of heights on, as `Convert`
        describes it. */
    method ConvertFile(store: FileStore, req: Request, env: Env, a: FileAnalysis, vs: seq<LineView>)
      returns (r: Result<Outcome, Failure>)
      requires req.input in store.files && a.Analyzed? && Clean(vs)
      modifies this, store
      ensures var run := Convert(old(store.files), old(store.readOnly), req, env, a, vs);
        r == run.result && store.files == run.files
        && positioningHeights == run.adopted.GetOr(old(positioningHeights))
      ensures modificationsMade == if r.Ok? && r.value.Processed? then r.value.report.modificationsMade
        else old(modificationsMade)
      ensures store.readOnly == old(store.readOnly)
      ensures cuttingSpeedIpm == old(cuttingSpeedIpm) && jogSpeedIpm == old(jogSpeedIpm)
    {
      var hs := ChooseHeights(req.heights, req.retractHeight, a.heights.positioningHeights);
      if hs == [] {
        return Ok(NoHeights);
      }
      positioningHeights := hs;
      var out, modifications := RenderOutput(vs, hs, env, req.input.name);
      r := WriteResult(store, req, BackupPath(req.input, Stamp(env.now)), a, hs, out, modifications);
      DeliverAdopts(old(store.files), old(store.readOnly), req, BackupPath(req.input, Stamp(env.now)), a, hs, out,
        modifications);
    }

    /** The backup, rewrite and write of `process_file`, as `Deliver`
        describes them; only a written file updates `modifications_made`. */
    method WriteResult(store: FileStore, req: Request, backup: Path, a: FileAnalysis, hs: seq<real>,
      out: seq<string>, modifications: nat) returns (r: Result<Outcome, Failure>)
      requires req.input in store.files && a.Analyzed? && hs != []
      modifies this, store
      ensures var run := Deliver(old(store.files), old(store.readOnly), req, backup, a, hs, out, modifications);
        r == run.result && store.files == run.files
      ensures modificationsMade == if r.Ok? && r.value.Processed? then r.value.report.modificationsMade
        else old(modificationsMade)
      ensures store.readOnly == old(store.readOnly)
      ensures positioningHeights == old(positioningHeights)
      ensures cuttingSpeedIpm == old(cuttingSpeedIpm) && jogSpeedIpm == old(jogSpeedIpm)
    {
      var target := req.input;
      var backupFile: Option<Path> := None;
      if req.output.None? {
        var copied := store.Copy(req.input, backup);
        if !copied {
          return Ok(BackupFailed);
        }
        backupFile := Some(backup);
      } else {
        target := req.output.value;
      }
      var written := store.Write(target, out);
      if !written {
        return Err(WriteFailed);
      }
      modificationsMade := modifications;
      r := Ok(Processed(Report(req.input, target, hs, hs[0], modifications, a.m3Commands, a.conversionStats,
        a.timeSavings, req.output.None?, backupFile)));
    }
  }
}
