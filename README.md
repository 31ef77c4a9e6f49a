# ShopBotJog height classifier and rewriter, in Dafny

This project models the core of ShopBotJog. ShopBotJog is a tool that speeds up
ShopBot `.sbp` (OpenSBP) programs by turning the `M3` cutting moves that run at
the feed (clearance) height into `J3` jog moves.

The model covers the `ShopBotJogProcessor` of `src/shopbotjog/core.py`:

- the three line patterns (`M3`, `MS`, `JS`);
- `analyze_file`, with its loop over the lines, the last-wins speed declarations and the fallback rates;
- the feed-height rule of `_analyze_positioning_heights`;
- the conversion and time-saving statistics;
- `process_file`, with its height priority, the header, the line rewrite, the timestamped backup when rewriting in place, and the writing to a separate file;
- the sniff test of `validate_sbp_file`.

It also models the standalone estimates of `src/shopbotjog/speed_analyzer.py`,
and the manual feed-height check of `src/shopbotjog/cli.py`.

Modules, one per concern:

| file | module | models |
|---|---|---|
| wrappers.dfy | Wrappers | `Option` and `Result` |
| failures.dfy | Failures | the exceptions that escape the processor, as values |
| text.dfy | Text | `str.strip()`, `startswith`, `replace(old, new, 1)`, `in`, `join`, `lower()` |
| decimal.dfy | Decimal | `float()` on a `[\d.-]+` field, over exact reals |
| parser.dfy | Parser | the regexes of core.py:16-18 and the line classification of core.py:53-78 |
| heights.dfy | Heights | `Counter`, extremes, mean and the feed-height rule (core.py:119-160) |
| stats.dfy | Stats | conversion statistics and time savings (core.py:162-276) |
| analysis.dfy | Analysis | `analyze_file`'s loop and result (core.py:41-117) |
| rewrite.dfy | Rewrite | the header and the line rewrite of `process_file` (core.py:345-415) |
| files.dfy | Files | paths, `.sbp` suffix, timestamp, backup name, and a file store with `copy2` and `open(..., "w")` |
| processor.dfy | Processor | `analyze_file` and `process_file` on the file store, `validate_sbp_file`, and the class `ShopBotJogProcessor` |
| speed_analyzer.dfy | SpeedAnalyzer | `SpeedAnalyzer` with its fixed 2.0-inch move |
| cli.dfy | Cli | the manual `--feed-height` check |

Functions describe what each operation computes. Where the source works step by
step, the model has a method instead, proved equal to the function:

- `analyze_file`'s loop is `Analysis.ScanLines`;
- the distance accumulation is `Stats.SumDistances`;
- the rewrite loop is `Rewrite.RewriteBody`;
- the processor's methods update its fields and a `FileStore` object.

Lemmas state the promises of the source.

The docstring of `process_file` (core.py:290) says the output defaults to a
`_shopbotjog` file; the code rewrites the input in place instead, and the model
follows the code. A run is in place exactly when no output path is given
(core.py:320), so an explicit output path equal to the input path gets no
backup and goes through the streaming branch; see Findings.

Some functions are plain definitions used by the contracts and have no row
below: `Analysis.Commands` (each line classified after `strip()`),
`Stats.HeightSet` (`heights_set`), `Stats.HeightsOf` (`heights_to_convert`),
`Rewrite.Formatted` (the `:.4f` list of the header) and `Rewrite.ViewAt`.
The properties about them are stated by `Parser.CutShape`,
`Parser.ClassifyCutText`, `Stats.ConversionSplitsCuts`,
`Stats.ConversionOfFeedHeight` and `Rewrite.HeaderHeights`.

Rows marked "example" check one concrete input against a general lemma above
them; they illustrate the rule rather than add to it.

## Model

| member | source | states |
|---|---|---|
| Text.Strip | src/shopbotjog/core.py:53 | `line.strip()` returns a text with no whitespace at either end |
| Text.StripOf | src/shopbotjog/core.py:53 | stripping whitespace + trimmed text + whitespace gives exactly the trimmed text, so `strip()` removes exactly the surrounding whitespace |
| Text.StripIdempotent | src/shopbotjog/core.py:360 | stripping twice is stripping once |
| Text.ReplaceFirst | src/shopbotjog/core.py:369 | `replace("M3,", "J3,", 1)` on a text starting with `M3,` swaps that prefix, and leaves a text without `M3,` unchanged |
| Text.Lower | src/shopbotjog/core.py:38 | ASCII lower-casing, character by character, which agrees with `str.lower()` for the `!= ".sbp"` test at core.py:38 on ASCII names |
| Decimal.ParseDecimal | src/shopbotjog/core.py:59-61 | `float()` accepts only non-empty runs of `[\d.-]` |
| Decimal.ParseNumeral | src/shopbotjog/core.py:59-61 | every well-formed numeral (sign, digits, optional point and digits) parses to the number it denotes |
| Decimal.AcceptedAreNumerals | src/shopbotjog/core.py:59-61 | whatever `float()` accepts is a well-formed numeral, with that numeral's value |
| Decimal.RejectsTwoPoints | src/shopbotjog/core.py:59-61 | example: the field `1.2.3` matches the pattern but `float()` rejects it |
| Decimal.RejectsTwoSigns | src/shopbotjog/core.py:59-61 | example: the field `--` is rejected |
| Decimal.RejectsNoDigit | src/shopbotjog/core.py:59-61 | example: the fields `.` and `-` are rejected |
| Decimal.RejectsInnerMinus | src/shopbotjog/core.py:59-61 | example: the field `1-2` is rejected |
| Decimal.AcceptsNegativeFraction | src/shopbotjog/core.py:59-61 | example: `-0.5` parses to -0.5 |
| Decimal.AcceptsWholeNumber | src/shopbotjog/core.py:59-61 | example: `12` parses to 12 |
| Parser.MatchCut | src/shopbotjog/core.py:16 | a match of the `M3` pattern starts with `M3,` and is exactly `M3,` followed by three whitespace-led `[\d.-]+` fields separated by commas, with nothing after the third |
| Parser.MatchCutComplete | src/shopbotjog/core.py:16 | every line of that shape is matched, with exactly its three fields and their whitespace |
| Parser.MatchSpeed | src/shopbotjog/core.py:17-18 | a match of the `MS` or `JS` pattern is the prefix, whitespace and a `[\d.-]+` field, followed by anything that does not continue the field |
| Parser.MatchSpeedComplete | src/shopbotjog/core.py:17-18 | every line of that shape is matched, whatever follows the field |
| Parser.Classify | src/shopbotjog/core.py:55-78 | a line is a cut exactly when it matches the `M3` pattern and all three fields parse |
| Parser.CutCommand | src/shopbotjog/core.py:59-61 | a matched cut has coordinates exactly when `float()` accepts x, y and z, and they are those values; otherwise the ValueError quotes the first rejected field in the source's order z, x, y |
| Parser.SpeedCommand | src/shopbotjog/core.py:64-78 | a line matching the `MS` or `JS` pattern is never read as a cut |
| Parser.RateCommand | src/shopbotjog/core.py:67-77 | a speed line raises exactly when its XY field does not parse, and the ValueError quotes that field; otherwise its rate is the parsed field |
| Parser.CutShape | src/shopbotjog/core.py:16 | a line read as a cut is `M3,` and three numeric fields up to the end of the line, and its coordinates are the fields' values |
| Parser.ClassifyCutText | src/shopbotjog/core.py:56-62 | every well-shaped `M3` line with parsable fields is read as the cut at those coordinates |
| Parser.PatternsExclusive | src/shopbotjog/core.py:16-18 | a line matching the `M3` pattern matches neither `MS` nor `JS`, and `MS` and `JS` exclude each other |
| Parser.ClassifySpeed | src/shopbotjog/core.py:64-78 | an `MS,` or `JS,` line declares its XY field as the rate, whatever follows that field |
| Heights.Counter | src/shopbotjog/core.py:128 | `Counter(z_values)` has exactly the heights of the file as keys, each with its number of occurrences |
| Heights.MaxZ | src/shopbotjog/core.py:129 | `max_z` is a height of the file and no height exceeds it |
| Heights.MinZ | src/shopbotjog/core.py:130 | `min_z` is a height of the file and no height is below it |
| Heights.AvgBetween | src/shopbotjog/core.py:138 | `avg_z` lies between `min_z` and `max_z` |
| Heights.FeedHeightIsBest | src/shopbotjog/core.py:137-145 | the feed height is non-negative and occurs at least twice; no other such height occurs more often, and among equally frequent ones it is the largest |
| Heights.NoFeedHeight | src/shopbotjog/core.py:142-149 | there is no feed height exactly when no height is both non-negative and repeated |
| Heights.FeedHeightUnique | src/shopbotjog/core.py:144-145 | any height meeting the rule is the feed height, so the two-key sort determines it |
| Heights.NegativeNeverSelected | src/shopbotjog/core.py:136-137 | a negative height is never the feed height, whatever its frequency |
| Heights.TieTakesLarger | src/shopbotjog/core.py:144 | example: with equal counts, the larger height wins |
| Heights.NegativeIgnored | src/shopbotjog/core.py:137 | example: a frequent negative height loses to a rarer non-negative one, and a height used once is not a candidate |
| Heights.PositioningHeights | src/shopbotjog/core.py:142-149 | `positioning_heights` holds at most one pair; it is empty exactly when there is no feed height, and otherwise pairs the feed height with its count of at least 2 |
| Heights.SortDesc | src/shopbotjog/core.py:353 | `sorted(..., reverse=True)` is in non-increasing order and a permutation of its input |
| Heights.Distinct | src/shopbotjog/core.py:128 | the keys of the `Counter`: the same heights as the file, each once |
| Heights.FrequentHeights | src/shopbotjog/core.py:133-134 | `frequent_heights` pairs each listed height with its count of at least 2, in strictly decreasing order of height |
| Heights.FrequentHeightsComplete | src/shopbotjog/core.py:133 | no repeated height is missing from `frequent_heights` |
| Heights.AnalyzePositioningHeights | src/shopbotjog/core.py:119-160 | the analysis reports the feed height as both `feed_height` and `retract_height`, a mean between the extremes, and `positioning_heights` as the rule gives it |
| Stats.CountInSingle | src/shopbotjog/core.py:184 | counting the cuts against a single height gives that height's `Counter` entry |
| Stats.CountInExtremes | src/shopbotjog/core.py:184 | every cut counts when all heights are in the set, and none when none is |
| Stats.ConversionSplitsCuts | src/shopbotjog/core.py:174-191 | positioning + cutting = total cut commands, and the positioning commands are the cuts whose height is in the set |
| Stats.ConversionPercentage | src/shopbotjog/core.py:186 | the percentage is positioning/total × 100, and lies in [0, 100] |
| Stats.ConversionWithoutHeights | src/shopbotjog/core.py:174-181 | with no heights: 0 positioning, every command cutting, 0.0 percent, nothing to convert |
| Stats.ConversionOfFeedHeight | src/shopbotjog/core.py:183-184 | with the detected heights, the positioning commands are the occurrences of the feed height that `Counter` reported |
| Stats.PositioningPoints | src/shopbotjog/core.py:229 | the positioning coordinates are cuts at one of the heights, no more than the cuts |
| Stats.PositioningPointsMembers | src/shopbotjog/core.py:229 | a cut is a positioning coordinate exactly when its height is one of the heights |
| Stats.PositioningPointsAppend | src/shopbotjog/core.py:229 | the filter keeps file order: the coordinates of two stretches of the file are those of the first followed by those of the second |
| Stats.PositioningPointsKeepsAll | src/shopbotjog/core.py:229 | when every cut is at one of the heights, every cut is kept, in order |
| Stats.PositioningPointsCount | src/shopbotjog/core.py:229-230 | there are as many positioning coordinates as positioning commands |
| Stats.PathLengthNonNegative | src/shopbotjog/core.py:246-253 | with a Euclidean norm, the summed distance is never negative |
| Stats.CalculateTimeSavings | src/shopbotjog/core.py:196-276 | the method computes the time savings that `TimeSavingsOf` describes |
| Stats.SumDistances | src/shopbotjog/core.py:246-253 | the loop sums the planar distances between consecutive positioning points |
| Stats.TimeSavingsFails | src/shopbotjog/core.py:214-264 | the calculation raises ZeroDivisionError exactly when the cutting rate is 0, or the jog rate is 0 with at least two positioning points |
| Stats.TimeSavingsFactor | src/shopbotjog/core.py:214-264 | in every branch the improvement factor is jog/cut, and with fewer than two positioning points every distance, time and the percentage is 0 |
| Stats.TimeSavingsMeaning | src/shopbotjog/core.py:246-276 | otherwise the positioning commands are the positioning coordinates, the total is the length of the path through them in file order, avg × (n − 1) = total, each time is total over its rate, `time_saved` is the cutting time minus the jog time, the rates are reported and there is no percentage |
| Stats.TimeSavingsCountsPositioning | src/shopbotjog/core.py:226-230 | the positioning commands of the time savings are those of the conversion statistics |
| Stats.JoggingSavesTime | src/shopbotjog/core.py:259-261 | with 0 < cut ≤ jog, the calculation succeeds and never reports a negative saving |
| Stats.ThreeFourFive | src/shopbotjog/core.py:246-261 | example: one 3-4-5 hop at the default rates measures 5 inches and saves 5/60 − 5/300 minutes |
| Analysis.ScanLines | src/shopbotjog/core.py:50-78 | the loop computes what `ScanOf` describes |
| Analysis.ErrorPersists | src/shopbotjog/core.py:59-77 | once a line raises, the analysis raises that error |
| Analysis.ErrorStops | src/shopbotjog/core.py:59-77 | a line with a field that does not parse stops the loop with the ValueError quoting that field |
| Analysis.ScanFails | src/shopbotjog/core.py:50-78 | the loop fails exactly when some line has a matched field that `float()` rejects, and the ValueError quotes the rejected field of the first such line |
| Analysis.NoDeclaredRate | src/shopbotjog/core.py:47-48 | no rate is detected exactly when no line declares one |
| Analysis.LastRateWins | src/shopbotjog/core.py:64-78 | a detected rate is 60 × the XY field of a declaring line after which no line declares one |
| Analysis.ScanMeaning | src/shopbotjog/core.py:50-78 | the loop counts every line and collects one height and one triple per cut line, in file order; `m3_commands` is the number of cut lines; the detected rates are the last declared ones |
| Analysis.DeclaredRatesOverride | src/shopbotjog/core.py:89-91 | a detected rate replaces the configured one, and the configured rate is used otherwise |
| Analysis.NoCutsResult | src/shopbotjog/core.py:80-87 | without cut lines the result is "No M3 commands found in file", with `m3_commands` 0 and no suggested height |
| Analysis.AnalysisSuggestsFeedHeight | src/shopbotjog/core.py:107 | `suggested_retract_height` is the feed height of the cut heights |
| Analysis.AnalysisCounts | src/shopbotjog/core.py:96-113 | `m3_commands` is the number of cut lines, `total_lines` the number of lines, and `total_m3_commands` of the statistics equals `m3_commands` |
| Rewrite.CommentMarked | src/shopbotjog/core.py:349-356 | each comment line starts with `'` |
| Rewrite.HeaderShape | src/shopbotjog/core.py:349-357 | the header is five lines: four comment lines and a blank line |
| Rewrite.HeaderHeights | src/shopbotjog/core.py:350-354 | one height is shown by its `repr`; several are shown to 4 decimals as a descending arrangement of exactly those heights |
| Rewrite.KindOfCut | src/shopbotjog/core.py:363-366 | only a line matching the `M3` pattern is ever considered for conversion |
| Rewrite.Views | src/shopbotjog/core.py:359-361 | one view per line of the file |
| Rewrite.RewriteLines | src/shopbotjog/core.py:359-375 | the loop over the lines computes what `RewriteOf` describes |
| Rewrite.RewriteBody | src/shopbotjog/core.py:359-375 | the loop appends one line per input line and counts `modifications`, as `RewriteOf` describes |
| Rewrite.RewriteErrorPersists | src/shopbotjog/core.py:366-367 | once a line's `float(z)` raises, the rewrite raises that error |
| Rewrite.RewriteFails | src/shopbotjog/core.py:366-367 | the rewrite raises exactly when some matched `M3` line has a z field that `float()` rejects |
| Rewrite.RewriteMeaning | src/shopbotjog/core.py:359-375 | exactly one output line per input line, each the converted or the original line, and `modifications` is the number of converted lines |
| Rewrite.ViewShape | src/shopbotjog/core.py:360-363 | a view keeps the original line and its stripped text, and only a stripped line starting with `M3,` can be a cut |
| Rewrite.JoggedLine | src/shopbotjog/core.py:369-370 | a converted line is its stripped text with the leading `M3,` turned into `J3,`, plus a newline, so surrounding whitespace is lost |
| Rewrite.JoggedDiffers | src/shopbotjog/core.py:369-370 | a converted line always differs from the line it replaces |
| Rewrite.LineChangesIffConverts | src/shopbotjog/core.py:365-375 | a line changes exactly when it is a cut at one of the heights; every other line is copied verbatim |
| Rewrite.JoggedStrips | src/shopbotjog/core.py:369-370 | stripping a converted line gives back its text without the newline |
| Rewrite.JoggedIsKept | src/shopbotjog/core.py:363-370 | a converted line no longer matches the `M3` pattern |
| Rewrite.OutputStable | src/shopbotjog/core.py:359-375 | what the rewrite writes for a line is kept verbatim by a second pass |
| Rewrite.RewriteKeepsAll | src/shopbotjog/core.py:359-375 | a rewrite of lines none of which is a bad cut or a cut at one of the heights succeeds with 0 modifications |
| Rewrite.RewriteIdempotent | src/shopbotjog/core.py:359-375 | a second pass over the rewritten lines with the same heights changes nothing and counts 0 modifications |
| Rewrite.KindAgrees | src/shopbotjog/core.py:56-60 | where the analysis read a line without error, the rewrite reads it the same way: the same cuts at the same heights |
| Rewrite.RewriteCountsCuts | src/shopbotjog/core.py:359-375 | when the rewrite and the analysis agree line by line, `modifications` is the number of cut heights in the chosen set |
| Rewrite.ViewsAgree | src/shopbotjog/core.py:359-367 | after a successful analysis, every line's view agrees with its command |
| Rewrite.RewriteAgreesWithScan | src/shopbotjog/core.py:359-375 | after a successful analysis the rewrite never raises, and `modifications` is the number of cuts at a chosen height, at most the number of cut lines |
| Rewrite.ConvertsIffCutAtHeight | src/shopbotjog/core.py:363-367 | a line is converted exactly when it is a cut whose height is in the list (exact equality) |
| Rewrite.DetectedHeightsSkipNegative | src/shopbotjog/core.py:136-137 | with the detected heights, no line at a negative height is ever converted |
| Files.LastDot | src/shopbotjog/core.py:38 | the last `.` in the name, if any |
| Files.SbpSuffixIff | src/shopbotjog/core.py:38 | the suffix test accepts exactly the names of at least five characters ending in `.sbp` in any case |
| Files.StampShape | src/shopbotjog/core.py:326 | `strftime("%Y%m%d_%H%M%S")` is eight digits, an underscore and six digits |
| Files.BackupBesideOriginal | src/shopbotjog/core.py:327 | the backup is in the input's directory, under a different name that is not itself an `.sbp` name |
| Files.FileStore.Copy | src/shopbotjog/core.py:329-332 | `copy2` succeeds exactly when the source exists and the target can be written, and then the target holds the source's lines; otherwise nothing changes |
| Files.FileStore.Write | src/shopbotjog/core.py:380 | opening for writing succeeds exactly when the path can be written, and then the file holds the lines; otherwise nothing changes |
| Processor.AnalyzeInChecks | src/shopbotjog/core.py:35-39 | a missing file raises FileNotFoundError and a wrong suffix raises ValueError, both before reading; a successful analysis read an `.sbp` file every line of which parsed |
| Processor.AnalysisErrors | src/shopbotjog/core.py:50-116 | the analysis of a present `.sbp` file can raise only a ValueError from `float()` or a ZeroDivisionError |
| Processor.ChooseHeights | src/shopbotjog/core.py:304-315 | the heights are the explicit list, else the legacy `retract_height`, else the detected ones; they are empty exactly when the explicit list is empty, or when nothing is given and nothing is detected |
| Processor.DetectedHeightsChosen | src/shopbotjog/core.py:310-312 | left to itself, the processor converts the feed height alone, and nothing when there is no feed height |
| Processor.ViewsClean | src/shopbotjog/core.py:359-367 | once the analysis accepted every line, no line can make the rewrite raise |
| Processor.Head | src/shopbotjog/core.py:469 | `f.read(1000)` gives the first 1000 characters, or the whole text when it is shorter |
| Processor.SniffWindow | src/shopbotjog/core.py:466-472 | the sniff test passes exactly when an indicator occurs ending within the first 1000 characters |
| Processor.ValidIsAnalyzable | src/shopbotjog/core.py:451-474 | a file that passes `validate_sbp_file` is never refused by `analyze_file` as missing or for its suffix |
| Processor.DeliveredRun | src/shopbotjog/core.py:298-440 | a call that chose heights had a successful analysis with cuts and chose non-empty heights; the rest of the call is the delivery of the header and the rewritten lines |
| Processor.AnalysisFailurePropagates | src/shopbotjog/core.py:299-302 | an exception of the analysis escapes `process_file` unchanged, and no file changes |
| Processor.NoCutsReturned | src/shopbotjog/core.py:301-302 | the "No M3 commands" analysis is returned unchanged, and no file changes |
| Processor.NoHeightsReturned | src/shopbotjog/core.py:314-315 | with no height chosen, the result is "Could not determine positioning heights" and no file changes |
| Processor.HeightsAdopted | src/shopbotjog/core.py:314-317 | with some height chosen, the processor stores exactly those heights |
| Processor.DeliverAdopts | src/shopbotjog/core.py:317-440 | past the choice of heights, the chosen heights are stored whatever happens to the files, and the outcome is a failed backup or a report |
| Processor.OnlyTouchedChange | src/shopbotjog/core.py:319-415 | no file other than the input and its backup (in place) or the output file (otherwise) is created, removed or changed |
| Processor.BackupFailureChangesNothing | src/shopbotjog/core.py:329-332 | "Failed to create backup" happens exactly in place when the backup cannot be written, and then every file is as it was |
| Processor.BackupBeforeWrite | src/shopbotjog/core.py:322-380 | in place, once the backup is taken it holds the original lines, and a failed write leaves the input as it was |
| Processor.ReportedPaths | src/shopbotjog/core.py:417-440 | the output file holds the written lines; the report carries the chosen heights, the first as `retract_height`, the count and `in_place_modification`; in place it names the input as output and the backup; otherwise there is no backup and a distinct input is untouched |
| Processor.WrittenLines | src/shopbotjog/core.py:345-375 | the file written is the five header lines followed by exactly one line per input line, converted for a cut at a chosen height and verbatim otherwise; the header is there even when nothing changes |
| Processor.ModificationsCounted | src/shopbotjog/core.py:365-371 | `modifications_made` is the number of cuts at a chosen height, at most the number of cuts |
| Processor.DetectedModifications | src/shopbotjog/core.py:183-184 | with detected heights, the lines converted are exactly the `positioning_commands` of the conversion statistics, the occurrences of the feed height |
| Processor.FeedHeightCount | src/shopbotjog/core.py:183-184 | with no heights given, the heights chosen are the feed height alone, and the cuts at it number the statistics' `positioning_commands`, the feed height's count |
| Processor.StreamedElsewhere | src/shopbotjog/core.py:382-415 | streaming into a different file writes the header and the rewritten lines, as reading first does |
| Processor.StreamedOntoInputLosesLines | src/shopbotjog/core.py:387 | streaming onto the input path leaves the file holding only the header, with 0 modifications |
| Processor.OutputOntoInputKeepsLines | src/shopbotjog/core.py:382-415 | reading before opening the output, an output path equal to the input gets the header and every input line, rewritten |
| Processor.RenderOutput | src/shopbotjog/core.py:345-375 | the header and the rewrite loop produce the lines and the count that `OutputLines` and `Modifications` describe |
| Processor.ShopBotJogProcessor.constructor | src/shopbotjog/core.py:14-24 | no heights, 0 modifications, and rates of 60 and 300 inches per minute |
| Processor.ShopBotJogProcessor.AnalyzeFile | src/shopbotjog/core.py:26-117 | the method's result is the analysis `AnalyzeIn` describes |
| Processor.ShopBotJogProcessor.ProcessFile | src/shopbotjog/core.py:278-440 | the result and the files afterwards are those `ProcessIn` describes; the chosen heights are stored once chosen; `modifications_made` changes only on success; the rates are unchanged |
| Processor.ShopBotJogProcessor.ConvertFile | src/shopbotjog/core.py:304-440 | from the choice of heights on, the call does what `Convert` describes |
| Processor.ShopBotJogProcessor.WriteResult | src/shopbotjog/core.py:319-440 | the backup, the write and the report are those `Deliver` describes |
| SpeedAnalyzer.EstimateFails | src/shopbotjog/speed_analyzer.py:71-95 | the estimate raises ZeroDivisionError exactly when the cutting rate is 0, or the jog rate is 0 with heights and cuts |
| SpeedAnalyzer.EstimateWithoutMoves | src/shopbotjog/speed_analyzer.py:71-80 | with no heights or no cuts, every time and the percentage are 0 and the factor is jog/cut |
| SpeedAnalyzer.EstimateMeaning | src/shopbotjog/speed_analyzer.py:82-95 | each move is 2.0 inches, each time is the distance over its rate, the saving is their difference, and the positioning commands are those of the conversion statistics |
| SpeedAnalyzer.PercentageIsShareSaved | src/shopbotjog/speed_analyzer.py:89-95 | `(factor − 1)/factor × 100` is the share of the cutting time that jogging saves |
| SpeedAnalyzer.PercentageBounds | src/shopbotjog/speed_analyzer.py:94-95 | when jogging is at least as fast as cutting, the percentage lies in [0, 100) |
| SpeedAnalyzer.DefaultRatesSaveEighty | src/shopbotjog/speed_analyzer.py:94-95 | example: at 60 and 300 inches per minute, 80% of the positioning time is saved |
| SpeedAnalyzer.ConversionStatsMeaning | src/shopbotjog/speed_analyzer.py:19-51 | the positioning commands are the cuts at a listed height, the rest are cutting commands, the percentage is in [0, 100], and `heights_to_convert` lists the heights in input order |
| SpeedAnalyzer.ConversionStatsEmpty | src/shopbotjog/speed_analyzer.py:31-38 | with no heights: 0 positioning, every command cutting, 0.0 percent, nothing to convert |
| Cli.NonNegative | src/shopbotjog/cli.py:262 | the non-negative heights among the keys |
| Cli.AvailableHeights | src/shopbotjog/cli.py:262-274 | the listing holds every non-negative height of the file once, with its count, in strictly descending order |
| Cli.ManualHeight | src/shopbotjog/cli.py:257-281 | a missing or negative height means "detect"; a given height is used exactly when the file cuts at it; otherwise the available heights are listed |
| Cli.RefusedHeightNotListed | src/shopbotjog/cli.py:264-276 | a refused height is not in the listing, and the listing is empty exactly when the file has no non-negative height |

## Left out

- Python's `\d` also matches non-ASCII decimal digits. `Decimal.NumChar` is ASCII only, so lines with such digits are not modelled.
- Text.Lower: lower-cases ASCII letters only; `str.lower()`'s full Unicode case mapping (which can change a name's length) is not modelled.
- IEEE floats. Heights, rates and times are exact reals, and `float()` rounding is not modelled.
- The square root of the planar distance (core.py:252) is a parameter `norm`. The lemmas that need its meaning assume it is the Euclidean length (`Stats.IsHypot`).
- `repr` and `:.4f` formatting of heights are parameters of the header (`Env.repr`, `Env.fixed4`).
- `_get_version` is the parameter `Env.version`, and `datetime.now()` is the parameter `Env.now`.
- Text encoding is not modelled: `UnicodeDecodeError` on reading, and the `encoding="utf-8"` arguments.
- A file is its list of lines, as `readlines` gives them.
- An I/O error in the middle of a write is not modelled: the file store fails only when a file is opened, before anything is written.
- File metadata that `copy2` preserves is not modelled.
- Paths are compared by directory and name. Two different paths that name the same file (links, relative paths) are not modelled.
- `validate_sbp_file` returns False on `OSError` or `UnicodeDecodeError` (core.py:473). A stored file always reads successfully, so that branch is not modelled.
- The `confirm_retract` argument of `process_file` is never used by the code and is left out.
- The `clearance_height` key of the analysis is always `None`, because the heights analysis has no such key. It is left out.
- The model classifies every line (`Commands`, `Views`) before the loops run. The source classifies each line inside its loop; the results are the same.
- Processor.ShopBotJogProcessor.ProcessFile uses the read-then-write behaviour for an explicit output path too. The as-written streaming is modelled separately by `StreamedAsWritten` (see Findings).
- Processor.ShopBotJogProcessor.ConvertFile: for an output path equal to the input path it reads the input before writing, through `Deliver`, instead of the truncating stream of core.py:387; `StreamedAsWritten` models the latter.
- Processor.ShopBotJogProcessor.WriteResult: writes the rendered lines through `Deliver`, so for an output path equal to the input path it keeps the corrected read-then-write, not the truncating stream of core.py:387 that `StreamedAsWritten` models.
- The rest of the command line (`click` options, `rich` output, prompts) is user interface and is left out. Only the manual feed-height check is modelled.
- The `src/libertyjog` package is not part of this model.

## Findings

| source | as written | input that shows it | evidently intended | confidence | as-written member | corrected member |
|---|---|---|---|---|---|---|
| src/shopbotjog/core.py:387 | with an explicit output path, the output file is opened for writing, which empties it, before the input is read line by line | `process_file(p, output_path=p)` on any `.sbp` file `p` with cuts: the file ends up holding only the five header lines, no backup is made, and the report says 0 modifications | the input is read in full before the output is opened, as in the in-place branch, so that the output holds the header and every input line, rewritten | high (not executed) | Processor.StreamedOntoInputLosesLines | Processor.OutputOntoInputKeepsLines |
