/** The rewrite at the heart of `process_file`
    (src/shopbotjog/core.py:343-415): a five-line header, then one line per
    input line, where each cut move at a positioning height becomes a jog
    and every other line is copied verbatim. */
module Rewrite {
  import opened Wrappers
  import opened Failures
  import opened Text
  import opened Decimal
  import opened Parser
  import opened Heights
  import opened Stats
  import opened Analysis

  /** The heights as a set, for `float(z) in positioning_heights`. */
  function Members(hs: seq<real>): set<real> {
    set h | h in hs
  }

  /** `f"{h:.4f}"` for each height, with the formatter as a parameter. */
  function Formatted(hs: seq<real>, fixed4: real -> string): (r: seq<string>)
    ensures |r| == |hs| && forall i :: 0 <= i < |hs| ==> r[i] == fixed4(hs[i])
  {
    seq(|hs|, i requires 0 <= i < |hs| => fixed4(hs[i]))
  }

  /** The second header line: one height in its `repr`, several as `:.4f`
      values from the highest down, joined with ", ". */
  function HeightsLine(hs: seq<real>, repr: real -> string, fixed4: real -> string): string {
    if |hs| == 1 then Comment(" Feed height detected as: " + repr(hs[0]))
    else Comment(" Feed heights detected as: " + Join(Formatted(SortDesc(hs), fixed4), ", "))
  }

  /** An OpenSBP comment line. */
  function Comment(text: string): string {
    "'" + text + "\n"
  }

  /** The comment block written before the first line of the file. */
  function Header(version: string, hs: seq<real>, name: string, repr: real -> string, fixed4: real -> string)
    : seq<string>
  {
    [Comment(" File modified by ShopBotJog v" + version),
     HeightsLine(hs, repr, fixed4),
     Comment(" M3 commands at feed height converted to J3 for rapid jogging"),
     Comment(" Original file: " + name),
     "\n"]
  }

  lemma CommentMarked(text: string)
    ensures |Comment(text)| > 0 && Comment(text)[0] == '\''
  {
    assert Comment(text) == "'" + (text + "\n");
  }

  /** The header is five lines: four comments (each starting with `'`)
      and a blank line. */
  lemma HeaderShape(version: string, hs: seq<real>, name: string, repr: real -> string, fixed4: real -> string)
    ensures var h := Header(version, hs, name, repr, fixed4);
      |h| == 5 && h[4] == "\n" && forall i :: 0 <= i < 4 ==> |h[i]| > 0 && h[i][0] == '\''
  {
    var h := Header(version, hs, name, repr, fixed4);
    CommentMarked(" File modified by ShopBotJog v" + version);
    CommentMarked(" M3 commands at feed height converted to J3 for rapid jogging");
    CommentMarked(" Original file: " + name);
    if |hs| == 1 {
      CommentMarked(" Feed height detected as: " + repr(hs[0]));
    } else {
      CommentMarked(" Feed heights detected as: " + Join(Formatted(SortDesc(hs), fixed4), ", "));
    }
  }

  /** A single height is shown by itself in its `repr`; several are shown
      as a descending arrangement of exactly the given heights. */
  lemma HeaderHeights(version: string, hs: seq<real>, name: string, repr: real -> string, fixed4: real -> string)
    ensures |hs| == 1 ==> Header(version, hs, name, repr, fixed4)[1] == Comment(" Feed height detected as: " + repr(hs[0]))
    ensures |hs| != 1 ==> exists sorted :: (Descending(sorted) && multiset(sorted) == multiset(hs)
      && Header(version, hs, name, repr, fixed4)[1] == Comment(" Feed heights detected as: " + Join(Formatted(sorted, fixed4), ", ")))
  {
    var sorted := SortDesc(hs);
  }

  /** How the rewrite loop sees one stripped line: no M3 match, an M3
      match whose z field `float()` accepts, or one whose z it rejects.
      Only the z field is converted here. */
  datatype LineKind = Keep | CutAt(z: real) | BadZ(field: string)

  function KindOf(t: string): LineKind {
    match MatchCut(t)
    case None => Keep
    case Some(m) =>
      match ParseDecimal(m.z)
      case Some(z) => CutAt(z)
      case None => BadZ(m.z)
  }

  /** Only an `M3,` line is ever a cut or a bad cut. */
  lemma KindOfCut(t: string)
    ensures !KindOf(t).Keep? <==> StartsWith(t, "M3,") && MatchCut(t).Some?
  {
  }

  /** The loop variables for one line: `original_line`, `line_stripped`
      and what the match and `float(z)` make of it. */
  datatype LineView = LineView(original: string, stripped: string, kind: LineKind)

  function View(line: string): LineView {
    var t := Strip(line);
    LineView(line, t, KindOf(t))
  }

  /** The views of every line of a file, as read (terminators included). */
  function Views(lines: seq<string>): (vs: seq<LineView>)
    ensures |vs| == |lines|
  {
    seq(|lines|, i requires 0 <= i < |lines| => View(lines[i]))
  }

  lemma ViewAt(lines: seq<string>, i: nat)
    requires i < |lines|
    ensures Views(lines)[i] == View(lines[i])
  {
  }

  /** The line is an M3 move whose height is one of `hs` (exact equality). */
  predicate Converts(v: LineView, hs: seq<real>) {
    v.kind.CutAt? && v.kind.z in hs
  }

  /** What the loop writes for a line: `line_stripped.replace("M3,",
      "J3,", 1) + "\n"` when it converts, the original line otherwise. */
  function Output(v: LineView, hs: seq<real>): string {
    if Converts(v, hs) then ReplaceFirst(v.stripped, "M3,", "J3,") + "\n" else v.original
  }

  /** The body written after the header, with the `modifications` count. */
  datatype Rewritten = Rewritten(body: seq<string>, modifications: nat)

  /** The rewrite of the lines seen as `vs`, or the ValueError `float(z)`
      raises on a matched line, quoting its z field. */
  function RewriteOf(vs: seq<LineView>, hs: seq<real>): Result<Rewritten, Failure> {
    if vs == [] then Ok(Rewritten([], 0))
    else
      var n := |vs| - 1;
      match RewriteOf(vs[..n], hs)
      case Err(e) => Err(e)
      case Ok(w) =>
        if vs[n].kind.BadZ? then Err(BadNumber(vs[n].kind.field))
        else Ok(Rewritten(w.body + [Output(vs[n], hs)], w.modifications + if Converts(vs[n], hs) then 1 else 0))
  }

  /** The number of lines the rewrite converts. */
  function ConvertedLines(vs: seq<LineView>, hs: seq<real>): nat {
    if vs == [] then 0
    else ConvertedLines(vs[..|vs| - 1], hs) + if Converts(vs[|vs| - 1], hs) then 1 else 0
  }

  /** The `for line in lines` loop of `process_file`, appending to
      `output_lines` and counting `modifications`. */
  method RewriteLines(lines: seq<string>, hs: seq<real>) returns (r: Result<Rewritten, Failure>)
    ensures r == RewriteOf(Views(lines), hs)
  {
    var vs := Views(lines);
    r := RewriteBody(vs, hs);
  }

  /** The loop itself, over the lines' views. */
  method RewriteBody(vs: seq<LineView>, hs: seq<real>) returns (r: Result<Rewritten, Failure>)
    ensures r == RewriteOf(vs, hs)
  {
    var out: seq<string> := [];
    var modifications := 0;
    var i := 0;
    while i < |vs|
      invariant 0 <= i <= |vs|
      invariant RewriteOf(vs[..i], hs) == Ok(Rewritten(out, modifications))
    {
      assert vs[..i + 1][..i] == vs[..i];
      var v := vs[i];
      if v.kind.BadZ? {
        RewriteErrorPersists(vs, hs, i + 1);
        return Err(BadNumber(v.kind.field));
      }
      if v.kind.CutAt? && v.kind.z in hs {
        out := out + [ReplaceFirst(v.stripped, "M3,", "J3,") + "\n"];
        modifications := modifications + 1;
      } else {
        out := out + [v.original];
      }
      i := i + 1;
    }
    assert vs[..i] == vs;
    r := Ok(Rewritten(out, modifications));
  }

  lemma {:induction false} RewriteErrorPersists(vs: seq<LineView>, hs: seq<real>, i: nat)
    requires i <= |vs| && RewriteOf(vs[..i], hs).Err?
    ensures RewriteOf(vs, hs) == RewriteOf(vs[..i], hs)
    decreases |vs| - i
  {
    if i < |vs| {
      assert vs[..i + 1][..i] == vs[..i];
      RewriteErrorPersists(vs, hs, i + 1);
    } else {
      assert vs[..i] == vs;
    }
  }

  /** The rewrite fails exactly when a matched M3 line has a z field
      `float()` rejects. */
  lemma {:induction false} RewriteFails(vs: seq<LineView>, hs: seq<real>)
    ensures RewriteOf(vs, hs).Ok? <==> forall i :: 0 <= i < |vs| ==> !vs[i].kind.BadZ?
  {
    if vs != [] {
      RewriteFails(vs[..|vs| - 1], hs);
    }
  }

  /** One output line per input line: each is the input line, converted
      when it is a cut at one of the heights, and `modifications` counts
      the converted lines. */
  lemma {:induction false} RewriteMeaning(vs: seq<LineView>, hs: seq<real>)
    requires RewriteOf(vs, hs).Ok?
    ensures var w := RewriteOf(vs, hs).value;
      |w.body| == |vs| && (forall i :: 0 <= i < |vs| ==> w.body[i] == Output(vs[i], hs))
      && w.modifications == ConvertedLines(vs, hs)
  {
    if vs != [] {
      RewriteMeaning(vs[..|vs| - 1], hs);
    }
  }

  /** The view of a line holds the line and its stripped text, and only a
      stripped line starting with `M3,` is ever a cut. */
  lemma ViewShape(line: string)
    ensures View(line).original == line && View(line).stripped == Strip(line)
    ensures !View(line).kind.Keep? ==> StartsWith(Strip(line), "M3,")
  {
    KindOfCut(Strip(line));
  }

  lemma JoggedText(v: LineView, hs: seq<real>)
    requires Converts(v, hs) && StartsWith(v.stripped, "M3,")
    ensures Output(v, hs) == "J3," + v.stripped[3..] + "\n"
  {
  }

  /** A converted line is its stripped text with the leading `M3,` turned
      into `J3,` and a newline: surrounding whitespace is lost and a last
      line without a newline gains one. */
  lemma JoggedLine(line: string, hs: seq<real>)
    requires Converts(View(line), hs)
    ensures Output(View(line), hs) == "J3," + Strip(line)[3..] + "\n"
  {
    ViewShape(line);
    JoggedText(View(line), hs);
  }

  /** A line whose stripped text starts with `M3,` is not its own jogged
      form: either it starts with whitespace or with `M`, never `J`. */
  lemma JoggedDiffers(line: string, t: string)
    requires t == Strip(line) && StartsWith(t, "M3,")
    ensures "J3," + t[3..] + "\n" != line
  {
    var out := "J3," + t[3..] + "\n";
    assert out[0] == 'J';
    if |line| > 0 && !IsSpace(line[0]) {
      StripKeepsHead(line);
      assert line[0] == t[0] == 'M';
    }
  }

  /** A line changes exactly when it is converted. */
  lemma LineChangesIffConverts(line: string, hs: seq<real>)
    ensures Output(View(line), hs) != line <==> Converts(View(line), hs)
  {
    ViewShape(line);
    if Converts(View(line), hs) {
      JoggedText(View(line), hs);
      JoggedDiffers(line, Strip(line));
    }
  }

  /** Stripping a jogged line gives back its text without the newline. */
  lemma JoggedStrips(t: string)
    requires Trimmed(t) && StartsWith(t, "M3,")
    ensures Strip("J3," + t[3..] + "\n") == "J3," + t[3..]
  {
    var u := "J3," + t[3..];
    assert Trimmed(u) by {
      assert u[|u| - 1] == t[|t| - 1];
    }
    assert AllSpace("\n");
    assert u + "\n" == [] + u + "\n";
    StripOf([], u, "\n");
  }

  /** A converted line is kept by a second pass. */
  lemma JoggedIsKept(line: string, hs: seq<real>)
    requires Converts(View(line), hs)
    ensures View(Output(View(line), hs)).kind.Keep?
  {
    var t := Strip(line);
    ViewShape(line);
    JoggedText(View(line), hs);
    JoggedStrips(t);
    var u := "J3," + t[3..];
    assert !StartsWith(u, "M3,") by {
      assert u[0] == 'J';
    }
    KindOfCut(u);
  }

  /** What the rewrite writes for a line is never rewritten again. */
  lemma OutputStable(line: string, hs: seq<real>)
    requires !View(line).kind.BadZ?
    ensures var v := View(Output(View(line), hs));
      !v.kind.BadZ? && !Converts(v, hs) && Output(v, hs) == v.original
  {
    if Converts(View(line), hs) {
      JoggedIsKept(line, hs);
    }
  }

  /** Lines none of which converts or fails are copied with no
      modification. */
  lemma {:induction false} RewriteKeepsAll(vs: seq<LineView>, hs: seq<real>)
    requires forall i :: 0 <= i < |vs| ==> !vs[i].kind.BadZ? && !Converts(vs[i], hs)
    ensures RewriteOf(vs, hs).Ok? && RewriteOf(vs, hs).value.modifications == 0
  {
    if vs != [] {
      var n := |vs| - 1;
      assert forall i :: 0 <= i < n ==> vs[..n][i] == vs[i];
      RewriteKeepsAll(vs[..n], hs);
      assert !vs[n].kind.BadZ? && !Converts(vs[n], hs);
    }
  }

  /** The rewrite is idempotent: a second pass over its output with the
      same heights changes nothing. */
  lemma RewriteIdempotent(lines: seq<string>, hs: seq<real>)
    requires RewriteOf(Views(lines), hs).Ok?
    ensures var body := RewriteOf(Views(lines), hs).value.body;
      RewriteOf(Views(body), hs) == Ok(Rewritten(body, 0))
  {
    var vs := Views(lines);
    RewriteMeaning(vs, hs);
    RewriteFails(vs, hs);
    var body := RewriteOf(vs, hs).value.body;
    var vs2 := Views(body);
    forall i | 0 <= i < |vs2|
      ensures !vs2[i].kind.BadZ? && !Converts(vs2[i], hs) && Output(vs2[i], hs) == body[i]
    {
      ViewAt(lines, i);
      ViewAt(body, i);
      OutputStable(lines[i], hs);
    }
    RewriteKeepsAll(vs2, hs);
    RewriteMeaning(vs2, hs);
    var w2 := RewriteOf(vs2, hs).value;
    assert w2.body == body;
  }

  /** Where the analysis succeeded, the rewrite reads each line as the
      analysis did: a matched z always converts, and a line is a cut for
      the rewrite exactly when it is one for the analysis, at the same
      height. */
  lemma KindAgrees(t: string)
    requires !Classify(t).Malformed?
    ensures !KindOf(t).BadZ?
    ensures KindOf(t).CutAt? <==> Classify(t).Cut?
    ensures Classify(t).Cut? ==> KindOf(t).z == Classify(t).z
  {
  }

  /** The analysis and the rewrite see the same cuts. */
  predicate Agree(k: LineKind, c: Command) {
    !k.BadZ? && (k.CutAt? <==> c.Cut?) && (c.Cut? ==> k.z == c.z)
  }

  lemma {:induction false} RewriteCountsCuts(vs: seq<LineView>, cmds: seq<Command>, hs: seq<real>)
    requires |vs| == |cmds|
    requires forall i :: 0 <= i < |vs| ==> Agree(vs[i].kind, cmds[i])
    ensures RewriteOf(vs, hs).Ok?
    ensures RewriteOf(vs, hs).value.modifications == CountIn(CutHeights(cmds), Members(hs))
  {
    if vs != [] {
      var n := |vs| - 1;
      assert forall i :: 0 <= i < n ==> vs[..n][i] == vs[i] && cmds[..n][i] == cmds[i];
      RewriteCountsCuts(vs[..n], cmds[..n], hs);
      var zs := CutHeights(cmds[..n]);
      assert Agree(vs[n].kind, cmds[n]);
      if cmds[n].Cut? {
        CountInAppend(zs, [cmds[n].z], Members(hs));
        assert [cmds[n].z][1..] == [];
        assert cmds[n].z in Members(hs) <==> cmds[n].z in hs;
      } else {
        assert CutHeights(cmds) == zs + [] == zs;
      }
    }
  }

  lemma ViewsAgree(lines: seq<string>)
    requires ScanOf(Commands(lines)).Ok?
    ensures forall i :: 0 <= i < |lines| ==> Agree(Views(lines)[i].kind, Commands(lines)[i])
  {
    var cmds := Commands(lines);
    ScanFails(cmds);
    forall i | 0 <= i < |lines|
      ensures Agree(Views(lines)[i].kind, cmds[i])
    {
      ViewAt(lines, i);
      KindAgrees(Strip(lines[i]));
    }
  }

  /** After a successful analysis the rewrite never fails, and
      `modifications` is the number of cut heights in the chosen set,
      which never exceeds the number of cut lines. */
  lemma RewriteAgreesWithScan(lines: seq<string>, hs: seq<real>)
    requires ScanOf(Commands(lines)).Ok?
    ensures RewriteOf(Views(lines), hs).Ok?
    ensures RewriteOf(Views(lines), hs).value.modifications == CountIn(CutHeights(Commands(lines)), Members(hs))
    ensures RewriteOf(Views(lines), hs).value.modifications <= CutLines(Commands(lines))
  {
    ViewsAgree(lines);
    RewriteCountsCuts(Views(lines), Commands(lines), hs);
    ScanMeaning(Commands(lines));
  }

  /** The converted lines are exactly the cut lines whose height is in
      `hs`. */
  lemma ConvertsIffCutAtHeight(lines: seq<string>, hs: seq<real>, i: nat)
    requires ScanOf(Commands(lines)).Ok? && i < |lines|
    ensures Converts(Views(lines)[i], hs) <==> Commands(lines)[i].Cut? && Commands(lines)[i].z in hs
  {
    ViewsAgree(lines);
  }

  /** With the detected heights, no line at a negative height is converted. */
  lemma DetectedHeightsSkipNegative(v: LineView, zs: seq<real>)
    requires Converts(v, HeightsOf(PositioningHeights(zs)))
    ensures v.kind.z >= 0.0
  {
    var ps := PositioningHeights(zs);
    assert v.kind.z == ps[0].z;
    FeedHeightIsBest(zs);
  }
}
