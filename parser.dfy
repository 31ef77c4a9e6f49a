/** The three line patterns of `ShopBotJogProcessor` (src/shopbotjog/core.py:16-18)
    and the classification `analyze_file` applies to every stripped line.

    The field class `[\d.-]` contains neither ',' nor whitespace, so each
    `\s*` and each `([\d.-]+)` of the patterns matches a maximal run: the
    regular expressions are matched here deterministically, left to right,
    and `MatchCutComplete` / `MatchSpeedComplete` show nothing is missed. */
module Parser {
  import opened Wrappers
  import opened Text
  import opened Decimal

  predicate AllNum(s: string) {
    forall i :: 0 <= i < |s| ==> NumChar(s[i])
  }

  /** What one `([\d.-]+)` group can capture. */
  predicate Field(f: string) {
    f != [] && AllNum(f)
  }

  lemma NumCharNotSpace(c: char)
    requires NumChar(c)
    ensures !IsSpace(c)
  {
  }

  /** Length of the leading run of whitespace. */
  function SpaceRun(s: string): (n: nat)
    ensures n <= |s| && AllSpace(s[..n]) && (n < |s| ==> !IsSpace(s[n]))
  {
    if s != [] && IsSpace(s[0]) then
      var n := 1 + SpaceRun(s[1..]);
      assert forall i :: 1 <= i < n ==> s[..n][i] == s[1..][..n - 1][i - 1];
      n
    else 0
  }

  /** Length of the leading run of `[\d.-]` characters. */
  function NumRun(s: string): (n: nat)
    ensures n <= |s| && AllNum(s[..n]) && (n < |s| ==> !NumChar(s[n]))
  {
    if s != [] && NumChar(s[0]) then
      var n := 1 + NumRun(s[1..]);
      assert forall i :: 1 <= i < n ==> s[..n][i] == s[1..][..n - 1][i - 1];
      n
    else 0
  }

  /** `\s*([\d.-]+)` at the start of `s`, without the `+` check: the spaces,
      the (possibly empty) field and what follows. */
  datatype Lexeme = Lexeme(spaces: string, field: string, rest: string)

  function Lex(s: string): (l: Lexeme)
    ensures s == l.spaces + (l.field + l.rest)
    ensures AllSpace(l.spaces) && AllNum(l.field)
    ensures l.rest == [] || !NumChar(l.rest[0])
  {
    var n := SpaceRun(s);
    var t := s[n..];
    var f := NumRun(t);
    assert t == t[..f] + t[f..];
    Lexeme(s[..n], t[..f], t[f..])
  }

  lemma {:induction false} SpaceRunOf(ws: string, t: string)
    requires AllSpace(ws) && (t == [] || !IsSpace(t[0]))
    ensures SpaceRun(ws + t) == |ws|
  {
    if ws != [] {
      assert (ws + t)[1..] == ws[1..] + t;
      SpaceRunOf(ws[1..], t);
    } else {
      assert ws + t == t;
    }
  }

  lemma {:induction false} NumRunOf(f: string, t: string)
    requires AllNum(f) && (t == [] || !NumChar(t[0]))
    ensures NumRun(f + t) == |f|
  {
    if f != [] {
      assert (f + t)[1..] == f[1..] + t;
      NumRunOf(f[1..], t);
    } else {
      assert f + t == t;
    }
  }

  /** `Lex` takes exactly the spaces and the field a match would take. */
  lemma LexOf(ws: string, f: string, rest: string)
    requires AllSpace(ws) && Field(f) && (rest == [] || !NumChar(rest[0]))
    ensures Lex(ws + (f + rest)) == Lexeme(ws, f, rest)
  {
    var s := ws + (f + rest);
    NumCharNotSpace(f[0]);
    SpaceRunOf(ws, f + rest);
    assert s[|ws|..] == f + rest;
    NumRunOf(f, rest);
    assert (f + rest)[..|f|] == f && (f + rest)[|f|..] == rest;
  }

  /** The six pieces of a line `m3_pattern` matches: the three `\s*` and the
      three groups. */
  datatype CutMatch = CutMatch(s1: string, x: string, s2: string, y: string, s3: string, z: string)

  predicate ValidCutMatch(m: CutMatch) {
    AllSpace(m.s1) && Field(m.x) && AllSpace(m.s2) && Field(m.y) && AllSpace(m.s3) && Field(m.z)
  }

  /** `M3,<s1><x>,<s2><y>,<s3><z>`. */
  function CutText(m: CutMatch): string {
    "M3," + FieldsText(m)
  }

  /** The part of `CutText(m)` after `M3,`. */
  function FieldsText(m: CutMatch): string {
    m.s1 + (m.x + ("," + (m.s2 + (m.y + ("," + (m.s3 + (m.z + [])))))))
  }

  /** `,\s*([\d.-]+)` at the start of `s`. */
  function CommaGroup(s: string): (r: Option<Lexeme>)
    ensures r.Some? ==> s == "," + (r.value.spaces + (r.value.field + r.value.rest))
    ensures r.Some? ==> AllSpace(r.value.spaces) && Field(r.value.field)
    ensures r.Some? ==> r.value.rest == [] || !NumChar(r.value.rest[0])
  {
    if s == [] || s[0] != ',' then None
    else
      var l := Lex(s[1..]);
      if l.field == [] then None
      else
        assert s == [s[0]] + s[1..];
        Some(l)
  }

  lemma CommaGroupOf(ws: string, f: string, rest: string)
    requires AllSpace(ws) && Field(f) && (rest == [] || !NumChar(rest[0]))
    ensures CommaGroup("," + (ws + (f + rest))) == Some(Lexeme(ws, f, rest))
  {
    assert ("," + (ws + (f + rest)))[1..] == ws + (f + rest);
    LexOf(ws, f, rest);
  }

  /** What follows `M3,`: `\s*([\d.-]+),\s*([\d.-]+),\s*([\d.-]+)$`. */
  function MatchCutFields(s: string): (r: Option<CutMatch>)
    ensures r.Some? ==> ValidCutMatch(r.value) && s == FieldsText(r.value)
  {
    var a := Lex(s);
    if a.field == [] then None
    else
      match CommaGroup(a.rest)
      case None => None
      case Some(b) =>
        match CommaGroup(b.rest)
        case None => None
        case Some(c) =>
          if c.rest != [] then None
          else
            var m := CutMatch(a.spaces, a.field, b.spaces, b.field, c.spaces, c.field);
            assert s == FieldsText(m) by {
              assert b.rest == "," + (c.spaces + (c.field + []));
              assert a.rest == "," + (b.spaces + (b.field + b.rest));
              assert s == a.spaces + (a.field + a.rest);
            }
            Some(m)
  }

  /** `m3_pattern.match(t)` for `^M3,\s*([\d.-]+),\s*([\d.-]+),\s*([\d.-]+)$`
      on a stripped line `t`. */
  function MatchCut(t: string): (r: Option<CutMatch>)
    ensures r.Some? ==> StartsWith(t, "M3,")
    ensures r.Some? ==> ValidCutMatch(r.value) && CutText(r.value) == t
  {
    if !StartsWith(t, "M3,") then None
    else
      assert t == "M3," + t[3..] by {
        SplitAfterPrefix(t, "M3,");
      }
      MatchCutFields(t[3..])
  }

  lemma MatchCutFieldsOf(m: CutMatch)
    requires ValidCutMatch(m)
    ensures MatchCutFields(FieldsText(m)) == Some(m)
  {
    var s := FieldsText(m);
    var a := Lexeme(m.s1, m.x, "," + (m.s2 + (m.y + LastGroup(m))));
    var b := Lexeme(m.s2, m.y, LastGroup(m));
    var c := Lexeme(m.s3, m.z, []);
    assert Lex(s) == a by {
      FirstFieldOf(m);
    }
    assert CommaGroup(a.rest) == Some(b) by {
      CommaGroupOf(m.s2, m.y, LastGroup(m));
    }
    assert CommaGroup(b.rest) == Some(c) by {
      CommaGroupOf(m.s3, m.z, []);
    }
    MatchCutFieldsUnfold(s, a, b, c);
  }

  lemma MatchCutFieldsUnfold(s: string, a: Lexeme, b: Lexeme, c: Lexeme)
    requires Lex(s) == a && a.field != []
    requires CommaGroup(a.rest) == Some(b) && CommaGroup(b.rest) == Some(c) && c.rest == []
    ensures MatchCutFields(s) == Some(CutMatch(a.spaces, a.field, b.spaces, b.field, c.spaces, c.field))
  {
  }

  /** `,<s3><z>`: the last comma group of a cut. */
  function LastGroup(m: CutMatch): string {
    "," + (m.s3 + (m.z + []))
  }

  lemma FirstFieldOf(m: CutMatch)
    requires ValidCutMatch(m)
    ensures Lex(FieldsText(m)) == Lexeme(m.s1, m.x, "," + (m.s2 + (m.y + LastGroup(m))))
  {
    var r1 := "," + (m.s2 + (m.y + LastGroup(m)));
    assert FieldsText(m) == m.s1 + (m.x + r1);
    LexOf(m.s1, m.x, r1);
  }

  /** Every line of the pattern's shape is matched, with exactly its pieces. */
  lemma MatchCutComplete(m: CutMatch)
    requires ValidCutMatch(m)
    ensures MatchCut(CutText(m)) == Some(m)
  {
    var t := CutText(m);
    assert StartsWith(t, "M3,") && t[3..] == FieldsText(m);
    MatchCutFieldsOf(m);
  }

  /** The groups of `^MS,\s*([\d.-]+)(?:,\s*([\d.-]+))?` (or `JS`) as the
      source uses them: the XY rate field and whatever follows it. The
      pattern is anchored at the start only. */
  datatype SpeedMatch = SpeedMatch(s1: string, xy: string, rest: string)

  /** `\s*([\d.-]+)` after the opcode and its comma. */
  function SpeedField(s: string): (r: Option<SpeedMatch>)
    ensures r.Some? ==> s == r.value.s1 + (r.value.xy + r.value.rest)
    ensures r.Some? ==> AllSpace(r.value.s1) && Field(r.value.xy)
    ensures r.Some? ==> r.value.rest == [] || !NumChar(r.value.rest[0])
  {
    var a := Lex(s);
    if a.field == [] then None else Some(SpeedMatch(a.spaces, a.field, a.rest))
  }

  /** `speed_pattern.match(t)` or `jog_speed_pattern.match(t)`, where `p` is
      the literal prefix `MS,` or `JS,`. */
  function MatchSpeed(t: string, p: string): (r: Option<SpeedMatch>)
    ensures r.Some? ==> StartsWith(t, p)
    ensures r.Some? ==> t == p + (r.value.s1 + (r.value.xy + r.value.rest))
    ensures r.Some? ==> AllSpace(r.value.s1) && Field(r.value.xy)
    ensures r.Some? ==> r.value.rest == [] || !NumChar(r.value.rest[0])
  {
    if !StartsWith(t, p) then None
    else
      SplitAfterPrefix(t, p);
      SpeedField(t[|p|..])
  }

  lemma MatchSpeedComplete(p: string, ws: string, f: string, rest: string)
    requires AllSpace(ws) && Field(f) && (rest == [] || !NumChar(rest[0]))
    ensures MatchSpeed(p + (ws + (f + rest)), p) == Some(SpeedMatch(ws, f, rest))
  {
    var t := p + (ws + (f + rest));
    assert StartsWith(t, p) && t[|p|..] == ws + (f + rest);
    assert Lex(ws + (f + rest)) == Lexeme(ws, f, rest) by {
      LexOf(ws, f, rest);
    }
  }

  /** What `analyze_file` makes of one stripped line. `Malformed` is a line
      whose pattern matched but one of whose fields `float()` rejects: the
      source raises ValueError there, quoting the first field it rejects. */
  datatype Command =
    | Cut(x: real, y: real, z: real)
    | MoveSpeed(xy: real)
    | JogSpeed(xy: real)
    | Malformed(field: string)
    | Other

  /** The M3 test comes first, then MS, then JS (core.py:56-78). */
  function Classify(t: string): (c: Command)
    ensures c.Cut? <==> MatchCut(t).Some? && CutCommand(MatchCut(t).value).Cut?
  {
    match MatchCut(t)
    case Some(m) => CutCommand(m)
    case None => SpeedCommand(t)
  }

  /** The coordinates of a matched cut, or `Malformed` when `float()` fails
      on one of them. The source converts z first (core.py:60), then x and
      y (core.py:61), so the field reported is the first of z, x, y that
      does not parse. */
  function CutCommand(m: CutMatch): (c: Command)
    ensures c.Cut? || c.Malformed?
    ensures c.Cut? <==> ParseDecimal(m.x).Some? && ParseDecimal(m.y).Some? && ParseDecimal(m.z).Some?
    ensures c.Cut? ==> ParseDecimal(m.x) == Some(c.x) && ParseDecimal(m.y) == Some(c.y) && ParseDecimal(m.z) == Some(c.z)
    ensures c.Malformed? ==> ParseDecimal(c.field).None?
    ensures c.Malformed? && c.field != m.z ==> ParseDecimal(m.z).Some?
    ensures c.Malformed? && c.field != m.z && c.field != m.x ==> ParseDecimal(m.x).Some? && c.field == m.y
  {
    match (ParseDecimal(m.z), ParseDecimal(m.x), ParseDecimal(m.y))
    case (None, _, _) => Malformed(m.z)
    case (_, None, _) => Malformed(m.x)
    case (_, _, None) => Malformed(m.y)
    case (Some(z), Some(x), Some(y)) => Cut(x, y, z)
  }

  /** A line that is not a cut: an `MS` or `JS` declaration, or anything else. */
  function SpeedCommand(t: string): (c: Command)
    ensures !c.Cut?
  {
    match MatchSpeed(t, "MS,")
    case Some(m) => RateCommand(m.xy, true)
    case None =>
      match MatchSpeed(t, "JS,")
      case Some(m) => RateCommand(m.xy, false)
      case None => Other
  }

  /** The XY rate of a speed declaration; `move` tells MS from JS. */
  function RateCommand(xy: string, move: bool): (c: Command)
    ensures c.Malformed? <==> ParseDecimal(xy).None?
    ensures c.Malformed? ==> c.field == xy
    ensures c.MoveSpeed? ==> move && ParseDecimal(xy) == Some(c.xy)
    ensures c.JogSpeed? ==> !move && ParseDecimal(xy) == Some(c.xy)
    ensures c.MoveSpeed? || c.JogSpeed? || c.Malformed?
  {
    match ParseDecimal(xy)
    case Some(v) => if move then MoveSpeed(v) else JogSpeed(v)
    case None => Malformed(xy)
  }

  /** A cut is exactly an `M3,` line with three numeric fields and nothing
      after the third, and its coordinates are the fields' values. */
  lemma CutShape(t: string)
    requires Classify(t).Cut?
    ensures exists m :: (ValidCutMatch(m) && t == CutText(m)
      && ParseDecimal(m.x) == Some(Classify(t).x)
      && ParseDecimal(m.y) == Some(Classify(t).y)
      && ParseDecimal(m.z) == Some(Classify(t).z))
  {
    var m := MatchCut(t).value;
    assert Classify(t) == CutCommand(m);
    assert ValidCutMatch(m) && t == CutText(m);
  }

  lemma ClassifyCutText(m: CutMatch)
    requires ValidCutMatch(m)
    requires ParseDecimal(m.x).Some? && ParseDecimal(m.y).Some? && ParseDecimal(m.z).Some?
    ensures Classify(CutText(m))
      == Cut(ParseDecimal(m.x).value, ParseDecimal(m.y).value, ParseDecimal(m.z).value)
  {
    MatchCutComplete(m);
  }

  /** The three opcodes are told apart by their first two characters, so a
      line that matches one pattern matches neither of the others: a cut is
      never also read as a speed declaration. */
  lemma PatternsExclusive(t: string)
    ensures MatchCut(t).Some? ==> MatchSpeed(t, "MS,").None? && MatchSpeed(t, "JS,").None?
    ensures MatchSpeed(t, "MS,").Some? ==> MatchSpeed(t, "JS,").None?
  {
    var c, ms, js := StartsWith(t, "M3,"), StartsWith(t, "MS,"), StartsWith(t, "JS,");
    assert c ==> t[1] == '3' && t[0] == 'M';
    assert ms ==> t[1] == 'S' && t[0] == 'M';
    assert js ==> t[0] == 'J';
  }

  /** Speed declarations: the XY field after `MS,` or `JS,` is the rate,
      whatever follows it. */
  lemma ClassifySpeed(ws: string, f: string, rest: string)
    requires AllSpace(ws) && Field(f) && (rest == [] || !NumChar(rest[0]))
    requires ParseDecimal(f).Some?
    ensures Classify("MS," + (ws + (f + rest))) == MoveSpeed(ParseDecimal(f).value)
    ensures Classify("JS," + (ws + (f + rest))) == JogSpeed(ParseDecimal(f).value)
  {
    MatchSpeedComplete("MS,", ws, f, rest);
    MatchSpeedComplete("JS,", ws, f, rest);
    var ms := "MS," + (ws + (f + rest));
    var js := "JS," + (ws + (f + rest));
    assert ms[1] == 'S' && js[0] == 'J';
    assert !StartsWith(ms, "M3,") && !StartsWith(js, "M3,") && !StartsWith(js, "MS,");
  }
}
