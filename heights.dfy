/** `_analyze_positioning_heights` (src/shopbotjog/core.py:119-160): the
    `Counter` of the cut heights, their extremes and mean, the repeated
    heights, and the feed height the rewrite jogs at. */
module Heights {
  import opened Wrappers

  /** `Counter(z_values)[z]`: how often `z` occurs. */
  function Count(zs: seq<real>, z: real): nat {
    multiset(zs)[z]
  }

  /** `Counter(z_values)` as a map from each height to its count. */
  function Counter(zs: seq<real>): (c: map<real, nat>)
    ensures forall z :: z in c <==> z in zs
    ensures forall z :: z in c ==> c[z] == Count(zs, z) && c[z] >= 1
  {
    map z | z in zs :: Count(zs, z)
  }

  function MaxZ(zs: seq<real>): (m: real)
    requires zs != []
    ensures m in zs && forall i :: 0 <= i < |zs| ==> zs[i] <= m
  {
    if |zs| == 1 then zs[0]
    else
      var m := MaxZ(zs[1..]);
      assert forall i :: 1 <= i < |zs| ==> zs[i] == zs[1..][i - 1];
      if zs[0] >= m then zs[0] else m
  }

  function MinZ(zs: seq<real>): (m: real)
    requires zs != []
    ensures m in zs && forall i :: 0 <= i < |zs| ==> m <= zs[i]
  {
    if |zs| == 1 then zs[0]
    else
      var m := MinZ(zs[1..]);
      assert forall i :: 1 <= i < |zs| ==> zs[i] == zs[1..][i - 1];
      if zs[0] <= m then zs[0] else m
  }

  function Sum(zs: seq<real>): real {
    if zs == [] then 0.0 else zs[0] + Sum(zs[1..])
  }

  /** `sum(z_values) / len(z_values)`. */
  function AvgZ(zs: seq<real>): real
    requires zs != []
  {
    Sum(zs) / |zs| as real
  }

  lemma {:induction false} SumBounds(zs: seq<real>, lo: real, hi: real)
    requires forall i :: 0 <= i < |zs| ==> lo <= zs[i] <= hi
    ensures |zs| as real * lo <= Sum(zs) <= |zs| as real * hi
  {
    if zs != [] {
      assert forall i :: 0 <= i < |zs[1..]| ==> zs[1..][i] == zs[i + 1];
      SumBounds(zs[1..], lo, hi);
    }
  }

  /** The mean lies between the lowest and the highest height. */
  lemma AvgBetween(zs: seq<real>)
    requires zs != []
    ensures MinZ(zs) <= AvgZ(zs) <= MaxZ(zs)
  {
    AvgWithin(zs, MinZ(zs), MaxZ(zs));
  }

  lemma AvgWithin(zs: seq<real>, lo: real, hi: real)
    requires zs != [] && forall i :: 0 <= i < |zs| ==> lo <= zs[i] <= hi
    ensures lo <= AvgZ(zs) <= hi
  {
    var n := |zs| as real;
    assert n * lo <= Sum(zs) <= n * hi by {
      SumBounds(zs, lo, hi);
    }
    DivBounds(Sum(zs), n, lo, hi);
  }

  lemma DivBounds(s: real, n: real, lo: real, hi: real)
    requires n > 0.0 && n * lo <= s <= n * hi
    ensures lo <= s / n <= hi
  {
    assert s / n * n == s;
  }

  /** A height the feed-height rule may pick: not below the material
      surface (z >= 0) and used by at least two cuts. */
  predicate IsCandidate(zs: seq<real>, z: real) {
    z >= 0.0 && Count(zs, z) >= 2
  }

  /** `a` sorts before `b` under `key=(count, z), reverse=True`. */
  predicate Beats(zs: seq<real>, a: real, b: real) {
    Count(zs, a) > Count(zs, b) || (Count(zs, a) == Count(zs, b) && a > b)
  }

  /** The best candidate among `items`, scanning them in order. */
  function BestOf(zs: seq<real>, items: seq<real>): (r: Option<real>)
    ensures r.None? <==> forall i :: 0 <= i < |items| ==> !IsCandidate(zs, items[i])
    ensures r.Some? ==> r.value in items && IsCandidate(zs, r.value)
    ensures r.Some? ==> forall i :: 0 <= i < |items| && IsCandidate(zs, items[i]) ==>
      items[i] == r.value || Beats(zs, r.value, items[i])
  {
    if items == [] then None
    else
      var init := items[..|items| - 1];
      var z := items[|items| - 1];
      var r := BestOf(zs, init);
      assert forall i :: 0 <= i < |init| ==> items[i] == init[i];
      if !IsCandidate(zs, z) then r
      else if r.None? || Beats(zs, z, r.value) then Some(z)
      else r
  }

  /** The feed height: the first entry of the candidates sorted by
      `(count, z)` in descending order, or `None` when there is none. */
  function FeedHeight(zs: seq<real>): Option<real> {
    BestOf(zs, zs)
  }

  /** The selected height is a non-negative repeated height; no other such
      height occurs more often, and among equally frequent ones it is the
      largest. */
  lemma FeedHeightIsBest(zs: seq<real>)
    requires FeedHeight(zs).Some?
    ensures IsCandidate(zs, FeedHeight(zs).value)
    ensures forall c :: IsCandidate(zs, c) ==> c == FeedHeight(zs).value || Beats(zs, FeedHeight(zs).value, c)
  {
    var h := FeedHeight(zs).value;
    forall c | IsCandidate(zs, c)
      ensures c == h || Beats(zs, h, c)
    {
      assert c in multiset(zs);
      var i :| 0 <= i < |zs| && zs[i] == c;
    }
  }

  /** There is no feed height exactly when no height is both non-negative
      and repeated. */
  lemma NoFeedHeight(zs: seq<real>)
    ensures FeedHeight(zs).None? <==> forall c :: !IsCandidate(zs, c)
  {
    if exists c :: IsCandidate(zs, c) {
      var c :| IsCandidate(zs, c);
      assert c in multiset(zs);
      var i :| 0 <= i < |zs| && zs[i] == c;
      assert IsCandidate(zs, zs[i]);
    }
  }

  /** `Beats` is a strict total order on distinct heights, so the rule
      determines the feed height: any height meeting the rule is it. */
  lemma FeedHeightUnique(zs: seq<real>, h: real)
    requires IsCandidate(zs, h)
    requires forall c :: IsCandidate(zs, c) ==> c == h || Beats(zs, h, c)
    ensures FeedHeight(zs) == Some(h)
  {
    NoFeedHeight(zs);
    FeedHeightIsBest(zs);
  }

  /** Whatever their frequency, heights below zero are never jogged at. */
  lemma NegativeNeverSelected(zs: seq<real>, z: real)
    requires z < 0.0
    ensures FeedHeight(zs) != Some(z)
  {
    if FeedHeight(zs).Some? {
      FeedHeightIsBest(zs);
    }
  }

  /** Equal counts: the larger height wins. */
  lemma TieTakesLarger()
    ensures FeedHeight([1.0, 2.0, 1.0, 2.0, 2.0, 1.0]) == Some(2.0)
  {
    var zs := [1.0, 2.0, 1.0, 2.0, 2.0, 1.0];
    assert Count(zs, 2.0) == 3 && Count(zs, 1.0) == 3;
    forall c | IsCandidate(zs, c)
      ensures c == 2.0 || Beats(zs, 2.0, c)
    {
      assert c in multiset(zs);
    }
    FeedHeightUnique(zs, 2.0);
  }

  /** A frequent negative height loses to a rarer non-negative one, and a
      height used once is never a candidate. */
  lemma NegativeIgnored()
    ensures FeedHeight([-0.5, -0.5, -0.5, 0.25, 0.25, 1.0]) == Some(0.25)
  {
    var zs := [-0.5, -0.5, -0.5, 0.25, 0.25, 1.0];
    assert Count(zs, 0.25) == 2 && Count(zs, 1.0) == 1;
    forall c | IsCandidate(zs, c)
      ensures c == 0.25
    {
      assert c in multiset(zs);
    }
    FeedHeightUnique(zs, 0.25);
  }

  /** One `(height, count)` pair of the analysis. */
  datatype HeightCount = HeightCount(z: real, count: nat)

  /** `positioning_heights`: the feed height with its count, or nothing. */
  function PositioningHeights(zs: seq<real>): (r: seq<HeightCount>)
    ensures |r| <= 1
    ensures r == [] <==> FeedHeight(zs).None?
    ensures r != [] ==> r[0].z == FeedHeight(zs).value && r[0].count == Count(zs, r[0].z) && r[0].count >= 2
  {
    match FeedHeight(zs)
    case Some(h) => [HeightCount(h, Count(zs, h))]
    case None => []
  }

  /** Non-increasing order, as `sort(..., reverse=True)` leaves it. */
  predicate Descending(s: seq<real>) {
    forall i, j :: 0 <= i < j < |s| ==> s[i] >= s[j]
  }

  function Insert(x: real, s: seq<real>): (r: seq<real>)
    requires Descending(s)
    ensures Descending(r) && multiset(r) == multiset(s) + multiset{x}
    decreases |s|, 1
  {
    if s == [] then [x]
    else if x >= s[0] then [x] + s
    else
      var t := Insert(x, s[1..]);
      assert s == [s[0]] + s[1..];
      InsertBelowHead(x, s);
      [s[0]] + t
  }

  lemma InsertBelowHead(x: real, s: seq<real>)
    requires Descending(s) && s != [] && x < s[0]
    ensures forall k :: 0 <= k < |Insert(x, s[1..])| ==> Insert(x, s[1..])[k] <= s[0]
    decreases |s|, 0
  {
    var t := Insert(x, s[1..]);
    forall k | 0 <= k < |t|
      ensures t[k] <= s[0]
    {
      assert t[k] in multiset(t);
      if t[k] != x {
        assert t[k] in multiset(s[1..]);
        var j :| 0 <= j < |s[1..]| && s[1..][j] == t[k];
        assert s[j + 1] == t[k];
      }
    }
  }

  /** `sorted(heights, reverse=True)`. */
  function SortDesc(s: seq<real>): (r: seq<real>)
    ensures Descending(r) && multiset(r) == multiset(s)
  {
    if s == [] then []
    else
      assert s == [s[0]] + s[1..];
      Insert(s[0], SortDesc(s[1..]))
  }

  /** The distinct heights in order of first occurrence (the keys of the
      `Counter`, in its iteration order). */
  function Distinct(zs: seq<real>): (d: seq<real>)
    ensures forall z :: z in d <==> z in zs
    ensures forall i, j :: 0 <= i < j < |d| ==> d[i] != d[j]
  {
    if zs == [] then []
    else
      var init := zs[..|zs| - 1];
      var z := zs[|zs| - 1];
      var d := Distinct(init);
      assert zs == init + [z];
      if z in d then d else d + [z]
  }

  function Repeated(zs: seq<real>, ds: seq<real>): (r: seq<real>)
    ensures forall z :: z in r <==> z in ds && Count(zs, z) >= 2
    ensures multiset(r) <= multiset(ds)
  {
    if ds == [] then []
    else
      var rest := Repeated(zs, ds[1..]);
      assert ds == [ds[0]] + ds[1..];
      if Count(zs, ds[0]) >= 2 then [ds[0]] + rest else rest
  }

  /** `frequent_heights`: every height used at least twice, with its count,
      highest first (negative heights included). */
  function FrequentHeights(zs: seq<real>): (r: seq<HeightCount>)
    ensures forall i :: 0 <= i < |r| ==> r[i].count == Count(zs, r[i].z) && r[i].count >= 2
    ensures forall i, j :: 0 <= i < j < |r| ==> r[i].z > r[j].z
  {
    var sorted := RepeatedDesc(zs);
    assert forall i :: 0 <= i < |sorted| ==> Count(zs, sorted[i]) >= 2;
    WithCounts(zs, sorted)
  }

  /** No repeated height is missing from `frequent_heights`. */
  lemma FrequentHeightsComplete(zs: seq<real>, z: real)
    requires Count(zs, z) >= 2
    ensures exists i :: 0 <= i < |FrequentHeights(zs)| && FrequentHeights(zs)[i].z == z
  {
    var hs := RepeatedDesc(zs);
    assert FrequentHeights(zs) == WithCounts(zs, hs);
    var i :| 0 <= i < |hs| && hs[i] == z;
    assert FrequentHeights(zs)[i].z == z;
  }

  /** Each height paired with its count. */
  function WithCounts(zs: seq<real>, hs: seq<real>): (r: seq<HeightCount>)
    ensures |r| == |hs| && forall i :: 0 <= i < |r| ==> r[i] == HeightCount(hs[i], Count(zs, hs[i]))
  {
    seq(|hs|, i requires 0 <= i < |hs| => HeightCount(hs[i], Count(zs, hs[i])))
  }

  /** The heights used at least twice, each once, highest first. */
  function RepeatedDesc(zs: seq<real>): (r: seq<real>)
    ensures forall i, j :: 0 <= i < j < |r| ==> r[i] > r[j]
    ensures forall z :: z in r <==> Count(zs, z) >= 2
  {
    var ds := Distinct(zs);
    var rep := Repeated(zs, ds);
    var sorted := SortDesc(rep);
    DistinctSorted(ds, rep, sorted);
    assert forall z :: z in sorted <==> z in rep by {
      forall z ensures z in sorted <==> z in rep {
        assert z in sorted <==> z in multiset(sorted);
        assert z in rep <==> z in multiset(rep);
      }
    }
    assert forall z :: Count(zs, z) >= 2 ==> z in zs by {
      forall z | Count(zs, z) >= 2 ensures z in zs {
        assert z in multiset(zs);
      }
    }
    sorted
  }

  /** Sorting a repetition-free sub-collection gives a strictly decreasing
      sequence. */
  lemma DistinctSorted(ds: seq<real>, sub: seq<real>, sorted: seq<real>)
    requires forall i, j :: 0 <= i < j < |ds| ==> ds[i] != ds[j]
    requires multiset(sub) <= multiset(ds)
    requires Descending(sorted) && multiset(sorted) == multiset(sub)
    ensures forall i, j :: 0 <= i < j < |sorted| ==> sorted[i] > sorted[j]
  {
    forall i, j | 0 <= i < j < |sorted|
      ensures sorted[i] > sorted[j]
    {
      if sorted[i] == sorted[j] {
        var v := sorted[i];
        assert multiset(sorted[..j])[v] >= 1 by {
          assert sorted[..j][i] == v;
        }
        assert sorted == sorted[..j] + sorted[j..];
        assert sorted[j..][0] == v;
        assert multiset(sorted)[v] >= 2;
        assert multiset(ds)[v] >= 2;
        NoDuplicates(ds, v);
      }
    }
  }

  lemma {:induction false} NoDuplicates(ds: seq<real>, v: real)
    requires forall i, j :: 0 <= i < j < |ds| ==> ds[i] != ds[j]
    ensures multiset(ds)[v] <= 1
  {
    if ds != [] {
      assert ds == [ds[0]] + ds[1..];
      NoDuplicates(ds[1..], v);
      if ds[0] == v {
        assert v !in ds[1..];
      }
    }
  }

  /** Everything `_analyze_positioning_heights` returns. */
  datatype HeightAnalysis = HeightAnalysis(
    counter: map<real, nat>,
    maxZ: real,
    minZ: real,
    avgZ: real,
    positioningHeights: seq<HeightCount>,
    feedHeight: Option<real>,
    retractHeight: Option<real>,
    frequentHeights: seq<HeightCount>)

  /** The analysis of a non-empty list of cut heights; `analyze_file`
      returns before calling it when there are none. */
  function AnalyzePositioningHeights(zs: seq<real>): (a: HeightAnalysis)
    requires zs != []
    ensures a.feedHeight == a.retractHeight == FeedHeight(zs)
    ensures a.minZ <= a.avgZ <= a.maxZ
    ensures a.positioningHeights == PositioningHeights(zs)
  {
    AvgBetween(zs);
    var feed := FeedHeight(zs);
    HeightAnalysis(Counter(zs), MaxZ(zs), MinZ(zs), AvgZ(zs), PositioningHeights(zs), feed, feed,
      FrequentHeights(zs))
  }
}
