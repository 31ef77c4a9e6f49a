/** The manual feed-height check of the `shopbotjog` command
    (src/shopbotjog/cli.py:256-277): a height given on the command line is
    used only when the file cuts at it; otherwise the non-negative heights
    of the file are offered instead. */
module Cli {
  import opened Wrappers
  import opened Heights

  /** What the check decides: detect the height, use the given one, or
      stop and list the heights that could have been given. */
  datatype ManualChoice = Auto | UseHeight(h: real) | NotInFile(available: seq<HeightCount>)

  /** The non-negative heights of `ds`, in their order. */
  function NonNegative(ds: seq<real>): (r: seq<real>)
    ensures forall z :: z in r <==> z in ds && z >= 0.0
    ensures multiset(r) <= multiset(ds)
  {
    if ds == [] then []
    else
      var rest := NonNegative(ds[1..]);
      assert ds == [ds[0]] + ds[1..];
      if ds[0] >= 0.0 then [ds[0]] + rest else rest
  }

  /** The listing of a missing height's error: each non-negative height of
      the file once, highest first, with its number of occurrences. */
  function AvailableHeights(zs: seq<real>): (r: seq<HeightCount>)
    ensures forall i, j :: 0 <= i < j < |r| ==> r[i].z > r[j].z
    ensures forall i :: 0 <= i < |r| ==> r[i].z >= 0.0 && r[i].count == Count(zs, r[i].z) && r[i].count >= 1
    ensures forall z :: z in zs && z >= 0.0 ==> exists i :: 0 <= i < |r| && r[i].z == z
  {
    var ds := Distinct(zs);
    var sub := NonNegative(ds);
    var sorted := SortDesc(sub);
    DistinctSorted(ds, sub, sorted);
    SameMembers(sub, sorted);
    ListingFacts(zs, sub, sorted);
    WithCounts(zs, sorted)
  }

  /** The listing built from a strictly decreasing sequence of exactly
      the non-negative heights of the file. */
  lemma ListingFacts(zs: seq<real>, sub: seq<real>, sorted: seq<real>)
    requires forall z :: z in sub <==> z in zs && z >= 0.0
    requires forall z :: z in sorted <==> z in sub
    requires forall i, j :: 0 <= i < j < |sorted| ==> sorted[i] > sorted[j]
    ensures var r := WithCounts(zs, sorted);
      (forall i, j :: 0 <= i < j < |r| ==> r[i].z > r[j].z)
      && (forall i :: 0 <= i < |r| ==> r[i].z >= 0.0 && r[i].count == Count(zs, r[i].z) && r[i].count >= 1)
      && (forall z :: z in zs && z >= 0.0 ==> exists i :: 0 <= i < |r| && r[i].z == z)
  {
    OccursOnce(zs);
    var r := WithCounts(zs, sorted);
    forall i | 0 <= i < |r|
      ensures r[i].z >= 0.0 && r[i].count >= 1
    {
      assert r[i].z == sorted[i] && sorted[i] in sorted;
    }
    forall z | z in zs && z >= 0.0
      ensures exists i :: 0 <= i < |r| && r[i].z == z
    {
      var i :| 0 <= i < |sorted| && sorted[i] == z;
      assert r[i].z == z;
    }
  }

  /** Two sequences with the same multiset have the same members. */
  lemma SameMembers(s: seq<real>, t: seq<real>)
    requires multiset(s) == multiset(t)
    ensures forall z :: z in s <==> z in t
  {
    forall z ensures z in s <==> z in t {
      assert z in s <==> z in multiset(s);
      assert z in t <==> z in multiset(t);
    }
  }

  /** Every height of the file occurs at least once. */
  lemma OccursOnce(zs: seq<real>)
    ensures forall z :: z in zs ==> Count(zs, z) >= 1
  {
    forall z | z in zs ensures Count(zs, z) >= 1 {
      assert z in multiset(zs);
    }
  }

  /** The check: a missing or negative height means "detect it"; a given
      height is used when the file cuts at it, and otherwise the check
      stops with the available heights. */
  function ManualHeight(feed: Option<real>, zs: seq<real>): (r: ManualChoice)
    ensures r.Auto? <==> feed.None? || feed.value < 0.0
    ensures r.UseHeight? <==> feed.Some? && feed.value >= 0.0 && feed.value in zs
    ensures r.UseHeight? ==> r.h == feed.value
    ensures r.NotInFile? ==> r.available == AvailableHeights(zs)
  {
    match feed
    case None => Auto
    case Some(h) =>
      if h < 0.0 then Auto
      else if h in zs then UseHeight(h)
      else NotInFile(AvailableHeights(zs))
  }

  /** A height that is refused is not in the listing, and the listing is
      empty exactly when the file has no non-negative height. */
  lemma RefusedHeightNotListed(feed: Option<real>, zs: seq<real>)
    requires ManualHeight(feed, zs).NotInFile?
    ensures var av := ManualHeight(feed, zs).available;
      (forall i :: 0 <= i < |av| ==> av[i].z != feed.value)
      && (av == [] <==> forall z :: z in zs ==> z < 0.0)
  {
    var av := AvailableHeights(zs);
    forall i | 0 <= i < |av|
      ensures av[i].z != feed.value
    {
      assert av[i].z in multiset(zs);
    }
    if av != [] {
      assert Count(zs, av[0].z) >= 1;
      assert av[0].z in multiset(zs);
      assert av[0].z in zs && av[0].z >= 0.0;
    }
  }
}
