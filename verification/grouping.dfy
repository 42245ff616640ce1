/**
  Regrouping flat facts into park id -> site id -> list of date ranges.

  The facts arrive as a sequence: the order in which the set of facts happens
  to be iterated. The grouping folds over that order, so each site's list of
  ranges keeps the order in which its facts were met.
 */
module Grouping {
  import opened Snapshots

  type Grouped = map<string, map<string, seq<DateRange>>>

  /** Each fact of the set occurs exactly once in the order. */
  ghost predicate Enumerates(order: seq<Fact>, facts: set<Fact>)
  {
    && (forall i, j | 0 <= i < j < |order| :: order[i] != order[j])
    && (forall f :: f in order <==> f in facts)
  }

  function ParkOf(f: Fact): string { f.park }

  function SiteOf(f: Fact): string { f.site }

  /** The facts of `xs` whose key is `k`, in their order in `xs`. */
  function Select(xs: seq<Fact>, key: Fact -> string, k: string): seq<Fact>
  {
    if xs == [] then []
    else
      var last := xs[|xs| - 1];
      assert xs == xs[..|xs| - 1] + [last];
      Select(xs[..|xs| - 1], key, k) + (if key(last) == k then [last] else [])
  }

  lemma {:induction false} SelectMembers(xs: seq<Fact>, key: Fact -> string, k: string, f: Fact)
    ensures f in Select(xs, key, k) <==> f in xs && key(f) == k
  {
    if xs != [] {
      var init := xs[..|xs| - 1];
      assert xs == init + [xs[|xs| - 1]];
      SelectMembers(init, key, k, f);
    }
  }

  lemma SelectSnoc(xs: seq<Fact>, x: Fact, key: Fact -> string, k: string)
    ensures Select(xs + [x], key, k) == Select(xs, key, k) + (if key(x) == k then [x] else [])
  {
    assert (xs + [x])[..|xs|] == xs;
  }

  /** The facts of `xs` about site `s` of park `p`, in their order in `xs`. */
  function Located(xs: seq<Fact>, p: string, s: string): seq<Fact>
  {
    Select(Select(xs, ParkOf, p), SiteOf, s)
  }

  lemma LocatedSnoc(xs: seq<Fact>, x: Fact, p: string, s: string)
    ensures Located(xs + [x], p, s) == Located(xs, p, s) + (if x.park == p && x.site == s then [x] else [])
  {
    SelectSnoc(xs, x, ParkOf, p);
    assert ParkOf(x) == x.park && SiteOf(x) == x.site;
    if x.park == p {
      assert Select(xs + [x], ParkOf, p) == Select(xs, ParkOf, p) + [x];
      SelectSnoc(Select(xs, ParkOf, p), x, SiteOf, s);
    } else {
      assert Select(xs + [x], ParkOf, p) == Select(xs, ParkOf, p);
    }
  }

  /** The ranges of a list of facts, in the same order. */
  function Ranges(xs: seq<Fact>): (r: seq<DateRange>)
    ensures |r| == |xs|
    ensures forall i | 0 <= i < |xs| :: r[i] == RangeOf(xs[i])
  {
    if xs == [] then [] else Ranges(xs[..|xs| - 1]) + [RangeOf(xs[|xs| - 1])]
  }

  lemma RangesSnoc(xs: seq<Fact>, x: Fact)
    ensures Ranges(xs + [x]) == Ranges(xs) + [RangeOf(x)]
  {
    assert (xs + [x])[..|xs|] == xs;
  }

  /** One step of the grouping loop: append the fact's range under its park and site. */
  function AddFact(g: Grouped, f: Fact): Grouped
  {
    var sites := if f.park in g then g[f.park] else map[];
    var ranges := if f.site in sites then sites[f.site] else [];
    g[f.park := sites[f.site := ranges + [RangeOf(f)]]]
  }

  function Unflatten(order: seq<Fact>): Grouped
  {
    if order == [] then map[]
    else AddFact(Unflatten(order[..|order| - 1]), order[|order| - 1])
  }

  /** The park keys of the grouping are exactly the parks the facts mention. */
  lemma {:induction false} UnflattenParks(order: seq<Fact>, p: string)
    ensures p in Unflatten(order) <==> Select(order, ParkOf, p) != []
  {
    if order != [] {
      var init := order[..|order| - 1];
      var last := order[|order| - 1];
      assert order == init + [last];
      UnflattenParks(init, p);
      SelectSnoc(init, last, ParkOf, p);
    }
  }

  /**
    Site `s` is a key under park `p` exactly when some fact is about that site
    of that park, and its list holds the ranges of those facts in order.
   */
  lemma {:induction false} UnflattenSites(order: seq<Fact>, p: string, s: string)
    ensures (p in Unflatten(order) && s in Unflatten(order)[p]) <==> Located(order, p, s) != []
    ensures p in Unflatten(order) && s in Unflatten(order)[p] ==>
      Unflatten(order)[p][s] == Ranges(Located(order, p, s))
  {
    if order != [] {
      var init := order[..|order| - 1];
      var last := order[|order| - 1];
      assert order == init + [last];
      UnflattenSites(init, p, s);
      LocatedSnoc(init, last, p, s);
      RangesSnoc(Located(init, p, s), last);
    }
  }

  /** Every list of ranges in a grouping is non-empty. */
  lemma {:induction false} UnflattenNonEmpty(order: seq<Fact>, p: string, s: string)
    requires p in Unflatten(order) && s in Unflatten(order)[p]
    ensures Unflatten(order)[p][s] != []
  {
    UnflattenSites(order, p, s);
  }

  lemma LocatedMembers(xs: seq<Fact>, f: Fact, p: string, s: string)
    ensures f in Located(xs, p, s) <==> f in xs && f.park == p && f.site == s
  {
    SelectMembers(xs, ParkOf, p, f);
    SelectMembers(Select(xs, ParkOf, p), SiteOf, s, f);
  }

  /** A range is listed under park `p` and site `s` exactly when the fact is in the order. */
  lemma {:induction false} UnflattenMembership(order: seq<Fact>, f: Fact)
    ensures (f.park in Unflatten(order) && f.site in Unflatten(order)[f.park]
             && RangeOf(f) in Unflatten(order)[f.park][f.site]) <==> f in order
  {
    UnflattenSites(order, f.park, f.site);
    var sel := Located(order, f.park, f.site);
    LocatedMembers(order, f, f.park, f.site);
    if f in order {
      var i :| 0 <= i < |sel| && sel[i] == f;
      assert Ranges(sel)[i] == RangeOf(f);
    }
    if RangeOf(f) in Ranges(sel) {
      var i :| 0 <= i < |sel| && Ranges(sel)[i] == RangeOf(f);
      LocatedMembers(order, sel[i], f.park, f.site);
      assert sel[i] == f;
    }
  }

  /** The facts of the parks `ks`, park by park in the order of `ks`. */
  function Gather(xs: seq<Fact>, key: Fact -> string, ks: seq<string>): seq<Fact>
  {
    if ks == [] then [] else Select(xs, key, ks[0]) + Gather(xs, key, ks[1..])
  }

  lemma {:induction false} GatherSnoc(xs: seq<Fact>, x: Fact, key: Fact -> string, ks: seq<string>)
    requires forall i, j | 0 <= i < j < |ks| :: ks[i] != ks[j]
    ensures multiset(Gather(xs + [x], key, ks))
         == multiset(Gather(xs, key, ks)) + (if key(x) in ks then multiset{x} else multiset{})
  {
    if ks != [] {
      var k := ks[0];
      var tail := ks[1..];
      SelectSnoc(xs, x, key, k);
      GatherSnoc(xs, x, key, tail);
      HeadNotInTail(ks);
      var a := Select(xs, key, k);
      var here := if key(x) == k then [x] else [];
      assert Gather(xs + [x], key, ks) == (a + here) + Gather(xs + [x], key, tail);
      assert Gather(xs, key, ks) == a + Gather(xs, key, tail);
      assert multiset(Gather(xs + [x], key, ks))
          == multiset(a) + multiset(here) + multiset(Gather(xs + [x], key, tail));
    }
  }

  lemma HeadNotInTail(ks: seq<string>)
    requires ks != []
    requires forall i, j | 0 <= i < j < |ks| :: ks[i] != ks[j]
    ensures ks[0] !in ks[1..]
    ensures forall k :: k in ks <==> k == ks[0] || k in ks[1..]
  {
    assert ks == [ks[0]] + ks[1..];
  }

  /** Gathering by a list of distinct keys that covers every fact is a permutation. */
  lemma {:induction false} GatherPermutes(xs: seq<Fact>, key: Fact -> string, ks: seq<string>)
    requires forall i, j | 0 <= i < j < |ks| :: ks[i] != ks[j]
    requires forall x | x in xs :: key(x) in ks
    ensures multiset(Gather(xs, key, ks)) == multiset(xs)
  {
    if xs == [] {
      GatherEmpty(key, ks);
    } else {
      var init := xs[..|xs| - 1];
      var last := xs[|xs| - 1];
      assert xs == init + [last];
      GatherPermutes(init, key, ks);
      GatherSnoc(init, last, key, ks);
    }
  }

  lemma {:induction false} GatherEmpty(key: Fact -> string, ks: seq<string>)
    ensures Gather([], key, ks) == []
  {
    if ks != [] {
      GatherEmpty(key, ks[1..]);
    }
  }
}
