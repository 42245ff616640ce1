/**
  Rendering one section of the report: the facts are regrouped, parks are
  listed by ascending id, the sites of each park by ascending id, and each
  site's date ranges in the order the grouping met them.

  The section is first laid out as park blocks holding site blocks, then
  written out as MarkdownV2 text, one line per park, site and date range.
 */
module Render {
  import opened Snapshots
  import opened StringOrder
  import opened Grouping
  import opened Escaping

  datatype SiteBlock = SiteBlock(site: string, ranges: seq<DateRange>)

  datatype ParkBlock = ParkBlock(park: string, name: string, sites: seq<SiteBlock>)

  function SiteBlocks(sites: map<string, seq<DateRange>>, ids: seq<string>): (blocks: seq<SiteBlock>)
    requires forall k | k in ids :: k in sites
    ensures |blocks| == |ids|
    ensures forall i | 0 <= i < |ids| :: blocks[i] == SiteBlock(ids[i], sites[ids[i]])
  {
    if ids == [] then [] else [SiteBlock(ids[0], sites[ids[0]])] + SiteBlocks(sites, ids[1..])
  }

  /** The block of park `p`: its display name and its sites by ascending id. */
  function ParkBlockOf(g: Grouped, names: map<string, string>, p: string): ParkBlock
    requires p in g && p in names
  {
    ParkBlock(p, names[p], SiteBlocks(g[p], SortedKeys(g[p].Keys)))
  }

  function ParkBlocks(g: Grouped, names: map<string, string>, ids: seq<string>): (blocks: seq<ParkBlock>)
    requires forall k | k in ids :: k in g && k in names
    ensures |blocks| == |ids|
    ensures forall i | 0 <= i < |ids| :: blocks[i] == ParkBlockOf(g, names, ids[i])
  {
    if ids == [] then [] else [ParkBlockOf(g, names, ids[0])] + ParkBlocks(g, names, ids[1..])
  }

  function ParkIds(blocks: seq<ParkBlock>): (ids: seq<string>)
    ensures |ids| == |blocks|
    ensures forall i | 0 <= i < |blocks| :: ids[i] == blocks[i].park
  {
    if blocks == [] then [] else [blocks[0].park] + ParkIds(blocks[1..])
  }

  function SiteIds(blocks: seq<SiteBlock>): (ids: seq<string>)
    ensures |ids| == |blocks|
    ensures forall i | 0 <= i < |blocks| :: ids[i] == blocks[i].site
  {
    if blocks == [] then [] else [blocks[0].site] + SiteIds(blocks[1..])
  }

  /**
    Block `b` shows park `b.park` of the grouping: under the park's display
    name, one block per site of the park, sites by strictly ascending id, each
    carrying that site's ranges as grouped.
   */
  ghost predicate ShowsPark(b: ParkBlock, g: Grouped, names: map<string, string>)
  {
    && b.park in g
    && b.park in names
    && b.name == names[b.park]
    && StrictlyAscending(SiteIds(b.sites))
    && (forall s :: s in SiteIds(b.sites) <==> s in g[b.park])
    && (forall j | 0 <= j < |b.sites| :: b.sites[j].ranges == g[b.park][b.sites[j].site])
  }

  /**
    The layout of a grouping: one block per park, parks by strictly ascending
    id, each block showing its park.
   */
  function Layout(g: Grouped, names: map<string, string>): (blocks: seq<ParkBlock>)
    requires g.Keys <= names.Keys
    ensures StrictlyAscending(ParkIds(blocks))
    ensures forall p :: p in ParkIds(blocks) <==> p in g
    ensures forall i | 0 <= i < |blocks| :: ShowsPark(blocks[i], g, names)
  {
    var ids := SortedKeys(g.Keys);
    LayoutShowsParks(g, names, ids);
    ParkBlocks(g, names, ids)
  }

  lemma LayoutShowsParks(g: Grouped, names: map<string, string>, ids: seq<string>)
    requires forall k | k in ids :: k in g && k in names
    ensures ParkIds(ParkBlocks(g, names, ids)) == ids
    ensures forall i | 0 <= i < |ids| :: ShowsPark(ParkBlocks(g, names, ids)[i], g, names)
  {
    forall i | 0 <= i < |ids|
      ensures ShowsPark(ParkBlocks(g, names, ids)[i], g, names)
    {
      ParkBlockShowsPark(g, names, ids[i]);
    }
  }

  lemma ParkBlockShowsPark(g: Grouped, names: map<string, string>, p: string)
    requires p in g && p in names
    ensures ShowsPark(ParkBlockOf(g, names, p), g, names)
  {
    var siteIds := SortedKeys(g[p].Keys);
    var sites := SiteBlocks(g[p], siteIds);
    assert SiteIds(sites) == siteIds;
  }

  /** The facts a section lists: one per date line, under its park and site headers. */
  function RangeFacts(park: string, site: string, ranges: seq<DateRange>): (facts: seq<Fact>)
    ensures |facts| == |ranges|
    ensures forall i | 0 <= i < |ranges| :: facts[i] == Fact(park, site, ranges[i].start, ranges[i].end)
  {
    if ranges == [] then [] else [Fact(park, site, ranges[0].start, ranges[0].end)] + RangeFacts(park, site, ranges[1..])
  }

  function SiteBlocksFacts(park: string, blocks: seq<SiteBlock>): seq<Fact>
  {
    if blocks == [] then []
    else RangeFacts(park, blocks[0].site, blocks[0].ranges) + SiteBlocksFacts(park, blocks[1..])
  }

  function SectionFacts(blocks: seq<ParkBlock>): seq<Fact>
  {
    if blocks == [] then [] else SiteBlocksFacts(blocks[0].park, blocks[0].sites) + SectionFacts(blocks[1..])
  }

  // Text of a section.

  function ParkHeader(park: string, name: string): string
  {
    "[" + name + "](https://www.recreation.gov/camping/campgrounds/" + park + "):\n"
  }

  function SiteHeader(site: string): string
  {
    "  [Site " + site + "](https://www.recreation.gov/camping/campsites/" + site + "):\n"
  }

  function DateLine(r: DateRange): string
  {
    "    \\* " + Escape(r.start) + " \\-\\> " + Escape(r.end) + "\n"
  }

  function DateLines(ranges: seq<DateRange>): string
  {
    if ranges == [] then "" else DateLine(ranges[0]) + DateLines(ranges[1..])
  }

  function SitesText(blocks: seq<SiteBlock>): string
  {
    if blocks == [] then "" else SiteHeader(blocks[0].site) + DateLines(blocks[0].ranges) + SitesText(blocks[1..])
  }

  function SectionText(blocks: seq<ParkBlock>): (text: string)
    ensures text == "" <==> blocks == []
  {
    if blocks == [] then "" else ParkHeader(blocks[0].park, blocks[0].name) + SitesText(blocks[0].sites) + SectionText(blocks[1..])
  }

  /**
    The text listing a set of facts, given the order in which the set is
    iterated. Every park of the facts needs a display name.
   */
  function GenerateUpdateSubmessage(order: seq<Fact>, names: map<string, string>): (message: string)
    requires forall f | f in order :: f.park in names
    ensures message == "" <==> order == []
  {
    var g := Unflatten(order);
    GroupedParksNamed(order, names);
    SectionText(Layout(g, names))
  }

  /** The parks of the grouping are the parks of the facts, so all of them have names. */
  lemma GroupedParksNamed(order: seq<Fact>, names: map<string, string>)
    requires forall f | f in order :: f.park in names
    ensures Unflatten(order).Keys <= names.Keys
    ensures Unflatten(order) == map[] <==> order == []
  {
    var g := Unflatten(order);
    forall p | p in g
      ensures p in names
    {
      UnflattenParks(order, p);
      var f := Select(order, ParkOf, p)[0];
      SelectMembers(order, ParkOf, p, f);
    }
    if order != [] {
      var last := order[|order| - 1];
      UnflattenParks(order, last.park);
      SelectMembers(order, ParkOf, last.park, last);
    }
  }

  // The facts listed by a section are exactly the facts it was given.

  lemma RangeFactsOfLocated(xs: seq<Fact>, p: string, s: string)
    requires forall f | f in xs :: f.park == p && f.site == s
    ensures RangeFacts(p, s, Ranges(xs)) == xs
  {
  }

  lemma {:induction false} SiteBlocksGather(order: seq<Fact>, p: string, ids: seq<string>)
    requires p in Unflatten(order)
    requires forall k | k in ids :: k in Unflatten(order)[p]
    ensures SiteBlocksFacts(p, SiteBlocks(Unflatten(order)[p], ids))
         == Gather(Select(order, ParkOf, p), SiteOf, ids)
  {
    if ids != [] {
      var g := Unflatten(order);
      var s := ids[0];
      var located := Located(order, p, s);
      UnflattenSites(order, p, s);
      forall f | f in located
        ensures f.park == p && f.site == s
      {
        LocatedMembers(order, f, p, s);
      }
      RangeFactsOfLocated(located, p, s);
      SiteBlocksGather(order, p, ids[1..]);
      assert SiteBlocks(g[p], ids)[1..] == SiteBlocks(g[p], ids[1..]);
    }
  }

  /** The block of park `p` lists the facts about `p`, up to order. */
  lemma ParkBlockFacts(order: seq<Fact>, names: map<string, string>, p: string)
    requires p in Unflatten(order) && p in names
    ensures multiset(SiteBlocksFacts(p, ParkBlockOf(Unflatten(order), names, p).sites))
         == multiset(Select(order, ParkOf, p))
  {
    var g := Unflatten(order);
    var ids := SortedKeys(g[p].Keys);
    SiteBlocksGather(order, p, ids);
    AscendingIsDistinct(ids);
    var byPark := Select(order, ParkOf, p);
    forall x | x in byPark
      ensures SiteOf(x) in ids
    {
      SelectMembers(order, ParkOf, p, x);
      LocatedMembers(order, x, p, x.site);
      UnflattenSites(order, p, x.site);
    }
    GatherPermutes(byPark, SiteOf, ids);
  }

  lemma {:induction false} ParkBlocksGather(order: seq<Fact>, names: map<string, string>, ids: seq<string>)
    requires forall k | k in ids :: k in Unflatten(order) && k in names
    ensures multiset(SectionFacts(ParkBlocks(Unflatten(order), names, ids)))
         == multiset(Gather(order, ParkOf, ids))
  {
    if ids != [] {
      var g := Unflatten(order);
      ParkBlockFacts(order, names, ids[0]);
      ParkBlocksGather(order, names, ids[1..]);
      assert ParkBlocks(g, names, ids)[1..] == ParkBlocks(g, names, ids[1..]);
    }
  }

  /**
    Every fact handed to a section appears in it as exactly one date line under
    its park and site, and nothing else does: read back, the section lists the
    given facts up to order.
   */
  lemma LayoutListsFacts(order: seq<Fact>, names: map<string, string>)
    requires Unflatten(order).Keys <= names.Keys
    ensures multiset(SectionFacts(Layout(Unflatten(order), names))) == multiset(order)
    ensures |SectionFacts(Layout(Unflatten(order), names))| == |order|
  {
    var g := Unflatten(order);
    var ids := SortedKeys(g.Keys);
    ParkBlocksGather(order, names, ids);
    AscendingIsDistinct(ids);
    forall x | x in order
      ensures ParkOf(x) in ids
    {
      SelectMembers(order, ParkOf, x.park, x);
      UnflattenParks(order, x.park);
    }
    GatherPermutes(order, ParkOf, ids);
    assert |SectionFacts(Layout(g, names))| == |multiset(order)|;
  }

  // The section as a sequence of lines.

  /** One line of a section: a park header, a site header or a date line. */
  datatype Line = ParkLine(park: string, name: string) | SiteLine(site: string) | RangeLine(range: DateRange)

  function LineText(l: Line): string
  {
    match l
    case ParkLine(park, name) => ParkHeader(park, name)
    case SiteLine(site) => SiteHeader(site)
    case RangeLine(r) => DateLine(r)
  }

  function Write(lines: seq<Line>): string
  {
    if lines == [] then "" else LineText(lines[0]) + Write(lines[1..])
  }

  function RangeLines(ranges: seq<DateRange>): seq<Line>
  {
    seq(|ranges|, i requires 0 <= i < |ranges| => RangeLine(ranges[i]))
  }

  function SiteLines(blocks: seq<SiteBlock>): seq<Line>
  {
    if blocks == [] then [] else [SiteLine(blocks[0].site)] + RangeLines(blocks[0].ranges) + SiteLines(blocks[1..])
  }

  function SectionLines(blocks: seq<ParkBlock>): seq<Line>
  {
    if blocks == [] then []
    else [ParkLine(blocks[0].park, blocks[0].name)] + SiteLines(blocks[0].sites) + SectionLines(blocks[1..])
  }

  /**
    Reading lines top to bottom: each date line stands for the fact made of
    the park and site of the headers last seen above it.
   */
  function ReadFacts(lines: seq<Line>, park: string, site: string): seq<Fact>
  {
    if lines == [] then []
    else match lines[0]
      case ParkLine(p, _) => ReadFacts(lines[1..], p, site)
      case SiteLine(s) => ReadFacts(lines[1..], park, s)
      case RangeLine(r) => [Fact(park, site, r.start, r.end)] + ReadFacts(lines[1..], park, site)
  }

  lemma {:induction false} WriteAppend(a: seq<Line>, b: seq<Line>)
    ensures Write(a + b) == Write(a) + Write(b)
  {
    if a == [] {
      assert a + b == b;
    } else {
      assert (a + b)[1..] == a[1..] + b;
      WriteAppend(a[1..], b);
    }
  }

  lemma {:induction false} WriteRanges(ranges: seq<DateRange>)
    ensures Write(RangeLines(ranges)) == DateLines(ranges)
  {
    if ranges != [] {
      assert RangeLines(ranges) == [RangeLine(ranges[0])] + RangeLines(ranges[1..]);
      WriteAppend([RangeLine(ranges[0])], RangeLines(ranges[1..]));
      WriteRanges(ranges[1..]);
    }
  }

  lemma {:induction false} WriteSites(blocks: seq<SiteBlock>)
    ensures Write(SiteLines(blocks)) == SitesText(blocks)
  {
    if blocks != [] {
      var b := blocks[0];
      WriteAppend([SiteLine(b.site)] + RangeLines(b.ranges), SiteLines(blocks[1..]));
      WriteAppend([SiteLine(b.site)], RangeLines(b.ranges));
      WriteRanges(b.ranges);
      WriteSites(blocks[1..]);
    }
  }

  lemma {:induction false} WriteSection(blocks: seq<ParkBlock>)
    ensures Write(SectionLines(blocks)) == SectionText(blocks)
  {
    if blocks != [] {
      var b := blocks[0];
      WriteAppend([ParkLine(b.park, b.name)] + SiteLines(b.sites), SectionLines(blocks[1..]));
      WriteAppend([ParkLine(b.park, b.name)], SiteLines(b.sites));
      WriteSites(b.sites);
      WriteSection(blocks[1..]);
    }
  }

  lemma {:induction false} ReadRanges(ranges: seq<DateRange>, rest: seq<Line>, park: string, site: string)
    ensures ReadFacts(RangeLines(ranges) + rest, park, site) == RangeFacts(park, site, ranges) + ReadFacts(rest, park, site)
  {
    if ranges == [] {
      assert RangeLines(ranges) + rest == rest;
    } else {
      assert RangeLines(ranges) + rest == [RangeLine(ranges[0])] + (RangeLines(ranges[1..]) + rest);
      ReadRanges(ranges[1..], rest, park, site);
    }
  }

  lemma {:induction false} ReadSection(blocks: seq<ParkBlock>, park: string, site: string)
    ensures ReadFacts(SectionLines(blocks), park, site) == SectionFacts(blocks)
    decreases |blocks|, 0
  {
    if blocks != [] {
      var b := blocks[0];
      assert SectionLines(blocks) == [ParkLine(b.park, b.name)] + (SiteLines(b.sites) + SectionLines(blocks[1..]));
      ReadSites(b.sites, blocks[1..], b.park, site);
    }
  }

  lemma {:induction false} ReadSites(sites: seq<SiteBlock>, more: seq<ParkBlock>, park: string, site: string)
    ensures ReadFacts(SiteLines(sites) + SectionLines(more), park, site)
         == SiteBlocksFacts(park, sites) + SectionFacts(more)
    decreases |more|, |sites| + 1
  {
    if sites == [] {
      assert SiteLines(sites) + SectionLines(more) == SectionLines(more);
      ReadSection(more, park, site);
    } else {
      var s := sites[0];
      var tail := SiteLines(sites[1..]) + SectionLines(more);
      assert SiteLines(sites) + SectionLines(more) == [SiteLine(s.site)] + (RangeLines(s.ranges) + tail);
      ReadRanges(s.ranges, tail, park, s.site);
      ReadSites(sites[1..], more, park, s.site);
    }
  }

  /**
    The written section is its lines one after the other, and its date lines,
    each read under the park and site headers above it, are exactly the facts
    of the layout, in the layout's order.
   */
  lemma SectionTextLines(blocks: seq<ParkBlock>)
    ensures SectionText(blocks) == Write(SectionLines(blocks))
    ensures ReadFacts(SectionLines(blocks), "", "") == SectionFacts(blocks)
  {
    WriteSection(blocks);
    ReadSection(blocks, "", "");
  }

  /** The lines of the submessage for the facts iterated in the given order. */
  function SubmessageLines(order: seq<Fact>, names: map<string, string>): seq<Line>
    requires forall f | f in order :: f.park in names
  {
    GroupedParksNamed(order, names);
    SectionLines(Layout(Unflatten(order), names))
  }

  /**
    The submessage is a sequence of lines whose date lines, read under their
    headers, list every fact handed over exactly once and nothing else.
   */
  lemma SubmessageListsFacts(order: seq<Fact>, names: map<string, string>)
    requires forall f | f in order :: f.park in names
    ensures GenerateUpdateSubmessage(order, names) == Write(SubmessageLines(order, names))
    ensures multiset(ReadFacts(SubmessageLines(order, names), "", "")) == multiset(order)
  {
    GroupedParksNamed(order, names);
    var blocks := Layout(Unflatten(order), names);
    SectionTextLines(blocks);
    LayoutListsFacts(order, names);
  }
}
