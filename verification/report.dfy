/**
  The update message: the differ's partition rendered as up to three
  sections, newly added facts first, then facts still available, then facts no
  longer available, or the empty text when nothing was added or removed.
 */
module Report {
  import opened Snapshots
  import opened Difference
  import opened Grouping
  import opened Render
  import StringOrder

  /**
    Park id to display name over both snapshots. The index is built from the
    new snapshot and then updated from the old one, so on a conflict the old
    snapshot's name is kept.
   */
  function NameIndex(oldState: Snapshot, newState: Snapshot): (names: map<string, string>)
    ensures names.Keys == oldState.Keys + newState.Keys
    ensures forall p | p in oldState :: names[p] == oldState[p].name
    ensures forall p | p in newState && p !in oldState :: names[p] == newState[p].name
  {
    (map p | p in newState :: newState[p].name) + (map p | p in oldState :: oldState[p].name)
  }

  /** The order in which each of the three sets of the partition is iterated. */
  datatype IterationOrders = IterationOrders(added: seq<Fact>, same: seq<Fact>, removed: seq<Fact>)

  ghost predicate Iterates(orders: IterationOrders, d: Partition)
  {
    && Enumerates(orders.added, d.added)
    && Enumerates(orders.same, d.same)
    && Enumerates(orders.removed, d.removed)
  }

  datatype Heading = NewlyAdded | StillAvailable | NoLongerAvailable

  /** Position of a heading in the fixed order of sections. */
  function Rank(h: Heading): nat
  {
    match h
    case NewlyAdded => 0
    case StillAvailable => 1
    case NoLongerAvailable => 2
  }

  /** The part of the partition a heading reports. */
  function FactsUnder(d: Partition, h: Heading): set<Fact>
  {
    match h
    case NewlyAdded => d.added
    case StillAvailable => d.same
    case NoLongerAvailable => d.removed
  }

  function Banner(h: Heading): string
  {
    match h
    case NewlyAdded => "*NEWLY ADDED*\\!\\!\\!\n\n"
    case StillAvailable => "*Still available:*\n\n"
    case NoLongerAvailable => "*No longer available:*\n\n"
  }

  datatype Section = Section(heading: Heading, parks: seq<ParkBlock>)

  function Headings(sections: seq<Section>): (hs: seq<Heading>)
    ensures |hs| == |sections|
    ensures forall i | 0 <= i < |sections| :: hs[i] == sections[i].heading
  {
    if sections == [] then [] else [sections[0].heading] + Headings(sections[1..])
  }

  /** The section for one part of the partition, listing it in the given iteration order. */
  function SectionFor(h: Heading, order: seq<Fact>, names: map<string, string>): (section: Section)
    requires forall f | f in order :: f.park in names
    ensures section.heading == h
    ensures multiset(SectionFacts(section.parks)) == multiset(order)
    ensures StrictlyAscendingParks(section)
    ensures forall i | 0 <= i < |section.parks| ::
      (section.parks[i].park in names && section.parks[i].name == names[section.parks[i].park])
  {
    SectionLayout(order, names);
    Section(h, Layout(Unflatten(order), names))
  }

  /** The layout of the given facts lists them all, in ascending order, under their indexed names. */
  lemma SectionLayout(order: seq<Fact>, names: map<string, string>)
    requires forall f | f in order :: f.park in names
    ensures Unflatten(order).Keys <= names.Keys
    ensures var blocks := Layout(Unflatten(order), names);
      && multiset(SectionFacts(blocks)) == multiset(order)
      && StringOrder.StrictlyAscending(ParkIds(blocks))
      && (forall i | 0 <= i < |blocks| :: StringOrder.StrictlyAscending(SiteIds(blocks[i].sites)))
      && (forall i | 0 <= i < |blocks| :: blocks[i].park in names && blocks[i].name == names[blocks[i].park])
  {
    GroupedParksNamed(order, names);
    LayoutListsFacts(order, names);
    var g := Unflatten(order);
    var blocks := Layout(g, names);
    forall i | 0 <= i < |blocks|
      ensures StringOrder.StrictlyAscending(SiteIds(blocks[i].sites))
      ensures blocks[i].park in names && blocks[i].name == names[blocks[i].park]
    {
      assert ShowsPark(blocks[i], g, names);
    }
  }

  /** Parks of a section by ascending id, and the sites of each park by ascending id. */
  ghost predicate StrictlyAscendingParks(section: Section)
  {
    && StringOrder.StrictlyAscending(ParkIds(section.parks))
    && forall i | 0 <= i < |section.parks| :: StringOrder.StrictlyAscending(SiteIds(section.parks[i].sites))
  }

  /** A distinct enumeration of a set has the set's elements, each once. */
  lemma {:induction false} EnumerationMultiset(order: seq<Fact>, facts: set<Fact>)
    requires Enumerates(order, facts)
    ensures multiset(order) == multiset(facts)
    ensures |order| == |facts|
  {
    if order == [] {
      assert facts == {};
    } else {
      var init := order[..|order| - 1];
      var last := order[|order| - 1];
      assert order == init + [last];
      assert last !in init;
      assert Enumerates(init, facts - {last});
      EnumerationMultiset(init, facts - {last});
      assert facts == (facts - {last}) + {last};
      assert multiset(facts) == multiset(facts - {last}) + multiset{last};
    }
  }

  /** The headings of the non-empty parts of the partition, in the fixed order. */
  function PresentHeadings(d: Partition): (hs: seq<Heading>)
    ensures forall i, j | 0 <= i < j < |hs| :: Rank(hs[i]) < Rank(hs[j])
    ensures forall h :: h in hs <==> FactsUnder(d, h) != {}
  {
    (if d.added != {} then [NewlyAdded] else [])
    + (if d.same != {} then [StillAvailable] else [])
    + (if d.removed != {} then [NoLongerAvailable] else [])
  }

  function OrderUnder(orders: IterationOrders, h: Heading): seq<Fact>
  {
    match h
    case NewlyAdded => orders.added
    case StillAvailable => orders.same
    case NoLongerAvailable => orders.removed
  }

  /** One section per heading, each listing its part in its iteration order. */
  function Sections(hs: seq<Heading>, orders: IterationOrders, names: map<string, string>): (sections: seq<Section>)
    requires forall h, f | h in hs && f in OrderUnder(orders, h) :: f.park in names
    ensures Headings(sections) == hs
    ensures forall i | 0 <= i < |hs| :: sections[i] == SectionFor(hs[i], OrderUnder(orders, hs[i]), names)
  {
    var sections := seq(|hs|, i requires 0 <= i < |hs| => SectionFor(hs[i], OrderUnder(orders, hs[i]), names));
    assert Headings(sections) == hs;
    sections
  }

  /** Every fact of the partition is about a park of one of the two snapshots. */
  lemma PartitionParksNamed(oldState: Snapshot, newState: Snapshot)
    ensures var d := StateDifference(oldState, newState);
      forall f | f in d.added + d.same + d.removed :: f.park in NameIndex(oldState, newState)
  {
  }

  /** Every fact in any of the three iteration orders is about a park the index names. */
  lemma OrdersNamed(oldState: Snapshot, newState: Snapshot, orders: IterationOrders)
    requires Iterates(orders, StateDifference(oldState, newState))
    ensures forall h, f | f in OrderUnder(orders, h) :: f.park in NameIndex(oldState, newState)
  {
    var d := StateDifference(oldState, newState);
    PartitionParksNamed(oldState, newState);
    forall h, f | f in OrderUnder(orders, h)
      ensures f.park in NameIndex(oldState, newState)
    {
      assert f in FactsUnder(d, h);
    }
  }

  /**
    The sections of the update message: none when nothing was added or
    removed; otherwise one section per non-empty part, in the order newly
    added, still available, no longer available.
   */
  function ReportSections(oldState: Snapshot, newState: Snapshot, orders: IterationOrders): (sections: seq<Section>)
    requires Iterates(orders, StateDifference(oldState, newState))
    ensures var d := StateDifference(oldState, newState);
      sections == [] <==> d.added == {} && d.removed == {}
    ensures forall i, j | 0 <= i < j < |sections| :: Rank(sections[i].heading) < Rank(sections[j].heading)
    ensures var d := StateDifference(oldState, newState);
      sections != [] ==> forall h :: h in Headings(sections) <==> FactsUnder(d, h) != {}
  {
    var d := StateDifference(oldState, newState);
    var names := NameIndex(oldState, newState);
    OrdersNamed(oldState, newState, orders);
    if d.added == {} && d.removed == {} then []
    else Sections(PresentHeadings(d), orders, names)
  }

  /** A non-empty report has a section for exactly the non-empty parts, in the fixed order. */
  lemma ReportHeadings(oldState: Snapshot, newState: Snapshot, orders: IterationOrders)
    requires Iterates(orders, StateDifference(oldState, newState))
    requires ReportSections(oldState, newState, orders) != []
    ensures Headings(ReportSections(oldState, newState, orders)) == PresentHeadings(StateDifference(oldState, newState))
  {
    OrdersNamed(oldState, newState, orders);
  }

  /** The section at position `i` of the report lists the iteration order under its heading. */
  lemma ReportSection(oldState: Snapshot, newState: Snapshot, orders: IterationOrders, i: nat)
    requires Iterates(orders, StateDifference(oldState, newState))
    requires i < |ReportSections(oldState, newState, orders)|
    ensures var section := ReportSections(oldState, newState, orders)[i];
      multiset(SectionFacts(section.parks)) == multiset(OrderUnder(orders, section.heading))
    ensures var h := ReportSections(oldState, newState, orders)[i].heading;
      Enumerates(OrderUnder(orders, h), FactsUnder(StateDifference(oldState, newState), h))
  {
    var d := StateDifference(oldState, newState);
    var r := ReportSections(oldState, newState, orders);
    OrdersNamed(oldState, newState, orders);
    assert r == Sections(PresentHeadings(d), orders, NameIndex(oldState, newState));
    IteratesUnder(orders, d, r[i].heading);
  }

  lemma IteratesUnder(orders: IterationOrders, d: Partition, h: Heading)
    requires Iterates(orders, d)
    ensures Enumerates(OrderUnder(orders, h), FactsUnder(d, h))
  {
  }

  /** Each section lists exactly the facts of its part of the partition, each once. */
  lemma ReportListsPartition(oldState: Snapshot, newState: Snapshot, orders: IterationOrders)
    requires Iterates(orders, StateDifference(oldState, newState))
    ensures var d := StateDifference(oldState, newState);
      forall section | section in ReportSections(oldState, newState, orders) ::
        && multiset(SectionFacts(section.parks)) == multiset(FactsUnder(d, section.heading))
        && |SectionFacts(section.parks)| == |FactsUnder(d, section.heading)|
  {
    var d := StateDifference(oldState, newState);
    var sections := ReportSections(oldState, newState, orders);
    forall section | section in sections
      ensures multiset(SectionFacts(section.parks)) == multiset(FactsUnder(d, section.heading))
      ensures |SectionFacts(section.parks)| == |FactsUnder(d, section.heading)|
    {
      var i :| 0 <= i < |sections| && sections[i] == section;
      ReportSection(oldState, newState, orders, i);
      var facts := FactsUnder(d, section.heading);
      EnumerationMultiset(OrderUnder(orders, section.heading), facts);
      assert |SectionFacts(section.parks)| == |multiset(SectionFacts(section.parks))| == |multiset(facts)|;
    }
  }

  /** The block's park is in a snapshot and is shown under the old name if the old snapshot has it. */
  ghost predicate NamedFromSnapshots(b: ParkBlock, oldState: Snapshot, newState: Snapshot)
  {
    || (b.park in oldState && b.name == oldState[b.park].name)
    || (b.park !in oldState && b.park in newState && b.name == newState[b.park].name)
  }

  /**
    Within every section parks come by ascending id and sites by ascending id,
    and every park is shown under a name from the snapshots, the old
    snapshot's name when both have the park.
   */
  lemma ReportLayout(oldState: Snapshot, newState: Snapshot, orders: IterationOrders)
    requires Iterates(orders, StateDifference(oldState, newState))
    ensures forall section | section in ReportSections(oldState, newState, orders) ::
      && StrictlyAscendingParks(section)
      && forall b | b in section.parks :: NamedFromSnapshots(b, oldState, newState)
  {
  }

  function ReportText(sections: seq<Section>): (text: string)
    ensures text == "" <==> sections == []
  {
    if sections == [] then ""
    else Banner(sections[0].heading) + SectionText(sections[0].parks) + "\n" + ReportText(sections[1..])
  }

  /** Banner, submessage and a blank line for each heading in turn. */
  function MessageText(hs: seq<Heading>, orders: IterationOrders, names: map<string, string>): (text: string)
    requires forall h, f | h in hs && f in OrderUnder(orders, h) :: f.park in names
    ensures text == "" <==> hs == []
  {
    if hs == [] then ""
    else
      var section := Banner(hs[0]) + GenerateUpdateSubmessage(OrderUnder(orders, hs[0]), names) + "\n";
      section + MessageText(hs[1..], orders, names)
  }

  /**
    The update message for a new snapshot against the old one: empty exactly
    when no fact was added or removed, however many facts are unchanged.
   */
  function GenerateUpdateMessage(oldState: Snapshot, newState: Snapshot, orders: IterationOrders): (message: string)
    requires Iterates(orders, StateDifference(oldState, newState))
    ensures var d := StateDifference(oldState, newState);
      message == "" <==> d.added == {} && d.removed == {}
  {
    var d := StateDifference(oldState, newState);
    OrdersNamed(oldState, newState, orders);
    if d.added == {} && d.removed == {} then ""
    else
      assert NewlyAdded in PresentHeadings(d) || NoLongerAvailable in PresentHeadings(d);
      MessageText(PresentHeadings(d), orders, NameIndex(oldState, newState))
  }

  lemma {:induction false} SectionsText(hs: seq<Heading>, orders: IterationOrders, names: map<string, string>)
    requires forall h, f | h in hs && f in OrderUnder(orders, h) :: f.park in names
    ensures ReportText(Sections(hs, orders, names)) == MessageText(hs, orders, names)
  {
    if hs != [] {
      SectionsText(hs[1..], orders, names);
      assert Sections(hs, orders, names)[1..] == Sections(hs[1..], orders, names);
    }
  }

  /**
    The message text is the written form of the report's sections: the
    message lists, section by section, what the report's structure states.
   */
  lemma MessageIsReportText(oldState: Snapshot, newState: Snapshot, orders: IterationOrders)
    requires Iterates(orders, StateDifference(oldState, newState))
    ensures GenerateUpdateMessage(oldState, newState, orders) == ReportText(ReportSections(oldState, newState, orders))
  {
    var d := StateDifference(oldState, newState);
    OrdersNamed(oldState, newState, orders);
    if !(d.added == {} && d.removed == {}) {
      SectionsText(PresentHeadings(d), orders, NameIndex(oldState, newState));
    }
  }

  /** Comparing a snapshot with itself yields the empty message. */
  lemma UnchangedIsSilent(state: Snapshot, orders: IterationOrders)
    requires Iterates(orders, StateDifference(state, state))
    ensures GenerateUpdateMessage(state, state, orders) == ""
  {
    DifferenceWithItself(state);
  }
}
