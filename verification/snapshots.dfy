/**
  Availability snapshots and their flat form.

  A snapshot maps a park id to a park record; a park record carries a display
  name and, per site id, the list of available date ranges. The flat form of a
  snapshot is the set of (park, site, start, end) facts it contains: two
  snapshots are compared purely as sets of such facts.
 */
module Snapshots {

  /** One available stay; dates are compared as plain text, never parsed. */
  datatype DateRange = DateRange(start: string, end: string)

  datatype Park = Park(name: string, availableSites: map<string, seq<DateRange>>)

  type Snapshot = map<string, Park>

  /** The atomic unit of comparison: one date range of one site of one park. */
  datatype Fact = Fact(park: string, site: string, start: string, end: string)

  function RangeOf(f: Fact): DateRange
  {
    DateRange(f.start, f.end)
  }

  /** `f` is one of the facts the snapshot contains. */
  predicate Holds(state: Snapshot, f: Fact)
  {
    && f.park in state
    && f.site in state[f.park].availableSites
    && RangeOf(f) in state[f.park].availableSites[f.site]
  }

  /** The flat form of a snapshot, as the set the differ builds from the flattened list. */
  function Flat(state: Snapshot): (facts: set<Fact>)
    ensures forall f :: f in facts <==> Holds(state, f)
  {
    set p, s, r | p in state && s in state[p].availableSites && r in state[p].availableSites[s]
      :: Fact(p, s, r.start, r.end)
  }

  /**
    The flattening walk: every park, every site of that park, every range of
    that site, one fact per range (duplicates are kept, as in a list). The
    order of parks and sites is whatever order the walk picks.
   */
  method FlattenedSites(state: Snapshot) returns (result: seq<Fact>)
    ensures forall f :: f in result <==> Holds(state, f)
  {
    result := [];
    var parks := state.Keys;
    while parks != {}
      invariant parks <= state.Keys
      invariant forall f :: f in result <==> Holds(state, f) && f.park !in parks
      decreases parks
    {
      var p :| p in parks;
      var sites := state[p].availableSites.Keys;
      while sites != {}
        invariant sites <= state[p].availableSites.Keys
        invariant forall f :: f in result <==>
          Holds(state, f) && (f.park !in parks || (f.park == p && f.site !in sites))
        decreases sites
      {
        var s :| s in sites;
        var ranges := state[p].availableSites[s];
        var i := 0;
        while i < |ranges|
          invariant 0 <= i <= |ranges|
          invariant forall f :: f in result <==>
            || (Holds(state, f) && (f.park !in parks || (f.park == p && f.site !in sites)))
            || (f.park == p && f.site == s && RangeOf(f) in ranges[..i])
        {
          result := result + [Fact(p, s, ranges[i].start, ranges[i].end)];
          assert ranges[..i + 1] == ranges[..i] + [ranges[i]];
          i := i + 1;
        }
        assert ranges[..i] == ranges;
        sites := sites - {s};
      }
      parks := parks - {p};
    }
  }

  /** The park with every empty site list removed. */
  function PruneSites(park: Park): Park
  {
    Park(park.name, map s | s in park.availableSites && park.availableSites[s] != [] :: park.availableSites[s])
  }

  /** The snapshot with every empty site list and every park without sites removed. */
  function Prune(state: Snapshot): (pruned: Snapshot)
    ensures pruned.Keys <= state.Keys
    ensures forall p | p in pruned :: pruned[p].availableSites != map[]
    ensures forall p, s | p in pruned && s in pruned[p].availableSites :: pruned[p].availableSites[s] != []
  {
    map p | p in state && PruneSites(state[p]).availableSites != map[] :: PruneSites(state[p])
  }

  /** Parks without sites and sites without ranges contribute no fact. */
  lemma EmptyPartsContributeNothing(state: Snapshot)
    ensures Flat(Prune(state)) == Flat(state)
  {
    forall f | Holds(state, f)
      ensures Holds(Prune(state), f)
    {
      var park := PruneSites(state[f.park]);
      assert f.site in park.availableSites;
    }
  }
}
