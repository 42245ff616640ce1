/**
  The snapshot differ: the three-way partition of the facts of an old and a
  new snapshot into added, removed and unchanged ("same") facts.
 */
module Difference {
  import opened Snapshots

  datatype Partition = Partition(added: set<Fact>, removed: set<Fact>, same: set<Fact>)

  /** The three parts are pairwise disjoint and together cover both flat forms. */
  ghost predicate PartitionsFacts(d: Partition, flatOld: set<Fact>, flatNew: set<Fact>)
  {
    && d.added !! d.removed
    && d.added !! d.same
    && d.removed !! d.same
    && d.added + d.removed + d.same == flatOld + flatNew
  }

  function StateDifference(oldState: Snapshot, newState: Snapshot): (d: Partition)
    ensures PartitionsFacts(d, Flat(oldState), Flat(newState))
    ensures forall f :: f in d.added <==> Holds(newState, f) && !Holds(oldState, f)
    ensures forall f :: f in d.removed <==> Holds(oldState, f) && !Holds(newState, f)
    ensures forall f :: f in d.same <==> Holds(oldState, f) && Holds(newState, f)
  {
    var flatOld := Flat(oldState);
    var flatNew := Flat(newState);
    Partition(flatNew - flatOld, flatOld - flatNew, flatOld * flatNew)
  }

  /** Diffing a snapshot against itself reports no change and keeps every fact. */
  lemma DifferenceWithItself(state: Snapshot)
    ensures StateDifference(state, state) == Partition({}, {}, Flat(state))
  {
  }

  /** Swapping the snapshots swaps added and removed and keeps the unchanged facts. */
  lemma DifferenceSymmetric(a: Snapshot, b: Snapshot)
    ensures StateDifference(b, a).added == StateDifference(a, b).removed
    ensures StateDifference(b, a).removed == StateDifference(a, b).added
    ensures StateDifference(b, a).same == StateDifference(a, b).same
  {
  }

  /** A park that the new snapshot drops entirely has all of its facts reported as removed. */
  lemma DroppedParkIsRemoved(oldState: Snapshot, newState: Snapshot, p: string)
    requires p in oldState && p !in newState
    ensures forall f | f in Flat(oldState) && f.park == p :: f in StateDifference(oldState, newState).removed
    ensures forall f | f in StateDifference(oldState, newState).added + StateDifference(oldState, newState).same
      :: f.park != p
  {
  }

  /** A park that only the new snapshot has contributes only added facts. */
  lemma NewParkIsAdded(oldState: Snapshot, newState: Snapshot, p: string)
    requires p !in oldState && p in newState
    ensures forall f | f in Flat(newState) && f.park == p :: f in StateDifference(oldState, newState).added
    ensures forall f | f in StateDifference(oldState, newState).removed + StateDifference(oldState, newState).same
      :: f.park != p
  {
  }

  /** Example: one park gains a second site. */
  lemma NewSiteExample()
    ensures
      var r1 := DateRange("2024-01-01", "2024-01-02");
      var r2 := DateRange("2024-02-01", "2024-02-02");
      var oldState := map["P1" := Park("Park One", map["S1" := [r1]])];
      var newState := map["P1" := Park("Park One", map["S1" := [r1], "S2" := [r2]])];
      StateDifference(oldState, newState)
        == Partition({Fact("P1", "S2", "2024-02-01", "2024-02-02")}, {},
                     {Fact("P1", "S1", "2024-01-01", "2024-01-02")})
  {
    var r1 := DateRange("2024-01-01", "2024-01-02");
    var r2 := DateRange("2024-02-01", "2024-02-02");
    var oldState := map["P1" := Park("Park One", map["S1" := [r1]])];
    var newState := map["P1" := Park("Park One", map["S1" := [r1], "S2" := [r2]])];
    var f1 := Fact("P1", "S1", "2024-01-01", "2024-01-02");
    var f2 := Fact("P1", "S2", "2024-02-01", "2024-02-02");
    assert Holds(oldState, f1) && Holds(newState, f1) && Holds(newState, f2);
    assert Flat(oldState) == {f1};
    assert Flat(newState) == {f1, f2};
  }
}
