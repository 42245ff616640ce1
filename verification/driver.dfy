/**
  The commit rule of one polling cycle, as a pure decision: given the
  baseline, the outcome of parsing the incoming snapshot and the outcome of
  handing a message to the chat, which messages were handed over, which
  snapshot is the baseline afterwards and with which status the process ends.
 */
module Driver {
  import opened Wrappers
  import opened Snapshots
  import opened Difference
  import opened Report
  import Render

  /** The fixed text sent when the incoming snapshot cannot be parsed. */
  const BrokenMessage: string := "I'm broken\\! Please help :'("

  datatype Outcome = Outcome(baseline: Snapshot, attempted: seq<string>, exitStatus: nat)

  /**
    The decision once the update message is known. A parse failure hands the
    fixed error text to the chat and fails; an empty message hands nothing
    over and fails; otherwise the message is handed over and the new snapshot
    becomes the baseline only if that send returned normally.
   */
  function Commit(baseline: Snapshot, parsed: Option<Snapshot>, message: string, sendOk: bool): (o: Outcome)
    ensures o.baseline == (if parsed.Some? && message != "" && sendOk then parsed.value else baseline)
    ensures o.exitStatus == 0 <==> parsed.Some? && message != "" && sendOk
    ensures o.exitStatus in {0, 1}
    ensures parsed.None? ==> o.attempted == [BrokenMessage]
    ensures parsed.Some? ==> o.attempted == (if message == "" then [] else [message])
  {
    match parsed
    case None => Outcome(baseline, [BrokenMessage], 1)
    case Some(newState) =>
      if message == "" then Outcome(baseline, [], 1)
      else if sendOk then Outcome(newState, [message], 0)
      else Outcome(baseline, [message], 1)
  }

  /** One polling cycle: render the update for the parsed snapshot, then commit or not. */
  function Cycle(baseline: Snapshot, parsed: Option<Snapshot>, orders: IterationOrders, sendOk: bool): (o: Outcome)
    requires parsed.Some? ==> Iterates(orders, StateDifference(baseline, parsed.value))
    ensures var changed := parsed.Some? &&
      (StateDifference(baseline, parsed.value).added != {} || StateDifference(baseline, parsed.value).removed != {});
      && (o.baseline == if changed && sendOk then parsed.value else baseline)
      && (o.exitStatus == 0 <==> changed && sendOk)
      && (parsed.Some? && !changed ==> o.attempted == [])
    ensures parsed.Some? && (StateDifference(baseline, parsed.value).added != {} || StateDifference(baseline, parsed.value).removed != {})
      ==> o.attempted == [GenerateUpdateMessage(baseline, parsed.value, orders)]
    ensures parsed.None? ==> o.attempted == [BrokenMessage]
  {
    var message := if parsed.Some? then GenerateUpdateMessage(baseline, parsed.value, orders) else "";
    Commit(baseline, parsed, message, sendOk)
  }

  /**
    Once a snapshot has been delivered and committed, polling the same
    snapshot again finds nothing to say: nothing is sent, the baseline stays,
    and the cycle ends with the failure status.
   */
  lemma DeliveredThenQuiet(baseline: Snapshot, state: Snapshot, orders: IterationOrders,
                           again: IterationOrders, sendOk: bool)
    requires Iterates(orders, StateDifference(baseline, state))
    requires StateDifference(baseline, state).added != {} || StateDifference(baseline, state).removed != {}
    requires Iterates(again, StateDifference(state, state))
    ensures Cycle(baseline, Some(state), orders, true) == Outcome(state, [GenerateUpdateMessage(baseline, state, orders)], 0)
    ensures Cycle(state, Some(state), again, sendOk) == Outcome(state, [], 1)
  {
    UnchangedIsSilent(state, again);
  }

  /**
    Two reports state the same change: the same headings, and under each the
    same facts, possibly with the date lines in another order.
   */
  ghost predicate SameChange(a: seq<Section>, b: seq<Section>)
  {
    && Headings(a) == Headings(b)
    && forall i | 0 <= i < |a| :: multiset(Render.SectionFacts(a[i].parks)) == multiset(Render.SectionFacts(b[i].parks))
  }

  /**
    A failed send loses nothing: the baseline stays, so the next cycle on the
    same snapshot, in a new process that may iterate the sets in another
    order, hands over one message again and commits it if that send returns.
   */
  lemma FailedSendRetries(baseline: Snapshot, state: Snapshot, orders: IterationOrders, again: IterationOrders)
    requires Iterates(orders, StateDifference(baseline, state))
    requires Iterates(again, StateDifference(baseline, state))
    ensures Cycle(baseline, Some(state), orders, false).baseline == baseline
    ensures var first := Cycle(baseline, Some(state), orders, false);
      var retry := Cycle(first.baseline, Some(state), again, true);
      && |retry.attempted| == |first.attempted|
      && (forall m | m in retry.attempted :: m != "")
      && (retry.attempted != [] ==> retry.baseline == state && retry.exitStatus == 0)
    ensures SameChange(ReportSections(baseline, state, again), ReportSections(baseline, state, orders))
  {
    var m1 := GenerateUpdateMessage(baseline, state, orders);
    var m2 := GenerateUpdateMessage(baseline, state, again);
    assert Cycle(baseline, Some(state), orders, false) == Commit(baseline, Some(state), m1, false);
    assert Cycle(baseline, Some(state), again, true) == Commit(baseline, Some(state), m2, true);
    CommitRetry(baseline, state, m1, m2);
    ReportIndependentOfOrder(baseline, state, orders, again);
  }

  /** A failed send of one message followed by a send of another that is empty exactly when the first was. */
  lemma CommitRetry(baseline: Snapshot, state: Snapshot, m1: string, m2: string)
    requires m1 == "" <==> m2 == ""
    ensures Commit(baseline, Some(state), m1, false).baseline == baseline
    ensures var retry := Commit(baseline, Some(state), m2, true);
      && |retry.attempted| == |Commit(baseline, Some(state), m1, false).attempted|
      && (forall m | m in retry.attempted :: m != "")
      && (retry.attempted != [] ==> retry.baseline == state && retry.exitStatus == 0)
  {
  }

  /**
    Whatever order the sets are iterated in, the report has the same sections
    listing the same facts; only the order of date lines within a site may
    differ. So a retried cycle reports the same change.
   */
  lemma ReportIndependentOfOrder(oldState: Snapshot, newState: Snapshot, orders: IterationOrders, again: IterationOrders)
    requires Iterates(orders, StateDifference(oldState, newState))
    requires Iterates(again, StateDifference(oldState, newState))
    ensures SameChange(ReportSections(oldState, newState, again), ReportSections(oldState, newState, orders))
  {
    var first := ReportSections(oldState, newState, orders);
    var retry := ReportSections(oldState, newState, again);
    if first != [] {
      ReportHeadings(oldState, newState, orders);
      ReportHeadings(oldState, newState, again);
      forall i | 0 <= i < |first|
        ensures multiset(Render.SectionFacts(retry[i].parks)) == multiset(Render.SectionFacts(first[i].parks))
      {
        SameSection(oldState, newState, orders, again, i);
      }
    }
  }

  lemma SameSection(oldState: Snapshot, newState: Snapshot, orders: IterationOrders, again: IterationOrders, i: nat)
    requires Iterates(orders, StateDifference(oldState, newState))
    requires Iterates(again, StateDifference(oldState, newState))
    requires i < |ReportSections(oldState, newState, orders)|
    requires Headings(ReportSections(oldState, newState, again)) == Headings(ReportSections(oldState, newState, orders))
    ensures multiset(Render.SectionFacts(ReportSections(oldState, newState, again)[i].parks))
         == multiset(Render.SectionFacts(ReportSections(oldState, newState, orders)[i].parks))
  {
    var first := ReportSections(oldState, newState, orders);
    var retry := ReportSections(oldState, newState, again);
    ReportListsPartition(oldState, newState, orders);
    ReportListsPartition(oldState, newState, again);
    assert Headings(first)[i] == Headings(retry)[i];
    assert first[i] in first && retry[i] in retry;
  }
}
