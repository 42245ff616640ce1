# Campsite availability notifier: snapshot diff and report

A Dafny model of the pure core of the campsite notifier in
`notifier/telegram_notifier.py`. Each polling cycle hands the notifier a fresh
availability snapshot (park id -> park name and, per site id, a list of
available date ranges). The notifier compares it with the last committed
snapshot and reports the changes in a MarkdownV2 chat message. Only after that
message is sent does the new snapshot become the baseline.

Modules, following the source's functions:

- `Snapshots` (`snapshots.dfy`): the snapshot records, the flat
  `(park, site, start, end)` facts, `Flat` (the set of facts) and
  `FlattenedSites` (the walk that lists them, as `flattened_sites` does).
- `Difference` (`difference.dfy`): `state_difference` as set algebra on flat
  facts.
- `StringOrder` (`string_order.dfy`): Python's code-point order on `str`, and
  `SortedKeys`, the ascending key list that `sorted(dict)` yields.
- `Grouping` (`grouping.dfy`): `unflatten_sites` as a fold over the order in
  which the set of facts is iterated, plus a reference definition by
  filtering.
- `Escaping` (`escaping.dfy`): `-` to `\-` in dates, and its inverse.
- `Render` (`render.dfy`): `generate_update_submessage`. Facts are laid out as
  park blocks holding site blocks, then written out as text.
- `Report` (`report.dfy`): the park-name index and `generate_update_message`.
- `Driver` (`driver.dfy`): the send/commit/exit decision of `main`.
- `Wrappers` (`wrappers.dfy`): `Option`, which stands for the outcome of
  parsing the input.

Python gives no fixed iteration order for a set. The model makes that order
an explicit input: every set that is rendered comes with a sequence that lists
each of its elements exactly once (`Grouping.Enumerates`, bundled as
`Report.IterationOrders`). The grouping folds over that sequence just as the
source's loop does, so date lines within a site follow it. Every property is
proved for all such orders. Where the exact lines are at stake, the properties
are stated as multisets.

The model follows the code where it behaves unexpectedly:
- The park-name index is built from the new snapshot and then overwritten from
  the old one (lines 93-94), so the old name wins on a conflicting id.
- Date lines within a site are not sorted (line 82).
- On a parse failure, the error text goes to the same chat as every other
  message (lines 21 and 130).
- A cycle with no changes exits with status 1 (lines 148-149).

## Model

| member | source | states |
|---|---|---|
| Snapshots.Flat | notifier/telegram_notifier.py:32-47 | a fact is in the flat form iff its park is a key of the snapshot, its site is a key of that park's sites and its (start, end) pair is in that site's list |
| Snapshots.FlattenedSites | notifier/telegram_notifier.py:32-47 | the walk over every park, site and range lists exactly the facts the snapshot holds |
| Snapshots.EmptyPartsContributeNothing | notifier/telegram_notifier.py:35-45 | parks with no sites and sites with an empty list contribute no fact: removing them leaves the flat form unchanged |
| Difference.StateDifference | notifier/telegram_notifier.py:50-57 | added, removed and same are pairwise disjoint and their union is flat(old) ∪ flat(new); added holds the facts only the new snapshot has, removed those only the old one has, same those both have |
| Difference.DifferenceWithItself | notifier/telegram_notifier.py:53-55 | diffing a snapshot with itself gives nothing added, nothing removed and all of its facts unchanged |
| Difference.DifferenceSymmetric | notifier/telegram_notifier.py:53-55 | swapping the snapshots swaps added and removed and keeps same |
| Difference.DroppedParkIsRemoved | notifier/telegram_notifier.py:50-57 | when the new snapshot drops a park, all of that park's facts are removed and none is added or unchanged |
| Difference.NewParkIsAdded | notifier/telegram_notifier.py:50-57 | a park that only the new snapshot has contributes only added facts |
| Difference.NewSiteExample | notifier/telegram_notifier.py:50-57 | worked example: when a park gains a second site, exactly that site's range is added, nothing is removed and the first site's range is unchanged |
| StringOrder.SortedKeys | notifier/telegram_notifier.py:78 | the keys of a dict in strictly ascending code-point order, each exactly once and no other |
| Grouping.UnflattenParks | notifier/telegram_notifier.py:60-69 | the park keys of the grouping are exactly the parks that some fact mentions |
| Grouping.UnflattenSites | notifier/telegram_notifier.py:60-69 | a site is a key under a park iff some fact is about that site of that park; its list holds the ranges of exactly those facts, in iteration order |
| Grouping.UnflattenNonEmpty | notifier/telegram_notifier.py:64-67 | every site list in the grouping is non-empty |
| Grouping.UnflattenMembership | notifier/telegram_notifier.py:60-69 | a (start, end) pair is listed under park p and site s iff the fact (p, s, start, end) was iterated |
| Grouping.GatherPermutes | notifier/telegram_notifier.py:78-82 | listing facts key by key over distinct keys that cover them all is a permutation of the facts; the sorted walk over parks and sites relies on this |
| Escaping.EscapeLength | notifier/telegram_notifier.py:83-84 | escaping a date lengthens it by exactly the number of `-` characters |
| Escaping.EscapeGuardsHyphens | notifier/telegram_notifier.py:83-84 | in an escaped date every `-` is directly preceded by a backslash |
| Escaping.UnescapeEscape | notifier/telegram_notifier.py:83-84 | deleting the backslash inserted before each `-` recovers the original date |
| Escaping.EscapeWithoutHyphens | notifier/telegram_notifier.py:83-84 | a date without `-` is written unchanged |
| Render.Layout | notifier/telegram_notifier.py:78-82 | park blocks appear in strictly ascending park-id order, exactly one per park of the grouping, each under the park's display name; within a park, site blocks appear in strictly ascending site-id order, one per site, each carrying that site's ranges |
| Render.LayoutListsFacts | notifier/telegram_notifier.py:78-85 | read back, a section lists every fact it was given as exactly one date line under its park and site, and nothing else, so there are as many date lines as facts |
| Render.SectionText | notifier/telegram_notifier.py:78-87 | the written section is empty iff it has no park block |
| Render.SectionTextLines | notifier/telegram_notifier.py:78-85 | the section text is its park, site and date lines written one after another, and its date lines, each read under the park and site headers above it, are exactly the layout's facts in the layout's order |
| Render.SubmessageListsFacts | notifier/telegram_notifier.py:72-87 | the submessage is a sequence of park, site and date lines whose date lines, read under their headers, list every fact handed over exactly once and nothing else |
| Render.GenerateUpdateSubmessage | notifier/telegram_notifier.py:72-87 | needs a display name for every park of the facts; the submessage is empty iff there are no facts |
| Report.NameIndex | notifier/telegram_notifier.py:93-94 | the index covers every park id of both snapshots; the old snapshot's name wins on a conflict, otherwise the new snapshot's name is used |
| Report.PresentHeadings | notifier/telegram_notifier.py:102-115 | a heading is present iff its part of the partition is non-empty, and headings come in the fixed order newly added, still available, no longer available |
| Report.SectionFor | notifier/telegram_notifier.py:104-109 | a section lists exactly the facts it is given, parks and sites ascending, each park under its indexed name |
| Report.ReportSections | notifier/telegram_notifier.py:96-117 | no section iff nothing was added or removed; otherwise sections in the fixed order, one for each non-empty part |
| Report.ReportListsPartition | notifier/telegram_notifier.py:100-117 | each section lists exactly the facts of its part of the partition, each once, so its date lines number the size of that part |
| Report.ReportLayout | notifier/telegram_notifier.py:93-115 | in every section parks and sites ascend, and every park is shown under a name from the snapshots, the old one's when both have it, so the name lookup never fails |
| Report.EnumerationMultiset | notifier/telegram_notifier.py:63 | iterating a set yields each element once: the iteration order has the set's elements and size |
| Report.ReportHeadings | notifier/telegram_notifier.py:100-115 | a non-empty report has exactly the headings whose part of the partition is non-empty, in the fixed order |
| Report.MessageIsReportText | notifier/telegram_notifier.py:100-117 | the message, built by appending banner, submessage and a blank line for each present part, is exactly the report's section structure written out |
| Report.ReportText | notifier/telegram_notifier.py:100-117 | the written report is empty iff it has no section |
| Report.GenerateUpdateMessage | notifier/telegram_notifier.py:90-117 | the message is "" iff nothing was added and nothing removed, however many facts are unchanged |
| Report.UnchangedIsSilent | notifier/telegram_notifier.py:96-98 | a snapshot compared with itself yields the empty message |
| Driver.Commit | notifier/telegram_notifier.py:127-149 | the new snapshot becomes the baseline only after a non-empty message was sent without error; a send failure keeps the baseline and exits 1; an empty message sends nothing and exits 1; a parse failure sends the fixed error text and exits 1, baseline untouched; exit 0 only on a delivered change |
| Driver.Cycle | notifier/telegram_notifier.py:127-149 | one cycle commits the parsed snapshot iff something was added or removed and the send succeeded; when something changed it hands over exactly the update message, on a parse failure exactly the fixed error text, and nothing when nothing changed |
| Driver.DeliveredThenQuiet | notifier/telegram_notifier.py:133-149 | a change that is sent successfully is committed with exit 0; polling the same snapshot again afterwards sends nothing, keeps the baseline and exits 1 |
| Driver.FailedSendRetries | notifier/telegram_notifier.py:136-145 | a failed send keeps the baseline, so the next cycle on the same snapshot, whatever its iteration order, hands over one non-empty message again, commits it if that send returns, and reports the same change again: the same sections listing the same facts, date lines possibly reordered |
| Driver.ReportIndependentOfOrder | notifier/telegram_notifier.py:60-117 | two iteration orders of the same difference give reports with the same headings whose sections list the same facts; only the order of date lines may differ |

## Left out

- The Telegram call in `_send_message` (lines 17-29) is a foreign network call. The model reduces it to one success/failure input of `Driver.Commit`.
- Reading the credentials and state files, `json.load`/`json.loads`, and writing the state file (lines 121-128, 139-140) are file and JSON I/O. Parsing is the `Option<Snapshot>` input and the baseline is a value.
- `print` output and `sys.exit` are process plumbing. The exit status is a returned number.
- A `KeyError` from a snapshot missing `name` (lines 93-94), `available_sites`, `start` or `end` cannot arise with typed records.
- Input that `json.loads` accepts but that is not a snapshot (a non-empty list, a non-empty string, a number, `true`, `null`, a park without the expected keys) makes the source crash after line 131, inside `generate_update_message`, without sending the error text. The model has no such input: `None` of `Option<Snapshot>` stands only for a `json.loads` failure (lines 127-131), and `Some` always holds a well-formed snapshot. An empty list or empty string iterates no park at lines 35 and 93, so the source treats it exactly like `Some(map[])`, the snapshot with no parks, except that it writes that value back to the state file as given.
- A failure of `json.dump` after a successful send (also caught at line 142) is not modelled. The model assumes the write succeeds once the send returned.
- The exact order of date lines within a site (line 82) is that of Python's set iteration. It is an input here and no particular order is asserted.
- `flattened_sites` returns a list that may hold repeated facts. `Snapshots.FlattenedSites` states which facts the list holds, not how often each occurs. Only the set built from it feeds the differ.
- Grouping.UnflattenSites: the total number of grouped pairs is not stated over the map itself. `Render.LayoutListsFacts` states it: the layout carries every grouped list, and it has exactly one date line per iterated fact.
