# TTS editor and job monitor: a verified model

This project models the logic inside three React components of a
text-to-speech front end:

- **The item collection of the editor** (`TTSMainContent`). This is an
  ordered list of text entries. Each entry has an id, a text, a selection flag
  and three voice parameters. The component supports five operations: add a
  default entry, toggle one entry's selection, toggle all, set an entry's
  text, and delete the selected entries. "All selected" is derived from the
  list, so it holds on the empty list.
- **The item table** (`TTSTable`). It shows the selected count and the header
  checkbox rule. An effect re-normalises an empty list. A regenerate or
  download request becomes one callback per target id, and each grid card
  binds these actions to its own id.
- **The job monitor dropdown** (`TTSdropdown`). It does four things:
  - sorts each job into one of five recency buckets by whole days elapsed;
  - groups the jobs by bucket, in a fixed order, dropping empty buckets;
  - counts the jobs per status;
  - keeps a multi-select status filter that refuses to drop its last member,
    and filters each group by that filter when rendering.

The files are:

- `seqs.dfy` (module `Seqs`) holds the shared vocabulary:
  - `Filter` and `Map`, which model `Array.prototype.filter` and `map`;
  - an `Option` type for optional arguments;
  - `Subseq`, an order-preserving sub-sequence relation;
  - their lemmas.
- `main_content.dfy` (module `MainContent`) has each `setItems` updater as a
  pure function on `seq<Item>`. The class `Editor` holds the `items` field,
  and each handler method reassigns it by one updater. Three logs stand for
  the `console.log` sinks of regenerate, download and play.
- `table.dfy` (module `Table`) has the target resolution `Targets`, the
  selected count and the header rule. The class `ItemTable` holds the
  `isListView` flag and refers to the editor. `HandleRegenerate` and
  `HandleDownload` are loops that append one id per callback to the editor's
  log. Each is proved to append exactly `Targets(items, itemId)`.
- `dropdown.dfy` (module `Dropdown`) covers the bucketing function and the
  grouping. `GroupByBucket` and `CategorizeFiles` are loops over a map and
  over `CategoryOrder`, the two `reduce`s of the source. They are proved equal
  to the pure `Categorized`. `ComputeStats` is a loop over a map, proved to
  give `CountStatus`. The file also has the `toggleStatus` updater, the render
  filter `VisibleGroups`, and the class `StatusDropdown` holding `isOpen` and
  `selectedStatuses`.

How the source's values are represented:

- **The clock.** It is a parameter `now`.
- **Timestamps.** `createdAt` is an integer millisecond timestamp. Dafny's
  `/` by a positive constant rounds toward negative infinity, the same as
  `Math.floor`, so a job created after `now` gets a negative day count and
  lands in "within a week", as in the source.
- **Item ids.** They are strings supplied by the caller. They are not
  assumed unique: two adds in the same millisecond share an id, and
  `SameIdSharesSelection` shows the consequence.
- **Truthiness.** The optional `itemId` of regenerate and download is
  tested as in JavaScript: a missing id and the empty string `''` both fall
  back to the selection.

## Model

| member | source | states |
|---|---|---|
| MainContent.Editor.constructor | src/components/tts/TTSMainContent.tsx:19-30 | after the mount effect the list is exactly one item with empty text, unselected, speed 1.0, volume 60, pitch 4.0 (kept in tenths), and the output logs are empty |
| MainContent.DefaultItem | src/components/tts/TTSMainContent.tsx:20-28 | the default record: the given id, empty text, unselected, speed 1.0, volume 60, pitch 4.0 (kept in tenths); the same literal is built at 82-89; its shape is stated by the constructor and `DefaultAppended` |
| MainContent.AllSelected | src/components/tts/TTSMainContent.tsx:32 | `every` over the items: each item is selected; vacuously true on the empty list (see `EmptyIsAllSelected`) |
| MainContent.Editor.IsAllSelected | src/components/tts/TTSMainContent.tsx:32 | the derived flag, computed from the current items and never stored |
| MainContent.EmptyIsAllSelected | src/components/tts/TTSMainContent.tsx:32 | the derived "all selected" holds on the empty list, and toggle-all leaves the empty list empty |
| MainContent.WithSelection | src/components/tts/TTSMainContent.tsx:35 | same length, every item's flag equals the given value, and every other field of every item is unchanged |
| MainContent.SelectAllToggled | src/components/tts/TTSMainContent.tsx:32-36 | same length; an all-selected non-empty list ends with nothing selected; any other list ends all selected |
| MainContent.Editor.HandleSelectAll | src/components/tts/TTSMainContent.tsx:34-36 | the new list is the toggle-all updater of the old one, and every item's flag is the negation of the old "all selected" |
| MainContent.SelectAllToggledTwice | src/components/tts/TTSMainContent.tsx:32-36 | toggle-all twice restores an all-selected or none-selected list; a mixed list ends with every item deselected |
| MainContent.SelectionToggled | src/components/tts/TTSMainContent.tsx:38-42 | same length; a flag changes exactly on the items whose id equals the argument; no other field changes |
| MainContent.Editor.HandleSelectionChange | src/components/tts/TTSMainContent.tsx:38-42 | the new list is the selection-toggle updater of the old one |
| MainContent.SelectionToggledAbsent | src/components/tts/TTSMainContent.tsx:38-42 | toggling an id that no item carries leaves the list unchanged |
| MainContent.SelectionToggledTwice | src/components/tts/TTSMainContent.tsx:38-42 | toggling the same id twice restores the list |
| MainContent.SelectionToggledAll | src/components/tts/TTSMainContent.tsx:38-42 | a run of toggles keeps the length |
| MainContent.SelectionToggledAllParity | src/components/tts/TTSMainContent.tsx:38-42 | after any run of toggles, an item is flipped exactly when its id occurs an odd number of times in the run, and nothing else about it changes |
| MainContent.SelectionFromNoneIsOddToggles | src/components/tts/TTSMainContent.tsx:38-42 | from a list with nothing selected, an item is selected after a run of toggles exactly when its id was toggled an odd number of times |
| MainContent.TextChanged | src/components/tts/TTSMainContent.tsx:44-46 | same length; every item with a matching id gets the new text, the others keep theirs; no other field changes |
| MainContent.Editor.HandleTextChange | src/components/tts/TTSMainContent.tsx:44-46 | the new list is the set-text updater of the old one |
| MainContent.TextChangedAbsent | src/components/tts/TTSMainContent.tsx:44-46 | setting text for an id that no item carries leaves the list unchanged |
| MainContent.SelectedDeleted | src/components/tts/TTSMainContent.tsx:48-50 | no item of the result is selected |
| MainContent.SelectedDeletedKeepsUnselected | src/components/tts/TTSMainContent.tsx:48-50 | delete keeps the unselected items in their original relative order and only them; with the selected items it makes up the whole old list; the new length is the old length minus the selected count |
| MainContent.SelectedDeletedNoSelection | src/components/tts/TTSMainContent.tsx:48-50 | delete with nothing selected leaves the list unchanged |
| MainContent.SelectedDeletedAll | src/components/tts/TTSMainContent.tsx:48-50 | delete on an all-selected list empties it, and the empty list reads as all selected |
| MainContent.Editor.HandleDelete | src/components/tts/TTSMainContent.tsx:48-50 | the new list is the delete updater of the old one, has nothing selected, and is shorter by the selected count |
| MainContent.DefaultAppended | src/components/tts/TTSMainContent.tsx:79-91 | the result is one longer, starts with the old list unchanged, and ends with the default item |
| MainContent.DefaultAppendedSelection | src/components/tts/TTSMainContent.tsx:79-91 | adding leaves the selection unchanged and makes the list not all selected |
| MainContent.Editor.HandleAdd | src/components/tts/TTSMainContent.tsx:79-91 | the new list is the old one followed by one default item with the given id, and it no longer reads as all selected |
| MainContent.SameIdSharesSelection | src/components/tts/TTSMainContent.tsx:79-91 | two items added with the same id are selected together by one toggle, and a delete then removes both |
| MainContent.AddSelectDeleteScenario | src/components/tts/TTSMainContent.tsx:38-50 | the sequence start, add, select the new item, delete leaves only the original default item, unselected |
| MainContent.Editor.HandleRegenerateItem | src/components/tts/TTSMainContent.tsx:52-54 | each call appends its id to the regenerate log |
| MainContent.Editor.HandleDownloadItem | src/components/tts/TTSMainContent.tsx:56-58 | each call appends its id to the download log |
| MainContent.Editor.HandlePlay | src/components/tts/TTSMainContent.tsx:94 | each call appends its id to the play log |
| Table.SelectedCount | src/components/tts/TTSTable.tsx:118 | the selected count is at most the length; it equals the length exactly when all items are selected, and is 0 exactly when none is |
| Table.HeaderChecked | src/components/tts/TTSTable.tsx:66 | the checkbox rule `itemCount > 0 && isAllSelected`; its meaning over a list is stated by `HeaderCheckedMeaning` |
| Table.HeaderCheckedMeaning | src/components/tts/TTSTable.tsx:66 | the header checkbox is checked exactly when there are items and the selected count equals their number; it is unchecked on the empty list |
| Table.ItemTable.EmptyListEffect | src/components/tts/TTSTable.tsx:121-125 | the effect fires exactly when the list is empty, and the list is left as it was whether or not it fires |
| Table.TargetsExplicit | src/components/tts/TTSTable.tsx:130-131 | a non-empty explicit id is the one and only target, whatever the selection |
| Table.Truthy | src/components/tts/TTSTable.tsx:130 | JavaScript truthiness of the optional id: present and not the empty string |
| Table.Targets | src/components/tts/TTSTable.tsx:127-149 | the shared resolution rule: a truthy id is the only target; otherwise there is one target per selected item |
| Table.TargetsInListOrder | src/components/tts/TTSTable.tsx:129-134 | without a truthy id the targets are the selected items' ids in collection order, equal to a reference that reads the list from the front, so the order holds even when ids repeat |
| Table.RepeatedIdsScenario | src/components/tts/TTSTable.tsx:129-134 | on `[x, y, x, y]` with the first `x` and the second `y` selected, the targets are `x` then `y` |
| Table.TargetsFromSelection | src/components/tts/TTSTable.tsx:129-134 | with no truthy id there is one target per selected item, each an id carried by a selected item and every such id present, none when nothing is selected; the exact order is stated by `Table.TargetsInListOrder` |
| Table.TargetsEmptyIdFallsBack | src/components/tts/TTSTable.tsx:130 | the empty id is falsy and resolves like a missing id |
| Table.TargetsScenario | src/components/tts/TTSTable.tsx:129-134 | selecting the first and third of three items gives their two ids, in order |
| Table.ItemTable.HandleRegenerate | src/components/tts/TTSTable.tsx:127-137 | the loop of callbacks appends exactly the resolved targets, in order, to the regenerate log |
| Table.ItemTable.HandleDownload | src/components/tts/TTSTable.tsx:139-149 | the loop of callbacks appends exactly the resolved targets, in order, to the download log |
| Table.ItemTable.GridRegenerate | src/components/tts/TTSTable.tsx:178 | a grid card's regenerate resolves its own id, so a card with a non-empty id emits exactly that id |
| Table.ItemTable.GridDownload | src/components/tts/TTSTable.tsx:179 | a grid card's download resolves its own id, so a card with a non-empty id emits exactly that id |
| Table.ItemTable.RowPlay | src/components/tts/TTSTable.tsx:157 | a row's or card's play emits its own id |
| Table.ItemTable.constructor | src/components/tts/TTSTable.tsx:119 | the table starts in list view and refers to the given editor |
| Table.ItemTable.SetListView | src/components/tts/TTSTable.tsx:119 | switching the view sets the flag and never changes the items |
| Dropdown.StatusLabelInjective | src/components/tts/TTSdropdown.tsx:9 | distinct statuses have distinct labels, so keying by the four strings and keying by the status type are the same |
| Dropdown.CategoryLabelInjective | src/components/tts/TTSdropdown.tsx:25-37 | distinct buckets have distinct headings, and the category order spells out the component's `categoryOrder` of line 59 |
| Dropdown.DiffDays | src/components/tts/TTSdropdown.tsx:22-23 | the whole days elapsed, rounded toward negative infinity (see `DiffDaysIsFloor`) |
| Dropdown.FormatDateCategory | src/components/tts/TTSdropdown.tsx:20-38 | the if-chain on the day count (0, 1, 2, at most 7, otherwise); its meaning as time ranges is stated by `FormatDateCategoryRanges` |
| Dropdown.DiffDaysIsFloor | src/components/tts/TTSdropdown.tsx:22-23 | the day count is the floor of the elapsed milliseconds divided by one day, also for negative elapsed times |
| Dropdown.FormatDateCategoryRanges | src/components/tts/TTSdropdown.tsx:20-38 | each bucket is exactly a range of elapsed time: under one day is today; one and two days are yesterday and the day before; three to under eight days, and every future timestamp, are within a week; the rest is a month ago |
| Dropdown.BucketBoundaries | src/components/tts/TTSdropdown.tsx:25-37 | exactly two days ago is the day before yesterday; seven days ago is within a week, eight is a month ago; one millisecond in the future is within a week |
| Dropdown.GroupedPush | src/components/tts/TTSdropdown.tsx:45-57 | pushing a job onto its bucket's list, creating the list if missing, keeps the accumulator equal to the buckets of the jobs seen so far |
| Dropdown.GroupByBucket | src/components/tts/TTSdropdown.tsx:45-57 | the first reduce maps exactly the non-empty buckets, each to its jobs in input order |
| Dropdown.CategorizeFiles | src/components/tts/TTSdropdown.tsx:44-70 | the two reduces compute the pure grouping: the non-empty buckets in category order |
| Dropdown.GroupsIn | src/components/tts/TTSdropdown.tsx:59-69 | for each category of an order, its group when its bucket is non-empty; its properties are the `GroupsIn…` lemmas below |
| Dropdown.Categorized | src/components/tts/TTSdropdown.tsx:44-70 | the grouping in the component's category order; it is what `CategorizeFiles` computes |
| Dropdown.BucketKeepsOrder | src/components/tts/TTSdropdown.tsx:53 | within a bucket, jobs keep their relative input order |
| Dropdown.GroupsInHoldBuckets | src/components/tts/TTSdropdown.tsx:59-69 | every listed group is non-empty and holds exactly its bucket |
| Dropdown.GroupsInOrder | src/components/tts/TTSdropdown.tsx:59-69 | the listed categories appear in the order of the category order |
| Dropdown.GroupsInListsEveryBucket | src/components/tts/TTSdropdown.tsx:59-69 | a category is listed exactly when it is in the order and some job falls in it |
| Dropdown.GroupOfFile | src/components/tts/TTSdropdown.tsx:45-57 | a job found in a listed group belongs to that group's category |
| Dropdown.CategorizedHasFile | src/components/tts/TTSdropdown.tsx:44-70 | every job is listed in the group of its own category |
| Dropdown.CategorizedFileOnce | src/components/tts/TTSdropdown.tsx:44-70 | no job is listed in two groups |
| Dropdown.CategorizedPlacesEachFileOnce | src/components/tts/TTSdropdown.tsx:44-70 | every job lands in exactly one group, the one of its category |
| Dropdown.CategoryOrderComplete | src/components/tts/TTSdropdown.tsx:59 | every category has a place in the category order |
| Dropdown.PooledSnoc | src/components/tts/TTSdropdown.tsx:45-57 | one more job joins the pooled buckets of a duplicate-free category list once when its category is listed, and not otherwise |
| Dropdown.PooledEmpty | src/components/tts/TTSdropdown.tsx:45-57 | with no jobs, the pooled buckets are empty |
| Dropdown.BucketsPartition | src/components/tts/TTSdropdown.tsx:45-57 | the five buckets together hold every job exactly as often as the input does |
| Dropdown.FlattenPooled | src/components/tts/TTSdropdown.tsx:59-69 | concatenating the groups of a category list pools their buckets |
| Dropdown.FlattenNonEmpty | src/components/tts/TTSdropdown.tsx:63 | dropping the empty groups does not change the concatenation |
| Dropdown.CategorizedIsPermutation | src/components/tts/TTSdropdown.tsx:44-70 | concatenating the groups in order gives a permutation of the input jobs |
| Dropdown.GroupsInOneCategory | src/components/tts/TTSdropdown.tsx:44-70 | jobs that all fall in one category form a single group, listed when that category is in the order |
| Dropdown.CategorizedSingle | src/components/tts/TTSdropdown.tsx:44-70 | a single job makes a single group, under its own category |
| Dropdown.ComputeStats | src/components/tts/TTSdropdown.tsx:72-80 | the counting loop produces a map holding exactly the statuses some job has, and reading a status with a 0 default gives the number of jobs with that status |
| Dropdown.CountStatus | src/components/tts/TTSdropdown.tsx:72-80 | the number of jobs with a status, over the whole, unfiltered list |
| Dropdown.StatOrZero | src/components/tts/TTSdropdown.tsx:104 | a badge's count with a fallback of 0: a status no job holds reads as 0 |
| Dropdown.CountStatusSnoc | src/components/tts/TTSdropdown.tsx:75 | one more job adds one to its own status count and nothing to the others |
| Dropdown.StatusCountsSum | src/components/tts/TTSdropdown.tsx:72-80 | the four status counts add up to the number of jobs |
| Dropdown.CountFive | src/components/tts/TTSdropdown.tsx:72-80 | the count of a status over five jobs is the number of them holding it |
| Dropdown.StatsScenario | src/components/tts/TTSdropdown.tsx:104-131 | jobs in progress, queued, failed, completed and completed give the badge counts 1, 1, 1 and 2 |
| Dropdown.StatusToggled | src/components/tts/TTSdropdown.tsx:82-92 | toggling the sole remaining status changes nothing; toggling another present status removes it and keeps every other status; toggling an absent status appends it |
| Dropdown.StatusRemovedInPlace | src/components/tts/TTSdropdown.tsx:88 | in a duplicate-free filter, removing a status takes out just its entry and keeps the others in order |
| Dropdown.StatusToggledFirst | src/components/tts/TTSdropdown.tsx:84-88 | clicking the first status of a duplicate-free filter of two or more drops just that one |
| Dropdown.StatusToggledKeepsFilterValid | src/components/tts/TTSdropdown.tsx:82-92 | a toggle keeps a non-empty, duplicate-free filter non-empty and duplicate-free |
| Dropdown.StatusToggledAll | src/components/tts/TTSdropdown.tsx:82-92 | a run of filter clicks, applied in order; `FilterNeverEmpty` states that it keeps the filter non-empty |
| Dropdown.FilterNeverEmpty | src/components/tts/TTSdropdown.tsx:42 | from the initial four-status filter, no run of toggles makes the filter empty or lists a status twice |
| Dropdown.RemoveAllButLastScenario | src/components/tts/TTSdropdown.tsx:82-92 | removing 진행, 대기 and 실패 in turn leaves only 완료, and a click on it is refused |
| Dropdown.StatusDropdown.constructor | src/components/tts/TTSdropdown.tsx:41-42 | the panel starts closed and the filter starts as all four statuses |
| Dropdown.StatusDropdown.ToggleStatus | src/components/tts/TTSdropdown.tsx:82-92 | a filter button applies the toggle updater and keeps the filter non-empty and duplicate-free |
| Dropdown.StatusDropdown.TogglePanel | src/components/tts/TTSdropdown.tsx:137 | the chevron flips the panel flag |
| Dropdown.VisibleGroups | src/components/tts/TTSdropdown.tsx:167-174 | every shown group is non-empty, and every shown job has a status in the filter |
| Dropdown.Restrict | src/components/tts/TTSdropdown.tsx:168-170 | a group's jobs narrowed to those whose status is in the filter, under the same heading |
| Dropdown.VisibleGroupsKeepOrder | src/components/tts/TTSdropdown.tsx:167-174 | the shown groups keep the order of the grouped output |
| Dropdown.VisibleGroupsIsGroupingOfFiltered | src/components/tts/TTSdropdown.tsx:167-174 | filtering the groups at render time equals grouping only the jobs whose status is in the filter |
| Dropdown.StatusDropdown.Shown | src/components/tts/TTSdropdown.tsx:167-174 | what is rendered is the grouping of the jobs whose status is selected |
| Dropdown.OnlyCompletedKept | src/components/tts/TTSdropdown.tsx:168-170 | a completed-only filter keeps only the completed job of three |
| Dropdown.CompletedFilterScenario | src/components/tts/TTSdropdown.tsx:167-174 | with a completed-only filter, three jobs with today's completed job among them show only that job, under today |
| Seqs.Filter | src/components/tts/TTSdropdown.tsx:168 | a filter is no longer than its input and keeps only elements satisfying the predicate |
| Seqs.FilterMembers | src/components/tts/TTSMainContent.tsx:49 | an element survives a filter exactly when it is in the input and satisfies the predicate |
| Seqs.FilterIsSubseq | src/components/tts/TTSMainContent.tsx:49 | a filter keeps the relative order of what it keeps |
| Seqs.FilterSplit | src/components/tts/TTSMainContent.tsx:49 | a predicate and its complement split a sequence by multiset and by length |
| Seqs.FilterCommute | src/components/tts/TTSdropdown.tsx:168-170 | two filters commute |

## Left out

- All JSX, class names, icons, colours and layout. `src/pages/TTSPage.tsx` is only layout and is not part of this model.
- `src/components/tts/TTSTableList.tsx` and `src/components/tts/TTSTableGrid.tsx` only forward props to rows and cards. Their text-area auto-resize changes DOM style. Neither is part of this model. Only the id bindings made in `TTSTable` are modelled.
- `src/components/workspace/HistoryTable.tsx` renders the first five items and logs to the console. It has no state contract and is not part of this model.
- `console.log` for regenerate, download and play is modelled as appending to the editor's three logs.
- `new Date()` and `new Date(file.createdAt)` are not modelled. The clock is the parameter `now`, and `createdAt` is an integer millisecond timestamp. An unparsable date string, which gives NaN in JavaScript and a month-ago bucket, is therefore not modelled.
- The elapsed time divided by one day is computed exactly. JavaScript's floating-point division agrees with it for realistic timestamps.
- `String(Date.now())` ids are not generated. Ids are caller-supplied strings and may collide.
- React scheduling is not modelled: `useMemo`, `useCallback`, effect re-runs, batching and stale closures. Each handler is taken to see the current list.
- `MainContent.Editor.constructor` gives the state after the mount effect. The first render, before the effect runs, has an empty list and is not modelled.
- `Table.ItemTable.EmptyListEffect` models one run of the effect. Repeated runs, which can follow because `onSelectAll` is a fresh function on every render, are scheduling and are not modelled.
- The voice parameters 1.0 and 4.0 are JavaScript numbers. They are kept as integers in tenths (10 and 40), since no arithmetic is done on them.
- The rendering of a job in progress is left out. The source shows a spinner icon and the text `{file.progress}%` (`src/components/tts/TTSdropdown.tsx:203-208`). `progress` is kept as an optional integer in `TtsFile`, but no function of the model reads it.
- The delete-completed and retry-failed buttons of the dropdown are rendered without handlers and are left out.
- The render returns `null` for a group left empty by the filter. This is modelled as the group being dropped from the shown list.
- `Dropdown.StatusDropdown.ToggleStatus` requires its filter invariant (non-empty, duplicate-free) as a precondition. The constructor establishes it, and `FilterNeverEmpty` shows that every run of clicks from the initial filter keeps it.
