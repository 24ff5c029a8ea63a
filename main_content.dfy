/**
 * The item collection of the TTS editor (`TTSMainContent`): an ordered list of
 * text entries, each with its own voice parameters and a selection flag.
 *
 * Every handler of the component replaces the whole list through `setItems`
 * with a `map`, a `filter` or an append of the previous list. Those updaters
 * are the pure functions below; the component itself is the class
 * `Editor`, whose methods assign the field `items`.
 */
module MainContent {
  import opened Seqs

  /**
   * One `TTSItem`. `speed` and `pitch` are JavaScript numbers with one
   * decimal (1.0 and 4.0 by default); they are kept in tenths. No arithmetic
   * is ever done on the three voice parameters.
   */
  datatype Item = Item(
    id: string,
    text: string,
    isSelected: bool,
    speed: int,
    volume: int,
    pitch: int)

  const DefaultSpeed: int := 10   // 1.0
  const DefaultVolume: int := 60
  const DefaultPitch: int := 40   // 4.0

  /** The literal record the component creates, on mount and on every add. */
  function DefaultItem(id: string): Item {
    Item(id, "", false, DefaultSpeed, DefaultVolume, DefaultPitch)
  }

  predicate IsSelected(item: Item) { item.isSelected }

  predicate IsUnselected(item: Item) { !item.isSelected }

  /** `items.every((item) => item.isSelected)`: vacuously true on the empty list. */
  predicate AllSelected(items: seq<Item>) {
    forall k :: 0 <= k < |items| ==> items[k].isSelected
  }

  predicate NoneSelected(items: seq<Item>) {
    forall k :: 0 <= k < |items| ==> !items[k].isSelected
  }

  /** `items.filter((item) => item.isSelected)`. */
  function SelectedItems(items: seq<Item>): seq<Item> {
    Filter(IsSelected, items)
  }

  /** The updater of `handleSelectAll` for a given target value. */
  function WithSelection(items: seq<Item>, value: bool): (r: seq<Item>)
    ensures |r| == |items|
    ensures forall k :: 0 <= k < |r| ==> r[k].isSelected == value
    ensures forall k :: 0 <= k < |r| ==> r[k].(isSelected := items[k].isSelected) == items[k]
  {
    seq(|items|, k requires 0 <= k < |items| => items[k].(isSelected := value))
  }

  /** `handleSelectAll`: every item takes the negation of the derived "all selected". */
  function SelectAllToggled(items: seq<Item>): (r: seq<Item>)
    ensures |r| == |items|
    ensures AllSelected(items) && |items| > 0 ==> NoneSelected(r)
    ensures !AllSelected(items) ==> AllSelected(r)
  {
    WithSelection(items, !AllSelected(items))
  }

  /** `handleSelectionChange(id)`: flips `isSelected` on every item carrying `id`. */
  function SelectionToggled(items: seq<Item>, id: string): (r: seq<Item>)
    ensures |r| == |items|
    ensures forall k :: 0 <= k < |r| ==> r[k].(isSelected := items[k].isSelected) == items[k]
    ensures forall k :: 0 <= k < |r| ==> (r[k].isSelected != items[k].isSelected <==> items[k].id == id)
  {
    seq(|items|, k requires 0 <= k < |items| =>
      if items[k].id == id then items[k].(isSelected := !items[k].isSelected) else items[k])
  }

  /** `handleTextChange(id, newText)`: replaces `text` on every item carrying `id`. */
  function TextChanged(items: seq<Item>, id: string, newText: string): (r: seq<Item>)
    ensures |r| == |items|
    ensures forall k :: 0 <= k < |r| ==> r[k].(text := items[k].text) == items[k]
    ensures forall k :: 0 <= k < |r| ==> r[k].text == if items[k].id == id then newText else items[k].text
  {
    seq(|items|, k requires 0 <= k < |items| =>
      if items[k].id == id then items[k].(text := newText) else items[k])
  }

  /** `handleDelete`: `prevItems.filter((item) => !item.isSelected)`. */
  function SelectedDeleted(items: seq<Item>): (r: seq<Item>)
    ensures NoneSelected(r)
  {
    Filter(IsUnselected, items)
  }

  /** The inline `onAdd`: the previous items spread, then one default item. */
  function DefaultAppended(items: seq<Item>, id: string): (r: seq<Item>)
    ensures |r| == |items| + 1
    ensures r[..|items|] == items
    ensures r[|items|] == DefaultItem(id)
  {
    items + [DefaultItem(id)]
  }

  /** A run of `handleSelectionChange` calls, one per id, in order. */
  function SelectionToggledAll(items: seq<Item>, ids: seq<string>): (r: seq<Item>)
    ensures |r| == |items|
    decreases |ids|
  {
    if |ids| == 0 then items
    else SelectionToggled(SelectionToggledAll(items, ids[..|ids| - 1]), ids[|ids| - 1])
  }

  predicate Odd(n: nat) { n % 2 == 1 }

  // ----- properties of the updaters -----

  /** The empty collection counts as all selected. */
  lemma EmptyIsAllSelected()
    ensures AllSelected([])
    ensures SelectAllToggled([]) == []
  {
  }

  /** Toggling an id that no item carries changes nothing. */
  lemma SelectionToggledAbsent(items: seq<Item>, id: string)
    requires forall k :: 0 <= k < |items| ==> items[k].id != id
    ensures SelectionToggled(items, id) == items
  {
  }

  /** Toggling one id twice restores the list. */
  lemma SelectionToggledTwice(items: seq<Item>, id: string)
    ensures SelectionToggled(SelectionToggled(items, id), id) == items
  {
  }

  /** Setting text for an absent id changes nothing. */
  lemma TextChangedAbsent(items: seq<Item>, id: string, newText: string)
    requires forall k :: 0 <= k < |items| ==> items[k].id != id
    ensures TextChanged(items, id, newText) == items
  {
  }

  /**
   * Any run of selection toggles: an item ends up flipped exactly when its id
   * was toggled an odd number of times, and nothing but `isSelected` changes.
   */
  lemma {:induction false} SelectionToggledAllParity(items: seq<Item>, ids: seq<string>)
    ensures forall k :: 0 <= k < |items| ==>
      SelectionToggledAll(items, ids)[k]
        == items[k].(isSelected := items[k].isSelected != Odd(multiset(ids)[items[k].id]))
    decreases |ids|
  {
    if |ids| > 0 {
      var ids' := ids[..|ids| - 1];
      var last := ids[|ids| - 1];
      assert ids == ids' + [last];
      assert forall x :: multiset(ids)[x] == multiset(ids')[x] + (if x == last then 1 else 0);
      SelectionToggledAllParity(items, ids');
    }
  }

  /** From a list with nothing selected, the selected items are those toggled an odd number of times. */
  lemma SelectionFromNoneIsOddToggles(items: seq<Item>, ids: seq<string>)
    requires NoneSelected(items)
    ensures forall k :: 0 <= k < |items| ==>
      (SelectionToggledAll(items, ids)[k].isSelected <==> Odd(multiset(ids)[items[k].id]))
  {
    SelectionToggledAllParity(items, ids);
  }

  /**
   * Toggle-all twice restores an all-selected or none-selected list; a mixed
   * list ends with every item deselected.
   */
  lemma SelectAllToggledTwice(items: seq<Item>)
    ensures AllSelected(items) || NoneSelected(items) ==>
      SelectAllToggled(SelectAllToggled(items)) == items
    ensures !AllSelected(items) && !NoneSelected(items) ==>
      SelectAllToggled(SelectAllToggled(items)) == WithSelection(items, false)
  {
    var once := SelectAllToggled(items);
    if |items| == 0 {
    } else if AllSelected(items) {
      assert !AllSelected(once) by { assert !once[0].isSelected; }
      var twice := SelectAllToggled(once);
      assert forall k :: 0 <= k < |items| ==> twice[k] == items[k];
    } else {
      assert AllSelected(once);
      var twice := SelectAllToggled(once);
      if NoneSelected(items) {
        assert forall k :: 0 <= k < |items| ==> twice[k] == items[k];
      }
    }
  }

  /** Deleting keeps the unselected items, in their order, and only them. */
  lemma SelectedDeletedKeepsUnselected(items: seq<Item>)
    ensures Subseq(SelectedDeleted(items), items)
    ensures forall x :: x in SelectedDeleted(items) <==> x in items && !x.isSelected
    ensures multiset(SelectedDeleted(items)) + multiset(SelectedItems(items)) == multiset(items)
    ensures |SelectedDeleted(items)| == |items| - |SelectedItems(items)|
  {
    FilterIsSubseq(IsUnselected, items);
    forall x { FilterMembers(IsUnselected, items, x); }
    FilterSplit(IsSelected, IsUnselected, items);
  }

  /** Deleting with nothing selected changes nothing. */
  lemma SelectedDeletedNoSelection(items: seq<Item>)
    requires NoneSelected(items)
    ensures SelectedDeleted(items) == items
  {
    FilterKeepsAll(IsUnselected, items);
  }

  /** Deleting an all-selected list empties it, and the empty list reads as all selected. */
  lemma SelectedDeletedAll(items: seq<Item>)
    requires AllSelected(items)
    ensures SelectedDeleted(items) == []
    ensures AllSelected(SelectedDeleted(items))
  {
    FilterDropsAll(IsUnselected, items);
  }

  /** An added item is unselected: the selection is unchanged and the list is no longer all selected. */
  lemma DefaultAppendedSelection(items: seq<Item>, id: string)
    ensures SelectedItems(DefaultAppended(items, id)) == SelectedItems(items)
    ensures !AllSelected(DefaultAppended(items, id))
  {
    FilterSnoc(IsSelected, items, DefaultItem(id));
    assert !DefaultAppended(items, id)[|items|].isSelected;
  }

  /**
   * Two items created in the same millisecond share an id: selecting one
   * selects both, and a delete then removes both.
   */
  lemma SameIdSharesSelection(first: string)
    ensures SelectedDeleted(SelectionToggled(DefaultAppended([DefaultItem(first)], first), first)) == []
  {
    var toggled := SelectionToggled(DefaultAppended([DefaultItem(first)], first), first);
    assert toggled == [DefaultItem(first).(isSelected := true), DefaultItem(first).(isSelected := true)];
    FilterDropsAll(IsUnselected, toggled);
  }

  /** The start-add-select-delete walk-through: the original default item is left, unselected. */
  lemma AddSelectDeleteScenario(first: string, second: string)
    requires first != second
    ensures SelectedDeleted(SelectionToggled(DefaultAppended([DefaultItem(first)], second), second))
      == [DefaultItem(first)]
    ensures !AllSelected([DefaultItem(first)])
  {
    var toggled := SelectionToggled(DefaultAppended([DefaultItem(first)], second), second);
    assert toggled == [DefaultItem(first), DefaultItem(second).(isSelected := true)];
    assert toggled == [DefaultItem(first)] + [DefaultItem(second).(isSelected := true)];
    FilterSnoc(IsUnselected, [DefaultItem(first)], DefaultItem(second).(isSelected := true));
    FilterKeepsAll(IsUnselected, [DefaultItem(first)]);
  }

  /**
   * The component's state. `items` is what `useState` holds; the three logs
   * stand for the `console.log` sinks the component hands to the table for
   * regenerate, download and play.
   */
  class Editor {
    var items: seq<Item>
    var regenerateLog: seq<string>
    var downloadLog: seq<string>
    var playLog: seq<string>

    /** The state once the mount effect has run: exactly one default item. */
    constructor (id: string)
      ensures items == [DefaultItem(id)]
      ensures |items| == 1 && items[0].text == "" && !items[0].isSelected
      ensures items[0].speed == 10 && items[0].volume == 60 && items[0].pitch == 40
      ensures regenerateLog == [] && downloadLog == [] && playLog == []
    {
      items := [DefaultItem(id)];
      regenerateLog, downloadLog, playLog := [], [], [];
    }

    /** `isAllSelected`, derived from `items` on every render, never stored. */
    predicate IsAllSelected()
      reads this
    {
      AllSelected(items)
    }

    method HandleSelectAll()
      modifies this`items
      ensures items == SelectAllToggled(old(items))
      ensures forall k :: 0 <= k < |items| ==> items[k].isSelected == !old(IsAllSelected())
    {
      items := SelectAllToggled(items);
    }

    method HandleSelectionChange(id: string)
      modifies this`items
      ensures items == SelectionToggled(old(items), id)
    {
      items := SelectionToggled(items, id);
    }

    method HandleTextChange(id: string, newText: string)
      modifies this`items
      ensures items == TextChanged(old(items), id, newText)
    {
      items := TextChanged(items, id, newText);
    }

    method HandleDelete()
      modifies this`items
      ensures items == SelectedDeleted(old(items))
      ensures NoneSelected(items)
      ensures |items| == |old(items)| - |SelectedItems(old(items))|
    {
      SelectedDeletedKeepsUnselected(items);
      items := SelectedDeleted(items);
    }

    /** `onAdd`; the new id, `String(Date.now())` in the component, is supplied by the caller. */
    method HandleAdd(id: string)
      modifies this`items
      ensures items == old(items) + [DefaultItem(id)]
      ensures !IsAllSelected()
    {
      DefaultAppendedSelection(items, id);
      items := DefaultAppended(items, id);
    }

    /** `handleRegenerateItem`: one log entry per call. */
    method HandleRegenerateItem(id: string)
      modifies this`regenerateLog
      ensures regenerateLog == old(regenerateLog) + [id]
    {
      regenerateLog := regenerateLog + [id];
    }

    /** `handleDownloadItem`: one log entry per call. */
    method HandleDownloadItem(id: string)
      modifies this`downloadLog
      ensures downloadLog == old(downloadLog) + [id]
    {
      downloadLog := downloadLog + [id];
    }

    /** The inline `onPlay`: one log entry per call. */
    method HandlePlay(id: string)
      modifies this`playLog
      ensures playLog == old(playLog) + [id]
    {
      playLog := playLog + [id];
    }
  }
}
