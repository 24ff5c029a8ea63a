/**
 * The item table (`TTSTable`): the selected-count readout, the header
 * checkbox, the effect that re-normalises an empty list, the view-mode flag,
 * and the resolution of a regenerate or download request into one callback per
 * target id.
 *
 * The table owns no items: it reads the editor's list (its `items` prop) and
 * calls back into the editor (`onSelectAll`, `onRegenerateItem`,
 * `onDownloadItem`, `onPlay`).
 */
module Table {
  import opened Seqs
  import opened MainContent

  function IdOf(item: Item): string { item.id }

  /** The ids of the list, in list order. */
  function Ids(items: seq<Item>): seq<string> {
    Map(IdOf, items)
  }

  /** `items.filter((item) => item.isSelected).length`, shown in the footer. */
  function SelectedCount(items: seq<Item>): (n: nat)
    ensures n <= |items|
    ensures n == |items| <==> AllSelected(items)
    ensures n == 0 <==> NoneSelected(items)
  {
    SelectedCountBounds(items);
    |SelectedItems(items)|
  }

  lemma SelectedCountBounds(items: seq<Item>)
    ensures |SelectedItems(items)| == |items| <==> AllSelected(items)
    ensures |SelectedItems(items)| == 0 <==> NoneSelected(items)
  {
    FilterSplit(IsSelected, IsUnselected, items);
    if AllSelected(items) {
      FilterKeepsAll(IsSelected, items);
    }
    if NoneSelected(items) {
      FilterDropsAll(IsSelected, items);
    }
    if !AllSelected(items) {
      var k :| 0 <= k < |items| && !items[k].isSelected;
      FilterMembers(IsUnselected, items, items[k]);
    }
    if !NoneSelected(items) {
      var k :| 0 <= k < |items| && items[k].isSelected;
      FilterMembers(IsSelected, items, items[k]);
    }
  }

  /** The header checkbox's `checked={itemCount > 0 && isAllSelected}`. */
  predicate HeaderChecked(itemCount: int, isAllSelected: bool) {
    itemCount > 0 && isAllSelected
  }

  /** The header checkbox is ticked exactly when there are items and every one is selected. */
  lemma HeaderCheckedMeaning(items: seq<Item>)
    ensures HeaderChecked(|items|, AllSelected(items)) <==>
      |items| > 0 && SelectedCount(items) == |items|
    ensures items == [] ==> !HeaderChecked(|items|, AllSelected(items))
  {
  }

  /** JavaScript truthiness of the optional `itemId`: absent and `''` are both falsy. */
  predicate Truthy(itemId: Option<string>) {
    itemId.Some? && itemId.value != ""
  }

  /** The ids of the selected items, in list order. */
  function SelectedIds(items: seq<Item>): seq<string> {
    Map(IdOf, SelectedItems(items))
  }

  /**
   * The resolution rule shared by `handleRegenerate` and `handleDownload`:
   * a truthy explicit id is the only target; otherwise every selected item's
   * id, in list order, and nothing when the selection is empty.
   */
  function Targets(items: seq<Item>, itemId: Option<string>): (r: seq<string>)
    ensures Truthy(itemId) ==> r == [itemId.value]
    ensures !Truthy(itemId) ==> |r| == |SelectedItems(items)|
  {
    if Truthy(itemId) then [itemId.value]
    else if |SelectedItems(items)| > 0 then SelectedIds(items)
    else []
  }

  /** An explicit truthy id is the one and only target, whatever the selection. */
  lemma TargetsExplicit(items: seq<Item>, id: string)
    requires id != ""
    ensures Targets(items, Some(id)) == [id]
  {
  }

  /**
   * Without a truthy id: one target per selected item, in list order, naming
   * exactly the ids that some selected item carries; none when nothing is selected.
   */
  lemma TargetsFromSelection(items: seq<Item>, itemId: Option<string>)
    requires !Truthy(itemId)
    ensures |Targets(items, itemId)| == SelectedCount(items)
    ensures Subseq(Targets(items, itemId), Ids(items))
    ensures forall x :: x in Targets(items, itemId) <==>
      exists k :: 0 <= k < |items| && items[k].isSelected && items[k].id == x
    ensures NoneSelected(items) ==> Targets(items, itemId) == []
  {
    var sel := SelectedItems(items);
    assert Targets(items, itemId) == Map(IdOf, sel);
    FilterIsSubseq(IsSelected, items);
    MapSubseq(IdOf, sel, items);
    forall x
      ensures x in Map(IdOf, sel) <==>
        exists k :: 0 <= k < |items| && items[k].isSelected && items[k].id == x
    {
      if x in Map(IdOf, sel) {
        var j :| 0 <= j < |sel| && sel[j].id == x;
        FilterMembers(IsSelected, items, sel[j]);
      }
      if exists k :: 0 <= k < |items| && items[k].isSelected && items[k].id == x {
        var k :| 0 <= k < |items| && items[k].isSelected && items[k].id == x;
        FilterMembers(IsSelected, items, items[k]);
        var j :| 0 <= j < |sel| && sel[j] == items[k];
        assert Map(IdOf, sel)[j] == x;
      }
    }
  }

  /**
   * A reference for the fallback order, read from the front of the list: the
   * id of the first item if it is selected, then those of the rest.
   */
  function SelectedIdsInOrder(items: seq<Item>): seq<string>
    decreases |items|
  {
    if |items| == 0 then []
    else (if items[0].isSelected then [items[0].id] else []) + SelectedIdsInOrder(items[1..])
  }

  /**
   * Without a truthy id the targets are the selected items' ids taken one
   * item at a time from the front of the list, so the order is that of the
   * items even when ids repeat.
   */
  lemma {:induction false} TargetsInListOrder(items: seq<Item>, itemId: Option<string>)
    requires !Truthy(itemId)
    ensures Targets(items, itemId) == Ids(SelectedItems(items))
    ensures Targets(items, itemId) == SelectedIdsInOrder(items)
    decreases |items|
  {
    if |items| > 0 {
      var x, rest := items[0], items[1..];
      assert items == [x] + rest;
      TargetsInListOrder(rest, itemId);
      FilterAppend(IsSelected, [x], rest);
      FilterSnoc(IsSelected, [], x);
      assert [] + [x] == [x];
      MapAppend(IdOf, Filter(IsSelected, [x]), SelectedItems(rest));
    }
  }

  /**
   * Repeated ids: selecting the first `x` and the second `y` of
   * `[x, y, x, y]` emits `x` then `y`, in list order.
   */
  lemma RepeatedIdsScenario(a: Item, b: Item, c: Item, d: Item)
    requires a.id == c.id && b.id == d.id
    requires a.isSelected && !b.isSelected && !c.isSelected && d.isSelected
    ensures Targets([a, b, c, d], None) == [a.id, b.id]
  {
    TargetsInListOrder([a, b, c, d], None);
    assert [a, b, c, d][1..] == [b, c, d] && [b, c, d][1..] == [c, d] && [c, d][1..] == [d];
    assert SelectedIdsInOrder([d]) == [d.id] by { assert [d][1..] == []; }
    assert SelectedIdsInOrder([c, d]) == [d.id];
    assert SelectedIdsInOrder([b, c, d]) == [d.id];
  }

  /** An id of `''` (falsy) falls back to the selection. */
  lemma TargetsEmptyIdFallsBack(items: seq<Item>)
    ensures Targets(items, Some("")) == Targets(items, None)
  {
  }

  /** The selection `{a, c}` of `[a, b, c]` gives the targets `a` then `c`. */
  lemma TargetsScenario(a: Item, b: Item, c: Item)
    requires a.isSelected && !b.isSelected && c.isSelected
    ensures Targets([a, b, c], None) == [a.id, c.id]
  {
    FilterSnoc(IsSelected, [], a);
    FilterSnoc(IsSelected, [a], b);
    FilterSnoc(IsSelected, [a, b], c);
    assert [a] + [b] == [a, b] && [a, b] + [c] == [a, b, c];
    assert SelectedItems([a, b, c]) == [a, c];
  }

  /** The table component's own state, `isListView`, and its view of the editor. */
  class ItemTable {
    const editor: Editor
    var isListView: bool

    constructor (editor: Editor)
      ensures this.editor == editor && isListView
    {
      this.editor := editor;
      isListView := true;
    }

    /** `onViewChange={setIsListView}`: only the flag changes. */
    method SetListView(value: bool)
      modifies this`isListView
      ensures isListView == value
      ensures editor.items == old(editor.items)
    {
      isListView := value;
    }

    /**
     * The `useEffect` on `[items.length, isAllSelected]`: calls `onSelectAll`
     * when the list is empty and reads as all selected. It fires exactly on the
     * empty list, and leaves the list as it was.
     */
    method EmptyListEffect() returns (fired: bool)
      modifies editor`items
      ensures fired <==> |old(editor.items)| == 0
      ensures editor.items == old(editor.items)
    {
      fired := |editor.items| == 0 && editor.IsAllSelected();
      if fired {
        editor.HandleSelectAll();
      }
    }

    /** `handleRegenerate(itemId?)`: one `onRegenerateItem` call per target. */
    method HandleRegenerate(itemId: Option<string>)
      modifies editor`regenerateLog
      ensures editor.regenerateLog == old(editor.regenerateLog) + Targets(editor.items, itemId)
    {
      var selectedItems := SelectedItems(editor.items);
      if Truthy(itemId) {
        editor.HandleRegenerateItem(itemId.value);
      } else if |selectedItems| > 0 {
        var k := 0;
        while k < |selectedItems|
          invariant 0 <= k <= |selectedItems|
          invariant editor.regenerateLog == old(editor.regenerateLog) + Map(IdOf, selectedItems[..k])
        {
          assert selectedItems[..k + 1] == selectedItems[..k] + [selectedItems[k]];
          MapSnoc(IdOf, selectedItems[..k], selectedItems[k]);
          editor.HandleRegenerateItem(selectedItems[k].id);
          k := k + 1;
        }
        assert selectedItems[..k] == selectedItems;
      }
    }

    /** `handleDownload(itemId?)`: one `onDownloadItem` call per target. */
    method HandleDownload(itemId: Option<string>)
      modifies editor`downloadLog
      ensures editor.downloadLog == old(editor.downloadLog) + Targets(editor.items, itemId)
    {
      var selectedItems := SelectedItems(editor.items);
      if Truthy(itemId) {
        editor.HandleDownloadItem(itemId.value);
      } else if |selectedItems| > 0 {
        var k := 0;
        while k < |selectedItems|
          invariant 0 <= k <= |selectedItems|
          invariant editor.downloadLog == old(editor.downloadLog) + Map(IdOf, selectedItems[..k])
        {
          assert selectedItems[..k + 1] == selectedItems[..k] + [selectedItems[k]];
          MapSnoc(IdOf, selectedItems[..k], selectedItems[k]);
          editor.HandleDownloadItem(selectedItems[k].id);
          k := k + 1;
        }
        assert selectedItems[..k] == selectedItems;
      }
    }

    /** A grid card's `onRegenerate: () => handleRegenerate(item.id)`. */
    method GridRegenerate(k: nat)
      requires k < |editor.items|
      modifies editor`regenerateLog
      ensures editor.regenerateLog == old(editor.regenerateLog) + Targets(editor.items, Some(editor.items[k].id))
      ensures editor.items[k].id != "" ==> editor.regenerateLog == old(editor.regenerateLog) + [editor.items[k].id]
    {
      HandleRegenerate(Some(editor.items[k].id));
    }

    /** A grid card's `onDownload: () => handleDownload(item.id)`. */
    method GridDownload(k: nat)
      requires k < |editor.items|
      modifies editor`downloadLog
      ensures editor.downloadLog == old(editor.downloadLog) + Targets(editor.items, Some(editor.items[k].id))
      ensures editor.items[k].id != "" ==> editor.downloadLog == old(editor.downloadLog) + [editor.items[k].id]
    {
      HandleDownload(Some(editor.items[k].id));
    }

    /** A row's or card's `onPlay: () => onPlay(item.id)`. */
    method RowPlay(k: nat)
      requires k < |editor.items|
      modifies editor`playLog
      ensures editor.playLog == old(editor.playLog) + [editor.items[k].id]
    {
      editor.HandlePlay(editor.items[k].id);
    }
  }
}
