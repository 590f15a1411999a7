/**
 * The list helpers of the groups editor: the drafts the recipe form edits
 * (groups of text items, possibly collapsed) and the updates the editor
 * hands back to the form. Every helper builds a new list.
 */
module GroupsEditor {
  import opened Text
  import opened RecipeModel

  /**
   * One editable line. `isHeader` marks a section header line; items the
   * editor creates itself carry no marker, which is `false` here.
   */
  datatype ItemDraft = ItemDraft(id: string, text: string, isHeader: bool)

  /** One editable group; an absent `collapsed` flag is `false`. */
  datatype GroupDraft = GroupDraft(id: string, title: string, items: seq<ItemDraft>, collapsed: bool)

  /** `text.trim() !== ''`. */
  predicate Filled(it: ItemDraft) {
    !IsBlank(it.text)
  }

  // ---------------------------------------------------------------------
  // ensureTrailingEmptyItem

  /** `ensureTrailingEmptyItem(items)`: a blank line to type into is always last. */
  function EnsureTrailingEmptyItem(items: seq<ItemDraft>, freshId: FreshId): (r: seq<ItemDraft>)
    ensures r != [] && IsBlank(r[|r| - 1].text)
    ensures |items| <= |r| && r[..|items|] == items
    ensures |r| == |items| + (if items == [] || Filled(items[|items| - 1]) then 1 else 0)
    ensures |r| > |items| ==> r[|items|] == ItemDraft(freshId, "", false)
  {
    if items == [] || Filled(items[|items| - 1]) then items + [ItemDraft(freshId, "", false)]
    else items
  }

  /** A second application adds nothing. */
  lemma EnsureTrailingIdempotent(items: seq<ItemDraft>, id1: FreshId, id2: FreshId)
    ensures EnsureTrailingEmptyItem(EnsureTrailingEmptyItem(items, id1), id2) == EnsureTrailingEmptyItem(items, id1)
  {
  }

  // ---------------------------------------------------------------------
  // Group list updates

  /** `handleAddGroup`: one new untitled, expanded group holding one empty line. */
  function AddGroup(groups: seq<GroupDraft>, freshId: FreshId): (r: seq<GroupDraft>)
    ensures |r| == |groups| + 1 && r[..|groups|] == groups
    ensures var g := r[|groups|];
      g.title == "" && !g.collapsed && g.items == [ItemDraft(freshId, "", false)]
  {
    groups + [GroupDraft(freshId, "", [ItemDraft(freshId, "", false)], false)]
  }

  /** `handleDeleteGroup(id)`: `groups.filter(g => g.id !== id)`. */
  function DeleteGroup(groups: seq<GroupDraft>, id: string): (r: seq<GroupDraft>)
    ensures |r| <= |groups|
    ensures forall g :: g in r ==> g.id != id
  {
    if groups == [] then []
    else (if groups[0].id == id then [] else [groups[0]]) + DeleteGroup(groups[1..], id)
  }

  /** Deleting keeps exactly the other groups. */
  lemma {:induction false} DeleteGroupMembers(groups: seq<GroupDraft>, id: string)
    ensures forall g :: g in DeleteGroup(groups, id) <==> g in groups && g.id != id
  {
    if groups != [] {
      DeleteGroupMembers(groups[1..], id);
      assert groups == [groups[0]] + groups[1..];
    }
  }

  /** Deleting keeps the order of what it keeps: it distributes over concatenation. */
  lemma {:induction false} DeleteGroupAppend(a: seq<GroupDraft>, b: seq<GroupDraft>, id: string)
    ensures DeleteGroup(a + b, id) == DeleteGroup(a, id) + DeleteGroup(b, id)
  {
    if a == [] {
      assert a + b == b;
    } else {
      assert (a + b)[1..] == a[1..] + b;
      DeleteGroupAppend(a[1..], b, id);
    }
  }

  /** Deleting an id no group has changes nothing. */
  lemma {:induction false} DeleteAbsentGroup(groups: seq<GroupDraft>, id: string)
    requires forall g :: g in groups ==> g.id != id
    ensures DeleteGroup(groups, id) == groups
  {
    if groups != [] {
      DeleteAbsentGroup(groups[1..], id);
      assert groups == [groups[0]] + groups[1..];
    }
  }

  /** `toggleCollapse(id)`: flips the flag of every group with that id. */
  function ToggleCollapse(groups: seq<GroupDraft>, id: string): (r: seq<GroupDraft>)
    ensures |r| == |groups|
    ensures forall i :: 0 <= i < |groups| && groups[i].id != id ==> r[i] == groups[i]
    ensures forall i :: 0 <= i < |groups| && groups[i].id == id ==>
      r[i].collapsed == !groups[i].collapsed && r[i].(collapsed := groups[i].collapsed) == groups[i]
  {
    seq(|groups|, i requires 0 <= i < |groups| =>
      if groups[i].id == id then groups[i].(collapsed := !groups[i].collapsed) else groups[i])
  }

  /** Toggling twice restores the list. */
  lemma ToggleTwice(groups: seq<GroupDraft>, id: string)
    ensures ToggleCollapse(ToggleCollapse(groups, id), id) == groups
  {
  }

  /** The title edit: the group at the edited position gets the new title. */
  function SetTitle(groups: seq<GroupDraft>, index: nat, title: string): (r: seq<GroupDraft>)
    requires index < |groups|
    ensures |r| == |groups| && r[index].title == title
    ensures r[index].(title := groups[index].title) == groups[index]
    ensures forall i :: 0 <= i < |groups| && i != index ==> r[i] == groups[i]
  {
    groups[index := groups[index].(title := title)]
  }

  // ---------------------------------------------------------------------
  // Items of one group

  /** The items that are not blank, in order. */
  function FilledItems(items: seq<ItemDraft>): (r: seq<ItemDraft>)
    ensures forall it :: it in r <==> it in items && Filled(it)
    ensures |r| <= |items|
  {
    if items == [] then []
    else (if Filled(items[0]) then [items[0]] else []) + FilledItems(items[1..])
  }

  /**
   * The item drag-end sanitiser:
   * `data.filter((d, idx) => d.text.trim() !== '' || idx === data.length - 1)`.
   */
  function SanitizeItems(data: seq<ItemDraft>): (r: seq<ItemDraft>)
    ensures |r| <= |data|
    ensures data != [] ==> r != [] && r[|r| - 1] == data[|data| - 1]
  {
    if data == [] then []
    else FilledItems(data[..|data| - 1]) + [data[|data| - 1]]
  }

  /**
   * After a drag every line but the last is filled, the last line is kept
   * whatever it holds, and the filled lines keep their new order.
   */
  lemma SanitizedShape(data: seq<ItemDraft>)
    ensures data == [] ==> SanitizeItems(data) == []
    ensures data != [] ==>
      var r := SanitizeItems(data);
      && r != [] && r[|r| - 1] == data[|data| - 1]
      && (forall i :: 0 <= i < |r| - 1 ==> Filled(r[i]))
      && (forall it :: it in data[..|data| - 1] && Filled(it) ==> it in r)
  {
    if data != [] {
      var r := SanitizeItems(data);
      forall i | 0 <= i < |r| - 1 ensures Filled(r[i]) {
        assert r[i] in FilledItems(data[..|data| - 1]);
      }
    }
  }

  lemma {:induction false} FilledItemsOfFilled(items: seq<ItemDraft>)
    requires forall i :: 0 <= i < |items| ==> Filled(items[i])
    ensures FilledItems(items) == items
  {
    if items != [] {
      FilledItemsOfFilled(items[1..]);
    }
  }

  /** Sanitising a sanitised list changes nothing. */
  lemma SanitizeIdempotent(data: seq<ItemDraft>)
    ensures SanitizeItems(SanitizeItems(data)) == SanitizeItems(data)
  {
    if data != [] {
      var r := SanitizeItems(data);
      SanitizedShape(data);
      assert r[..|r| - 1] == FilledItems(data[..|data| - 1]);
      FilledItemsOfFilled(r[..|r| - 1]);
    }
  }

  /** The drag end of the items of the group at `index`: only that group's items change. */
  function DragItems(groups: seq<GroupDraft>, index: nat, data: seq<ItemDraft>): (r: seq<GroupDraft>)
    requires index < |groups|
    ensures |r| == |groups| && r[index].items == SanitizeItems(data)
    ensures r[index].(items := groups[index].items) == groups[index]
    ensures forall i :: 0 <= i < |groups| && i != index ==> r[i] == groups[i]
  {
    groups[index := groups[index].(items := SanitizeItems(data))]
  }

  /**
   * Typing into the line at `itemIndex` of the group at `index`. The lines
   * shown are the group's items with the trailing blank line, so the edit
   * is made on that list and the whole list is stored back.
   */
  function EditItemText(groups: seq<GroupDraft>, index: nat, itemIndex: nat, text: string, freshId: FreshId)
    : (r: seq<GroupDraft>)
    requires index < |groups|
    requires itemIndex < |EnsureTrailingEmptyItem(groups[index].items, freshId)|
    ensures |r| == |groups|
    ensures forall i :: 0 <= i < |groups| && i != index ==> r[i] == groups[i]
    ensures var shown := EnsureTrailingEmptyItem(groups[index].items, freshId);
      r[index].items == shown[itemIndex := shown[itemIndex].(text := text)]
  {
    var shown := EnsureTrailingEmptyItem(groups[index].items, freshId);
    groups[index := groups[index].(items := shown[itemIndex := shown[itemIndex].(text := text)])]
  }

  /**
   * Typing into the trailing blank line of a group whose last line is
   * filled stores a new line with that text after the existing ones.
   */
  lemma TypingIntoTrailingLineAppends(groups: seq<GroupDraft>, index: nat, text: string, freshId: FreshId)
    requires index < |groups|
    requires groups[index].items == [] || Filled(groups[index].items[|groups[index].items| - 1])
    ensures var items := groups[index].items;
      EditItemText(groups, index, |items|, text, freshId)[index].items == items + [ItemDraft(freshId, text, false)]
  {
  }
}
