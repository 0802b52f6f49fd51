/**
 * The image gallery's focus mode (src/components/ImageGallery.jsx): three
 * items, at most one of them focused; clicking the focused item clears the
 * focus and clicking any other item focuses it.
 */
module ImageGallery {
  import opened Wrappers

  datatype Item = Item(id: int, name: string)

  /** The gallery's fixed items (their colours and emoji are presentation). */
  const Items: seq<Item> := [Item(1, "Apple"), Item(2, "Banana"), Item(3, "Leaf")]

  /** The ids a click can come from: one button per item. */
  const ItemIds: set<int> := set it | it in Items :: it.id

  /** `focusedId === id`. */
  predicate IsFocused(focusedId: Option<int>, id: int): (b: bool)
    ensures b ==> forall j | j != id :: focusedId != Some(j)
    ensures focusedId == None ==> !b
  {
    focusedId == Some(id)
  }

  /** `focusedId !== null && !isFocused`: the item is dimmed exactly when some
      other item is focused. */
  function IsDimmed(focusedId: Option<int>, id: int): (b: bool)
    ensures b <==> exists k :: IsFocused(focusedId, k) && k != id
  {
    if focusedId.Some? then
      assert IsFocused(focusedId, focusedId.value);
      focusedId.value != id
    else
      false
  }

  /** JavaScript truthiness of `null` or a number. */
  predicate Truthy(v: Option<int>)
  {
    v.Some? && v.value != 0
  }

  /** `{focusedId && ...}`: whether the "Focus Mode Active" banner is rendered. */
  predicate BannerShown(focusedId: Option<int>)
    ensures BannerShown(focusedId) <==> focusedId != None && focusedId != Some(0)
    ensures ValidFocus(focusedId) ==> (BannerShown(focusedId) <==> focusedId.Some?)
  {
    NonzeroIds();
    Truthy(focusedId)
  }

  /** The item ids are 1, 2 and 3; none of them is the falsy 0. */
  lemma NonzeroIds()
    ensures ItemIds == {1, 2, 3}
    ensures 0 !in ItemIds
  {
    assert Items[0].id == 1 && Items[1].id == 2 && Items[2].id == 3;
    forall x | x in ItemIds ensures x in {1, 2, 3} {
      var it :| it in Items && it.id == x;
      assert it == Items[0] || it == Items[1] || it == Items[2];
    }
  }

  /** The focus is empty or one of the items. */
  predicate ValidFocus(focusedId: Option<int>)
  {
    focusedId.Some? ==> focusedId.value in ItemIds
  }

  /** `setFocusedId(isFocused ? null : item.id)`: after a click on `id`, an item
      is focused exactly when it is `id` and `id` was not focused before. */
  function NextFocus(focusedId: Option<int>, id: int): (r: Option<int>)
    ensures forall j :: IsFocused(r, j) <==> j == id && !IsFocused(focusedId, id)
  {
    if IsFocused(focusedId, id) then None else Some(id)
  }

  /** At most one item is focused at a time. */
  lemma AtMostOneFocused(focusedId: Option<int>, i: int, j: int)
    requires IsFocused(focusedId, i) && IsFocused(focusedId, j)
    ensures i == j
  {
  }

  /** When an item is focused, every other item is dimmed and it is not. */
  lemma FocusDimsOthers(id: int, j: int)
    ensures IsDimmed(Some(id), j) <==> j != id
    ensures !IsDimmed(Some(id), id)
  {
  }

  /** Nothing focused means nothing dimmed. */
  lemma NothingFocusedNothingDimmed(j: int)
    ensures !IsFocused(None, j) && !IsDimmed(None, j) && !BannerShown(None)
  {
  }

  /** Two clicks on the same item leave it unfocused, unless it was focused to
      begin with, in which case they restore that. */
  lemma ClickTwice(focusedId: Option<int>, id: int)
    ensures NextFocus(NextFocus(focusedId, id), id) ==
      if IsFocused(focusedId, id) then focusedId else None
  {
  }

  /** The `ImageGallery` component's `focusedId` state. */
  class Gallery {
    var focusedId: Option<int>

    predicate Valid()
      reads this
    {
      ValidFocus(focusedId)
    }

    /** `useState(null)`. */
    constructor ()
      ensures Valid() && focusedId == None
    {
      focusedId := None;
    }

    /** The click handler of the button for item `id`. */
    method Click(id: int)
      requires Valid() && id in ItemIds
      modifies this
      ensures Valid()
      ensures focusedId == NextFocus(old(focusedId), id)
      ensures old(IsFocused(focusedId, id)) ==> focusedId == None
      ensures !old(IsFocused(focusedId, id)) ==> forall j :: IsFocused(focusedId, j) <==> j == id
    {
      focusedId := if IsFocused(focusedId, id) then None else Some(id);
    }
  }
}
