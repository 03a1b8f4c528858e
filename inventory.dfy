/**
  The inventory page: the list of stock items, the add / edit form with its
  required fields, its "Others - <custom>" category and its metal-driven
  purity, deleting an item, and the name / barcode search.
*/
module Inventory {
  import opened Basics
  import opened Text
  import opened JsNum

  /** A stock item, with the columns the page's logic looks at. */
  datatype Item = Item(
    id: string,
    barcode: string,
    itemName: string,
    category: string,
    weight: real,
    purity: string,
    metalType: string)

  /** The add / edit form. */
  datatype ItemDraft = ItemDraft(
    barcode: string,
    itemName: string,
    category: string,
    weight: real,
    purity: string,
    metalType: string)

  const OthersCategory := "Others"
  const OthersPrefix := "Others - "

  const EmptyDraft := ItemDraft("", "", "", 0.0, "", "gold")

  // ---------------------------------------------------------------------------
  // Category

  /**
    The category saved: "Others - " and the trimmed custom text when "Others"
    is chosen and the custom text is not blank, the chosen category otherwise.
  */
  function EncodeCategory(category: string, custom: string): string
  {
    if category == OthersCategory && Trim(custom) != [] then OthersPrefix + Trim(custom) else category
  }

  /** The category and custom text the edit form shows for a saved category. */
  function DecodeCategory(saved: string): (string, string)
  {
    if StartsWith(saved, OthersPrefix) then (OthersCategory, saved[|OthersPrefix|..]) else (saved, "")
  }

  /** Saving "Others" with a custom text and opening it again shows "Others" and the trimmed text. */
  lemma {:induction false} DecodeEncodedCategory(custom: string)
    requires Trim(custom) != []
    ensures DecodeCategory(EncodeCategory(OthersCategory, custom)) == (OthersCategory, Trim(custom))
  {
    var saved := OthersPrefix + Trim(custom);
    assert saved[..|OthersPrefix|] == OthersPrefix;
    assert saved[|OthersPrefix|..] == Trim(custom);
  }

  /**
    Opening a saved category and saving it again gives it back, provided the
    custom part of an "Others - " category is trimmed and not blank.
  */
  lemma {:induction false} EncodeDecodedCategory(saved: string)
    requires StartsWith(saved, OthersPrefix) ==> var rest := saved[|OthersPrefix|..]; Trim(rest) == rest && rest != []
    ensures var (category, custom) := DecodeCategory(saved); EncodeCategory(category, custom) == saved
  {
    if StartsWith(saved, OthersPrefix) {
      assert saved == OthersPrefix + saved[|OthersPrefix|..];
    } else {
      assert Trim("") == [];
    }
  }

  /** A custom text that is blank is dropped: the category stays as chosen. */
  lemma BlankCustomIsDropped(category: string, custom: string)
    requires Trim(custom) == []
    ensures EncodeCategory(category, custom) == category
  {
  }

  // ---------------------------------------------------------------------------
  // Metal and purity

  /** The purity the metal select fills in; the plain metals leave it empty. */
  function DefaultPurity(metalType: string): (r: string)
    ensures metalType == "gold_916" ==> r == "91.6"
    ensures metalType == "gold_750" ==> r == "75"
    ensures metalType == "silver_92" ==> r == "92.5"
    ensures metalType == "silver_70" ==> r == "70"
    ensures metalType !in {"gold_916", "gold_750", "silver_92", "silver_70"} ==> r == ""
  {
    match metalType
    case "gold_916" => "91.6"
    case "gold_750" => "75"
    case "silver_92" => "92.5"
    case "silver_70" => "70"
    case _ => ""
  }

  // ---------------------------------------------------------------------------
  // The list

  /** The required fields: barcode, name and category not empty, weight not zero. */
  predicate Complete(d: ItemDraft)
  {
    d.barcode != [] && d.itemName != [] && d.category != [] && d.weight != 0.0
  }

  /** The item saved from a complete form under `id`, with its category encoded. */
  function ItemOf(id: string, d: ItemDraft, custom: string): Item
  {
    Item(id, d.barcode, d.itemName, EncodeCategory(d.category, custom), d.weight, d.purity, d.metalType)
  }

  /** `items.map(item => item.id === id ? updated : item)` */
  function ReplaceById(items: seq<Item>, id: string, updated: Item): (r: seq<Item>)
    ensures |r| == |items|
    ensures forall i :: 0 <= i < |items| ==> r[i] == if items[i].id == id then updated else items[i]
  {
    seq(|items|, i requires 0 <= i < |items| => if items[i].id == id then updated else items[i])
  }

  /** `item => item.id !== id` */
  function IdIsNot(id: string): Item -> bool
  {
    (it: Item) => it.id != id
  }

  /** `items.filter(item => item.id !== id)` */
  function WithoutId(items: seq<Item>, id: string): seq<Item>
  {
    Filter(items, IdIsNot(id))
  }

  /** The search: name or barcode contains the term, without regard to case. */
  predicate MatchesTerm(term: string, it: Item)
  {
    ContainsIgnoringCase(it.itemName, term) || ContainsIgnoringCase(it.barcode, term)
  }

  /** `filteredItems` */
  function FilteredItems(items: seq<Item>, term: string): seq<Item>
  {
    Filter(items, (it: Item) => MatchesTerm(term, it))
  }

  /** The list shows exactly the matching items, in list order. */
  lemma {:induction false} FilteredItemsExactly(items: seq<Item>, term: string)
    ensures IsSubsequence(FilteredItems(items, term), items)
    ensures forall it :: it in FilteredItems(items, term) <==> it in items && MatchesTerm(term, it)
  {
    FilterIsSubsequence(items, (it: Item) => MatchesTerm(term, it));
  }

  /** An empty search shows the whole list. */
  lemma {:induction false} EmptySearchShowsAll(items: seq<Item>)
    ensures FilteredItems(items, "") == items
  {
    forall it: Item ensures MatchesTerm("", it) {
      EmptyIsContained(ToLower(it.itemName));
      assert ToLower("") == "";
    }
    FilterKeepsAll(items, (it: Item) => MatchesTerm("", it));
  }

  datatype SaveOutcome = MissingFields | Updated(id: string) | Created(id: string)

  class InventoryPage {
    var items: seq<Item>
    var draft: ItemDraft
    var customCategory: string
    var editingId: Option<string>

    /** The page once the items are loaded: an empty form, nothing being edited. */
    constructor (loaded: seq<Item>)
      ensures items == loaded && draft == EmptyDraft && customCategory == [] && editingId == None
    {
      items := loaded;
      draft := EmptyDraft;
      customCategory := [];
      editingId := None;
    }

    /** Typing a weight: `parseFloat(text) || 0`. */
    method TypeWeight(text: string)
      modifies this
      ensures draft == old(draft).(weight := ParseFloatOr0(text))
      ensures items == old(items) && customCategory == old(customCategory) && editingId == old(editingId)
    {
      draft := draft.(weight := ParseFloatOr0(text));
    }

    /** Choosing a metal sets it and its default purity. */
    method SelectMetal(metalType: string)
      modifies this
      ensures draft == old(draft).(metalType := metalType, purity := DefaultPurity(metalType))
      ensures items == old(items) && customCategory == old(customCategory) && editingId == old(editingId)
    {
      draft := draft.(metalType := metalType, purity := DefaultPurity(metalType));
    }

    /**
      Saving the form: an incomplete form changes nothing. Otherwise, with the
      category encoded, the item being edited is replaced in place, or the new
      item (the store's fresh id `newId`) is put at the head of the list; the
      form is then cleared.
    */
    method Save(newId: string) returns (outcome: SaveOutcome)
      modifies this
      ensures !Complete(old(draft)) ==>
        && outcome == MissingFields
        && items == old(items) && draft == old(draft) && customCategory == old(customCategory) && editingId == old(editingId)
      ensures Complete(old(draft)) && old(editingId).Some? ==>
        && outcome == Updated(old(editingId).value)
        && items == ReplaceById(old(items), old(editingId).value, ItemOf(old(editingId).value, old(draft), old(customCategory)))
      ensures Complete(old(draft)) && old(editingId).None? ==>
        && outcome == Created(newId)
        && items == [ItemOf(newId, old(draft), old(customCategory))] + old(items)
      ensures Complete(old(draft)) ==> draft == EmptyDraft && customCategory == [] && editingId == None
    {
      if !Complete(draft) {
        return MissingFields;
      }
      match editingId {
        case Some(id) =>
          items := ReplaceById(items, id, ItemOf(id, draft, customCategory));
          outcome := Updated(id);
        case None =>
          items := [ItemOf(newId, draft, customCategory)] + items;
          outcome := Created(newId);
      }
      draft := EmptyDraft;
      customCategory := [];
      editingId := None;
    }

    /** "Edit" on an item: the form takes its fields, an "Others - " category split into "Others" and the custom text. */
    method Edit(item: Item)
      modifies this
      ensures draft == ItemDraft(item.barcode, item.itemName, DecodeCategory(item.category).0, item.weight, item.purity, item.metalType)
      ensures customCategory == DecodeCategory(item.category).1
      ensures editingId == Some(item.id) && items == old(items)
    {
      var (category, custom) := DecodeCategory(item.category);
      draft := ItemDraft(item.barcode, item.itemName, category, item.weight, item.purity, item.metalType);
      customCategory := custom;
      editingId := Some(item.id);
    }

    /** Deleting, once confirmed, drops the items with that id and keeps the others in order. */
    method Delete(id: string, confirmed: bool)
      modifies this
      ensures !confirmed ==> items == old(items)
      ensures confirmed ==> items == WithoutId(old(items), id)
      ensures IsSubsequence(items, old(items))
      ensures forall it :: it in items <==> it in old(items) && (confirmed ==> it.id != id)
      ensures draft == old(draft) && customCategory == old(customCategory) && editingId == old(editingId)
    {
      if !confirmed {
        SubsequenceOfItself(items);
        return;
      }
      FilterIsSubsequence(items, IdIsNot(id));
      items := WithoutId(items, id);
      assert forall it :: IdIsNot(id)(it) == (it.id != id);
    }
  }

  lemma {:induction false} SubsequenceOfItself(xs: seq<Item>)
    ensures IsSubsequence(xs, xs)
  {
    FilterKeepsAll(xs, (it: Item) => true);
    FilterIsSubsequence(xs, (it: Item) => true);
  }

  /** Saving an edit touches only the item being edited; every other item keeps its place and contents. */
  lemma UpdateTouchesOnlyEditedItem(items: seq<Item>, id: string, updated: Item, i: int)
    requires 0 <= i < |items| && items[i].id != id
    ensures |ReplaceById(items, id, updated)| == |items| && ReplaceById(items, id, updated)[i] == items[i]
  {
  }

  /** Editing an item and saving it unchanged gives back the same item, its category included. */
  lemma {:induction false} EditThenSaveKeepsItem(item: Item)
    requires StartsWith(item.category, OthersPrefix) ==>
      var rest := item.category[|OthersPrefix|..]; Trim(rest) == rest && rest != []
    ensures var (category, custom) := DecodeCategory(item.category);
      ItemOf(item.id, ItemDraft(item.barcode, item.itemName, category, item.weight, item.purity, item.metalType), custom) == item
  {
    EncodeDecodedCategory(item.category);
  }
}
