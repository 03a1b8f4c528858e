/**
  The advance-booking form: the list of gold items the customer orders, the
  booking total with its AUTO / LOCKED rule, the advance and the amount due,
  the old-gold entries the customer hands in, the submit gate, and what the
  submit does to the old-gold table.

  The component's `formData` state is the value `data`; `isTotalAmountLocked`,
  `newOldGold` and `editingOldGoldId` are fields of their own. The daily metal
  rates are loaded once and are constant here.
*/
module AdvanceBooking {
  import opened Basics
  import opened Text
  import opened JsNum
  import opened Notes
  import opened ExchangeStore
  import opened Reconcile

  /** A gold item of the booking. */
  datatype GoldItem = GoldItem(
    id: string,
    itemName: string,
    weight: real,
    rate: real,
    makingCharges: real,
    gstRate: real,
    lineTotal: real,
    purity: string,
    hsnCode: string,
    slNo: int,
    barcode: Option<string>,
    metalType: string)

  /** The text fields of the "add item" row. */
  datatype ItemDraft = ItemDraft(name: string, weightText: string, purity: string, metalType: string, makingText: string, barcode: string)

  /** The "add old gold" row (`newOldGold`). */
  datatype OldGoldDraft = OldGoldDraft(
    weight: real,
    weightInput: string,
    purity: string,
    rate: real,
    rateInput: string,
    totalValue: real,
    hsnCode: string,
    particulars: string)

  /** The part of `formData` the logic uses. */
  datatype FormData = FormData(
    hasCustomer: bool,
    items: seq<GoldItem>,
    oldGold: seq<OldGoldEntry>,
    itemDraft: ItemDraft,
    totalAmount: real,
    advanceAmount: real,
    amountDue: real,
    deliveryDate: string)

  const DefaultMetal := "gold"
  const ItemHsn := "711319"

  const EmptyItemDraft := ItemDraft("", "", "", DefaultMetal, "", "")
  const EmptyOldGoldDraft := OldGoldDraft(0.0, "", "", 0.0, "", 0.0, DefaultHsn, "")

  /** `allMetalRates[m] || 0` */
  function RateOf(rates: map<string, real>, m: string): real
  {
    if m in rates then rates[m] else 0.0
  }

  // ---------------------------------------------------------------------------
  // Totals

  function LineTotals(items: seq<GoldItem>): (r: seq<real>)
    ensures |r| == |items| && forall i :: 0 <= i < |items| ==> r[i] == items[i].lineTotal
  {
    seq(|items|, i requires 0 <= i < |items| => items[i].lineTotal)
  }

  /** `goldRequirements.reduce((sum, item) => sum + (item.line_total || 0), 0)` */
  function SumLineTotals(items: seq<GoldItem>): real
  {
    Sum(LineTotals(items))
  }

  lemma {:induction false} LineTotalsConcat(a: seq<GoldItem>, b: seq<GoldItem>)
    ensures LineTotals(a + b) == LineTotals(a) + LineTotals(b)
  {
  }

  /** The sum over the items is the sum over any split of them. */
  lemma {:induction false} SumLineTotalsConcat(a: seq<GoldItem>, b: seq<GoldItem>)
    ensures SumLineTotals(a + b) == SumLineTotals(a) + SumLineTotals(b)
  {
    LineTotalsConcat(a, b);
    SumAppend(LineTotals(a), LineTotals(b));
  }

  lemma {:induction false} SumLineTotalsAppend(items: seq<GoldItem>, x: GoldItem)
    ensures SumLineTotals(items + [x]) == SumLineTotals(items) + x.lineTotal
  {
    SumLineTotalsConcat(items, [x]);
    assert LineTotals([x]) == [x.lineTotal];
    SumSingle(x.lineTotal);
  }

  lemma {:induction false} SumLineTotalsRemove(items: seq<GoldItem>, index: int)
    requires 0 <= index < |items|
    ensures SumLineTotals(RemoveAt(items, index)) == SumLineTotals(items) - items[index].lineTotal
  {
    var a := items[..index];
    var x := items[index];
    var b := items[index + 1..];
    assert items == (a + [x]) + b;
    assert RemoveAt(items, index) == a + b;
    SumLineTotalsConcat(a + [x], b);
    SumLineTotalsAppend(a, x);
    SumLineTotalsConcat(a, b);
  }

  /** The amount-due effect: `Math.max(0, total - advance)`. */
  function AmountDue(total: real, advance: real): (r: real)
    ensures r >= 0.0 && r >= total - advance
    ensures r == 0.0 || r == total - advance
  {
    if total - advance > 0.0 then total - advance else 0.0
  }

  // ---------------------------------------------------------------------------
  // Items

  /** Why "add item" refuses the draft, in the order the form checks. */
  datatype ItemError = MissingName | BadWeight | MissingPurity

  function CheckItemDraft(d: ItemDraft): (r: Option<ItemError>)
    ensures r.None? <==> Trim(d.name) != [] && ParseFloatOr0(d.weightText) > 0.0 && Trim(d.purity) != []
    ensures r == Some(MissingName) <==> Trim(d.name) == []
  {
    if Trim(d.name) == [] then Some(MissingName)
    else if ParseFloatOr0(d.weightText) <= 0.0 then Some(BadWeight)
    else if Trim(d.purity) == [] then Some(MissingPurity)
    else None
  }

  /** The item "add item" appends: `line_total = weight * rate + making`, serial number `count + 1`. */
  function NewGoldItem(d: ItemDraft, rates: map<string, real>, now: int, count: nat): (r: GoldItem)
    ensures r.lineTotal == LineTotal(r.weight, r.rate, r.makingCharges)
    ensures r.slNo == count + 1 && r.hsnCode == ItemHsn && r.id == IntToString(now)
    ensures r.itemName == Trim(d.name) && r.purity == Trim(d.purity) && r.weight == ParseFloatOr0(d.weightText)
    ensures r.metalType != [] && r.rate == RateOf(rates, r.metalType)
    ensures d.metalType != [] ==> r.metalType == d.metalType
  {
    var weight := ParseFloatOr0(d.weightText);
    var making := ParseFloatOr0(d.makingText);
    var metal := if d.metalType == [] then DefaultMetal else d.metalType;
    var rate := RateOf(rates, metal);
    GoldItem(IntToString(now), Trim(d.name), weight, rate, making, 0.0, LineTotal(weight, rate, making),
             Trim(d.purity), ItemHsn, count + 1, NullIfEmpty(Trim(d.barcode)), metal)
  }

  /** `items.filter((_, i) => i !== index)` */
  function RemoveAt<T>(xs: seq<T>, index: int): (r: seq<T>)
    ensures !(0 <= index < |xs|) ==> r == xs
    ensures 0 <= index < |xs| ==> |r| == |xs| - 1 && forall i :: 0 <= i < |r| ==> r[i] == if i < index then xs[i] else xs[i + 1]
  {
    if 0 <= index < |xs| then xs[..index] + xs[index + 1..] else xs
  }

  /** The purity the metal select fills in. */
  function DefaultItemPurity(metal: string): string
  {
    if metal == "gold_916" then "22k"
    else if metal == "gold_750" then "18k"
    else if metal == "silver_92" then "92.5%"
    else if metal == "silver_70" then "70%"
    else if metal == "gold" then "24k"
    else ""
  }

  // ---------------------------------------------------------------------------
  // Old gold

  /** `Math.round(weight * rate * 100) / 100` */
  function OldGoldValue(weight: real, rate: real): real
  {
    Round2(weight * rate)
  }

  /** `weight * rate + making` */
  function LineTotal(weight: real, rate: real, making: real): real
  {
    weight * rate + making
  }

  /**
    The old-gold effect: the weight and the rate follow their inputs (an empty
    or zero rate falls back to the day's gold rate), the value is their product
    rounded to paise, and a weight typed with no rate fills in the gold rate.
  */
  function SettleDraft(d: OldGoldDraft, goldRate: real, goldRateText: string): (r: OldGoldDraft)
    ensures r.weight == ParseFloatOr0(d.weightInput)
    ensures ParseFloatOr0(d.rateInput) != 0.0 ==> r.rate == ParseFloatOr0(d.rateInput)
    ensures ParseFloatOr0(d.rateInput) == 0.0 ==> r.rate == (if goldRate > 0.0 then goldRate else 0.0)
    ensures r.totalValue == OldGoldValue(r.weight, r.rate)
    ensures r.purity == d.purity && r.hsnCode == d.hsnCode && r.particulars == d.particulars && r.weightInput == d.weightInput
    ensures r.rateInput == if r.weight > 0.0 && d.rateInput == [] && goldRate > 0.0 then goldRateText else d.rateInput
  {
    var weight := ParseFloatOr0(d.weightInput);
    var rate := OrElse(ParseFloatOr0(d.rateInput), if goldRate > 0.0 then goldRate else 0.0);
    var total := OldGoldValue(weight, rate);
    if weight > 0.0 && d.rateInput == [] && goldRate > 0.0 then
      d.(weight := weight, rate := rate, rateInput := goldRateText, totalValue := total)
    else
      d.(weight := weight, rate := rate, totalValue := total)
  }

  /**
    The effect's own write of the rate input triggers it once more; that second
    run changes nothing, because the filled-in text reads back as the gold rate.
  */
  lemma SettleDraftIdempotent(d: OldGoldDraft, goldRate: real, goldRateText: string)
    requires goldRate > 0.0 ==> ParseFloat(goldRateText) == Some(goldRate)
    ensures SettleDraft(SettleDraft(d, goldRate, goldRateText), goldRate, goldRateText) == SettleDraft(d, goldRate, goldRateText)
  {
  }

  /** `parseFloat(weightInput) <= 0` is false for `NaN`, so text that is not a number passes the check. */
  predicate WeightRejected(weightInput: string)
  {
    weightInput == [] || (ParseFloat(weightInput).Some? && ParseFloat(weightInput).value <= 0.0)
  }

  /** The entry "add old gold" appends. */
  function EntryOfDraft(d: OldGoldDraft, id: Option<string>): (r: OldGoldEntry)
    ensures r.id == id && r.hsnCode != []
    ensures r.weight == d.weight && r.rate == d.rate && r.totalValue == d.totalValue && r.purity == d.purity
    ensures r.particulars == d.particulars
    ensures d.hsnCode != [] ==> r.hsnCode == d.hsnCode
    ensures d.hsnCode == [] ==> r.hsnCode == DefaultHsn
  {
    OldGoldEntry(id, d.weight, d.weightInput, d.purity, d.rate, d.rateInput, d.totalValue,
                 if d.hsnCode == [] then DefaultHsn else d.hsnCode, d.particulars)
  }

  /** The draft "edit" loads from an entry. */
  function DraftOfEntry(e: OldGoldEntry): OldGoldDraft
  {
    OldGoldDraft(e.weight, e.weightInput, e.purity, e.rate, e.rateInput, e.totalValue, e.hsnCode, e.particulars)
  }

  /** `find(og => og.id === id)` */
  function FindById(es: seq<OldGoldEntry>, id: string): (r: Option<nat>)
    ensures r.Some? ==> r.value < |es| && es[r.value].id == Some(id) && forall i :: 0 <= i < r.value ==> es[i].id != Some(id)
    ensures r.None? ==> forall i :: 0 <= i < |es| ==> es[i].id != Some(id)
  {
    if es == [] then None
    else if es[0].id == Some(id) then Some(0)
    else match FindById(es[1..], id)
      case None => None
      case Some(k) => Some(k + 1)
  }

  /** `map(og => og.id === id ? {...og, fields of the draft} : og)` */
  function ReplaceById(es: seq<OldGoldEntry>, id: string, d: OldGoldDraft): (r: seq<OldGoldEntry>)
    ensures |r| == |es|
    ensures forall i :: 0 <= i < |es| ==> r[i] == if es[i].id == Some(id) then EntryOfDraft(d, es[i].id) else es[i]
  {
    seq(|es|, i requires 0 <= i < |es| => if es[i].id == Some(id) then EntryOfDraft(d, es[i].id) else es[i])
  }

  /** `filter(og => og.id !== id)` */
  function WithoutId(es: seq<OldGoldEntry>, id: string): (r: seq<OldGoldEntry>)
    ensures |r| <= |es|
    ensures forall i :: 0 <= i < |r| ==> r[i].id != Some(id)
    ensures forall e :: e in r <==> e in es && e.id != Some(id)
  {
    if es == [] then []
    else if es[|es| - 1].id == Some(id) then WithoutId(es[..|es| - 1], id)
    else WithoutId(es[..|es| - 1], id) + [es[|es| - 1]]
  }

  /** Deleting keeps the other entries in their order: the result is the list with the matching entries taken out. */
  lemma {:induction false} WithoutIdKeepsOrder(es: seq<OldGoldEntry>, id: string, i: int, j: int)
    requires 0 <= i < j < |WithoutId(es, id)|
    ensures exists a, b :: 0 <= a < b < |es| && es[a] == WithoutId(es, id)[i] && es[b] == WithoutId(es, id)[j]
  {
    var front := es[..|es| - 1];
    var r := WithoutId(es, id);
    var r' := WithoutId(front, id);
    if es[|es| - 1].id == Some(id) {
      WithoutIdKeepsOrder(front, id, i, j);
      var a, b :| 0 <= a < b < |front| && front[a] == r'[i] && front[b] == r'[j];
      assert es[a] == r[i] && es[b] == r[j];
    } else if j < |r'| {
      WithoutIdKeepsOrder(front, id, i, j);
      var a, b :| 0 <= a < b < |front| && front[a] == r'[i] && front[b] == r'[j];
      assert es[a] == r[i] && es[b] == r[j];
    } else {
      assert r[i] == r'[i] && r'[i] in front;
      var a :| 0 <= a < |front| && front[a] == r'[i];
      assert es[a] == r[i] && es[|es| - 1] == r[j];
    }
  }

  // ---------------------------------------------------------------------------
  // Submit gate

  /** The messages `validateForm` can show, in the order it checks. */
  /** The create path refuses an item with no name, or with a weight, rate or line total that is not positive. */
  predicate ItemSavable(it: GoldItem)
  {
    it.itemName != [] && it.weight > 0.0 && it.rate > 0.0 && it.lineTotal > 0.0
  }

  /** The index of the first item the create path refuses (its error names item `index + 1`), or `None`. */
  function FirstBadItem(items: seq<GoldItem>): (r: Option<nat>)
    ensures r.None? <==> forall i :: 0 <= i < |items| ==> ItemSavable(items[i])
    ensures r.Some? ==> r.value < |items| && !ItemSavable(items[r.value])
    ensures r.Some? ==> forall i :: 0 <= i < r.value ==> ItemSavable(items[i])
  {
    if items == [] then None
    else if !ItemSavable(items[0]) then Some(0)
    else match FirstBadItem(items[1..])
      case None => None
      case Some(i) => Some(i + 1)
  }

  /**
    An item added through the form passes the name and weight checks; it is
    refused exactly when its metal has no positive rate or the making charges
    cancel the value (`weight * rate + making <= 0`).
  */
  lemma AddedItemSavable(d: ItemDraft, rates: map<string, real>, now: int, count: nat)
    requires CheckItemDraft(d).None?
    ensures var it := NewGoldItem(d, rates, now, count);
      ItemSavable(it) <==> RateOf(rates, it.metalType) > 0.0 && LineTotal(it.weight, it.rate, it.makingCharges) > 0.0
  {
    var it := NewGoldItem(d, rates, now, count);
    assert it.itemName != [] && it.weight > 0.0;
  }

  datatype BookingError =
    | NoCustomer | TotalNotPositive | NoItems | AdvanceNotPositive
    | AdvanceAboveTotal | LockedTotalNotPositive | AdvanceNegative | NoDeliveryDate

  /** `validateForm`: the first check that fails, or `None` when the booking may be saved. */
  function ValidateForm(f: FormData, locked: bool): Option<BookingError>
  {
    if !f.hasCustomer then Some(NoCustomer)
    else if f.totalAmount <= 0.0 then Some(TotalNotPositive)
    else if |f.items| == 0 then Some(NoItems)
    else if f.advanceAmount <= 0.0 then Some(AdvanceNotPositive)
    else if f.totalAmount <= 0.0 then Some(TotalNotPositive)
    else if f.advanceAmount > f.totalAmount then Some(AdvanceAboveTotal)
    else if locked && f.totalAmount <= 0.0 then Some(LockedTotalNotPositive)
    else if f.advanceAmount < 0.0 then Some(AdvanceNegative)
    else if f.totalAmount <= 0.0 then Some(TotalNotPositive)
    else if f.deliveryDate == [] then Some(NoDeliveryDate)
    else None
  }

  /** The gate passes exactly when there is a customer, a positive total, an item, an advance in (0, total] and a delivery date. */
  lemma ValidateFormAccepts(f: FormData, locked: bool)
    ensures ValidateForm(f, locked).None?
        <==> f.hasCustomer && f.totalAmount > 0.0 && |f.items| > 0
             && 0.0 < f.advanceAmount <= f.totalAmount && f.deliveryDate != []
  {
  }

  /** The later checks on a locked total and on a negative advance are already covered by earlier ones and never fire. */
  lemma ValidateFormRedundantChecks(f: FormData, locked: bool)
    ensures ValidateForm(f, locked) != Some(LockedTotalNotPositive)
    ensures ValidateForm(f, locked) != Some(AdvanceNegative)
  {
  }

  /** How the booking is saved: a new bill, or an existing booking whose bill may be missing. */
  datatype SubmitMode = CreateWithBill(newBillId: int) | EditBooking(billId: Option<int>)

  // ---------------------------------------------------------------------------
  // The form

  class BookingForm {
    var data: FormData
    var locked: bool
    var oldGoldDraft: OldGoldDraft
    var editingOldGoldId: Option<string>
    /** The day's rates by metal type, and `String(allMetalRates.gold)`. */
    const rates: map<string, real>
    const goldRateText: string

    function GoldRate(): real
      reads this
    {
      RateOf(rates, DefaultMetal)
    }

    /**
      What holds between events: the amount due follows the total and the
      advance, an unlocked total is the sum of the line totals, and the
      old-gold effect has settled.
    */
    ghost predicate Valid()
      reads this
    {
      && data.amountDue == AmountDue(data.totalAmount, data.advanceAmount)
      && (!locked ==> data.totalAmount == SumLineTotals(data.items))
      && (GoldRate() > 0.0 ==> ParseFloat(goldRateText) == Some(GoldRate()))
      && oldGoldDraft == SettleDraft(oldGoldDraft, GoldRate(), goldRateText)
    }

    /** A new booking: empty, total in AUTO mode. */
    constructor New(hasCustomer: bool, rates: map<string, real>, goldRateText: string)
      requires RateOf(rates, DefaultMetal) > 0.0 ==> ParseFloat(goldRateText) == Some(RateOf(rates, DefaultMetal))
      ensures Valid()
      ensures data == FormData(hasCustomer, [], [], EmptyItemDraft, 0.0, 0.0, 0.0, [])
      ensures !locked && editingOldGoldId.None?
      ensures this.rates == rates && this.goldRateText == goldRateText
    {
      this.rates := rates;
      this.goldRateText := goldRateText;
      data := FormData(hasCustomer, [], [], EmptyItemDraft, 0.0, 0.0, 0.0, []);
      locked := false;
      oldGoldDraft := SettleDraft(EmptyOldGoldDraft, RateOf(rates, DefaultMetal), goldRateText);
      editingOldGoldId := None;
      new;
      SettleDraftIdempotent(EmptyOldGoldDraft, GoldRate(), goldRateText);
      assert LineTotals([]) == [];
    }

    /** An existing booking: its stored total and advance, and the total starts LOCKED. */
    constructor Edit(hasCustomer: bool, total: real, advance: real, deliveryDate: string,
                     rates: map<string, real>, goldRateText: string)
      requires RateOf(rates, DefaultMetal) > 0.0 ==> ParseFloat(goldRateText) == Some(RateOf(rates, DefaultMetal))
      ensures Valid()
      ensures data == FormData(hasCustomer, [], [], EmptyItemDraft, total, advance, AmountDue(total, advance), deliveryDate)
      ensures locked && editingOldGoldId.None?
      ensures this.rates == rates && this.goldRateText == goldRateText
    {
      this.rates := rates;
      this.goldRateText := goldRateText;
      data := FormData(hasCustomer, [], [], EmptyItemDraft, total, advance, AmountDue(total, advance), deliveryDate);
      locked := true;
      oldGoldDraft := SettleDraft(EmptyOldGoldDraft, RateOf(rates, DefaultMetal), goldRateText);
      editingOldGoldId := None;
      new;
      SettleDraftIdempotent(EmptyOldGoldDraft, GoldRate(), goldRateText);
    }

    /** Typing in the total: accepted text sets the total from `parseFloat(text) || 0` and LOCKS it. */
    method TypeTotal(text: string)
      requires Valid()
      modifies this
      ensures Valid()
      ensures IsNumericText(text) ==> locked && data == old(data).(totalAmount := ParseFloatOr0(text),
                amountDue := AmountDue(ParseFloatOr0(text), old(data).advanceAmount))
      ensures !IsNumericText(text) ==> locked == old(locked) && data == old(data)
      ensures oldGoldDraft == old(oldGoldDraft) && editingOldGoldId == old(editingOldGoldId)
    {
      if IsNumericText(text) {
        var total := ParseFloatOr0(text);
        data := data.(totalAmount := total, amountDue := AmountDue(total, data.advanceAmount));
        locked := true;
      }
    }

    /** Typing in the advance: accepted text sets it from `parseFloat(text) || 0`; the lock is untouched. */
    method TypeAdvance(text: string)
      requires Valid()
      modifies this
      ensures Valid()
      ensures IsNumericText(text) ==> data == old(data).(advanceAmount := ParseFloatOr0(text),
                amountDue := AmountDue(old(data).totalAmount, ParseFloatOr0(text)))
      ensures !IsNumericText(text) ==> data == old(data)
      ensures locked == old(locked) && oldGoldDraft == old(oldGoldDraft) && editingOldGoldId == old(editingOldGoldId)
    {
      if IsNumericText(text) {
        var advance := ParseFloatOr0(text);
        data := data.(advanceAmount := advance, amountDue := AmountDue(data.totalAmount, advance));
      }
    }

    /** "Unlock": back to AUTO, the total recomputed from the items. */
    method Unlock()
      requires Valid()
      modifies this
      ensures Valid()
      ensures !locked
      ensures data == old(data).(totalAmount := SumLineTotals(old(data).items),
                                 amountDue := AmountDue(SumLineTotals(old(data).items), old(data).advanceAmount))
      ensures oldGoldDraft == old(oldGoldDraft) && editingOldGoldId == old(editingOldGoldId)
    {
      var total := SumLineTotals(data.items);
      data := data.(totalAmount := total, amountDue := AmountDue(total, data.advanceAmount));
      locked := false;
    }

    /** The "add item" text fields. */
    method EnterItemDraft(d: ItemDraft)
      requires Valid()
      modifies this
      ensures Valid()
      ensures data == old(data).(itemDraft := d)
      ensures locked == old(locked) && oldGoldDraft == old(oldGoldDraft) && editingOldGoldId == old(editingOldGoldId)
    {
      data := data.(itemDraft := d);
    }

    /** The metal select: sets the metal type and fills in its usual purity. */
    method SelectItemMetal(metal: string)
      requires Valid()
      modifies this
      ensures Valid()
      ensures data == old(data).(itemDraft := old(data).itemDraft.(metalType := metal, purity := DefaultItemPurity(metal)))
      ensures locked == old(locked) && oldGoldDraft == old(oldGoldDraft) && editingOldGoldId == old(editingOldGoldId)
    {
      data := data.(itemDraft := data.itemDraft.(metalType := metal, purity := DefaultItemPurity(metal)));
    }

    /**
      "Add item": a draft with a name, a positive weight and a purity appends one
      item and clears the draft; the total follows the items unless LOCKED.
      A refused draft changes nothing.
    */
    method AddGoldItem(now: int)
      requires Valid()
      modifies this
      ensures Valid()
      ensures CheckItemDraft(old(data).itemDraft).Some? ==> data == old(data)
      ensures CheckItemDraft(old(data).itemDraft).None? ==>
        var items := old(data).items + [NewGoldItem(old(data).itemDraft, rates, now, |old(data).items|)];
        var total := if locked then old(data).totalAmount else SumLineTotals(items);
        data == old(data).(items := items, totalAmount := total,
                           amountDue := AmountDue(total, old(data).advanceAmount), itemDraft := EmptyItemDraft)
      ensures locked == old(locked) && oldGoldDraft == old(oldGoldDraft) && editingOldGoldId == old(editingOldGoldId)
    {
      if CheckItemDraft(data.itemDraft).Some? {
        return;
      }
      var item := NewGoldItem(data.itemDraft, rates, now, |data.items|);
      var fromItems := SumLineTotals(data.items) + item.lineTotal;
      SumLineTotalsAppend(data.items, item);
      var total := if locked then data.totalAmount else fromItems;
      data := data.(items := data.items + [item], totalAmount := total,
                    amountDue := AmountDue(total, data.advanceAmount), itemDraft := EmptyItemDraft);
    }

    /** "Remove item" at a position: the others keep their order and serial numbers; the total follows unless LOCKED. */
    method RemoveGoldItem(index: int)
      requires Valid()
      modifies this
      ensures Valid()
      ensures var items := RemoveAt(old(data).items, index);
        var total := if locked then old(data).totalAmount else SumLineTotals(items);
        data == old(data).(items := items, totalAmount := total, amountDue := AmountDue(total, old(data).advanceAmount))
      ensures locked == old(locked) && oldGoldDraft == old(oldGoldDraft) && editingOldGoldId == old(editingOldGoldId)
    {
      var items := RemoveAt(data.items, index);
      var total := if locked then data.totalAmount else SumLineTotals(items);
      data := data.(items := items, totalAmount := total, amountDue := AmountDue(total, data.advanceAmount));
    }

    /** Typing in the old-gold weight or rate: accepted text is stored and the effect settles the draft. */
    method TypeOldGoldInputs(weightText: string, rateText: string)
      requires Valid()
      modifies this
      ensures Valid()
      ensures var w := if IsNumericText(weightText) then weightText else old(oldGoldDraft).weightInput;
        var r := if IsNumericText(rateText) then rateText else old(oldGoldDraft).rateInput;
        oldGoldDraft == SettleDraft(old(oldGoldDraft).(weightInput := w, rateInput := r), GoldRate(), goldRateText)
      ensures data == old(data) && locked == old(locked) && editingOldGoldId == old(editingOldGoldId)
    {
      var w := if IsNumericText(weightText) then weightText else oldGoldDraft.weightInput;
      var r := if IsNumericText(rateText) then rateText else oldGoldDraft.rateInput;
      var d := oldGoldDraft.(weightInput := w, rateInput := r);
      oldGoldDraft := SettleDraft(d, GoldRate(), goldRateText);
      SettleDraftIdempotent(d, GoldRate(), goldRateText);
    }

    /** The old-gold purity, HSN code and description fields. */
    method EnterOldGoldDetails(purity: string, hsnCode: string, particulars: string)
      requires Valid()
      modifies this
      ensures Valid()
      ensures oldGoldDraft == old(oldGoldDraft).(purity := purity, hsnCode := hsnCode, particulars := particulars)
      ensures data == old(data) && locked == old(locked) && editingOldGoldId == old(editingOldGoldId)
    {
      oldGoldDraft := oldGoldDraft.(purity := purity, hsnCode := hsnCode, particulars := particulars);
    }

    /** The draft cleared, with the effect settled on it. */
    function ClearedDraft(): OldGoldDraft
      reads this
    {
      SettleDraft(EmptyOldGoldDraft, GoldRate(), goldRateText)
    }

    /**
      "Add old gold": unless the weight is refused, one entry with the id
      `String(now)` is appended and the draft is cleared.
    */
    method AddOldGold(now: int)
      requires Valid()
      modifies this
      ensures Valid()
      ensures WeightRejected(old(oldGoldDraft).weightInput) ==> data == old(data) && oldGoldDraft == old(oldGoldDraft)
      ensures !WeightRejected(old(oldGoldDraft).weightInput) ==>
        && data == old(data).(oldGold := old(data).oldGold + [EntryOfDraft(old(oldGoldDraft), Some(IntToString(now)))])
        && oldGoldDraft == ClearedDraft()
      ensures locked == old(locked) && editingOldGoldId == old(editingOldGoldId)
    {
      if WeightRejected(oldGoldDraft.weightInput) {
        return;
      }
      var e := EntryOfDraft(oldGoldDraft, Some(IntToString(now)));
      data := data.(oldGold := data.oldGold + [e]);
      oldGoldDraft := ClearedDraft();
      SettleDraftIdempotent(EmptyOldGoldDraft, GoldRate(), goldRateText);
    }

    /** "Edit" on an entry: its fields are loaded into the draft and it becomes the entry being edited. */
    method EditOldGold(id: string)
      requires Valid()
      modifies this
      ensures Valid()
      ensures match FindById(old(data).oldGold, id)
        case None => oldGoldDraft == old(oldGoldDraft) && editingOldGoldId == old(editingOldGoldId)
        case Some(k) =>
          && oldGoldDraft == SettleDraft(DraftOfEntry(old(data).oldGold[k]), GoldRate(), goldRateText)
          && editingOldGoldId == Some(id)
      ensures data == old(data) && locked == old(locked)
    {
      var k := FindById(data.oldGold, id);
      if k.Some? {
        var d := DraftOfEntry(data.oldGold[k.value]);
        oldGoldDraft := SettleDraft(d, GoldRate(), goldRateText);
        SettleDraftIdempotent(d, GoldRate(), goldRateText);
        editingOldGoldId := Some(id);
      }
    }

    /**
      "Update": with an entry being edited and an accepted weight, every entry
      carrying that id takes the draft's fields (keeping its id); the others are
      untouched. The draft is cleared and nothing is being edited afterwards.
    */
    method UpdateOldGold()
      requires Valid()
      modifies this
      ensures Valid()
      ensures (old(editingOldGoldId).None? || WeightRejected(old(oldGoldDraft).weightInput)) ==>
        data == old(data) && oldGoldDraft == old(oldGoldDraft) && editingOldGoldId == old(editingOldGoldId)
      ensures (old(editingOldGoldId).Some? && !WeightRejected(old(oldGoldDraft).weightInput)) ==>
        && data == old(data).(oldGold := ReplaceById(old(data).oldGold, old(editingOldGoldId).value, old(oldGoldDraft)))
        && oldGoldDraft == ClearedDraft() && editingOldGoldId.None?
      ensures locked == old(locked)
    {
      if editingOldGoldId.None? || WeightRejected(oldGoldDraft.weightInput) {
        return;
      }
      data := data.(oldGold := ReplaceById(data.oldGold, editingOldGoldId.value, oldGoldDraft));
      oldGoldDraft := ClearedDraft();
      SettleDraftIdempotent(EmptyOldGoldDraft, GoldRate(), goldRateText);
      editingOldGoldId := None;
    }

    /** "Cancel" while editing: the draft is cleared and nothing is being edited. */
    method CancelEditOldGold()
      requires Valid()
      modifies this
      ensures Valid()
      ensures oldGoldDraft == ClearedDraft() && editingOldGoldId.None?
      ensures data == old(data) && locked == old(locked)
    {
      oldGoldDraft := ClearedDraft();
      SettleDraftIdempotent(EmptyOldGoldDraft, GoldRate(), goldRateText);
      editingOldGoldId := None;
    }

    /** "Delete" on an entry: every entry with that id goes, the rest stay in order. */
    method DeleteOldGold(id: string)
      requires Valid()
      modifies this
      ensures Valid()
      ensures data == old(data).(oldGold := WithoutId(old(data).oldGold, id))
      ensures locked == old(locked) && oldGoldDraft == old(oldGoldDraft) && editingOldGoldId == old(editingOldGoldId)
    {
      data := data.(oldGold := WithoutId(data.oldGold, id));
    }

    /**
      Submit: a booking the gate refuses changes nothing, and neither does a
      new booking with an item the create path refuses (the error is thrown
      before any old gold is saved and before the form is reset). Otherwise
      the old-gold entries are saved with the intended id rule (on edit, after
      the stale rows of the bill are deleted; an edited booking without a bill
      saves none), and the form is cleared back to a new, unlocked booking.
    */
    method Submit(store: Store, mode: SubmitMode)
      requires Valid() && store.Valid()
      modifies this, store
      ensures Valid() && store.Valid()
      ensures ValidateForm(old(data), old(locked)).Some? || (mode.CreateWithBill? && FirstBadItem(old(data).items).Some?) ==>
        && data == old(data) && locked == old(locked) && oldGoldDraft == old(oldGoldDraft)
        && editingOldGoldId == old(editingOldGoldId)
        && store.rows == old(store.rows) && store.nextId == old(store.nextId)
      ensures ValidateForm(old(data), old(locked)).None? && (mode.CreateWithBill? ==> FirstBadItem(old(data).items).None?) ==>
        && data == FormData(false, [], [], EmptyItemDraft, 0.0, 0.0, 0.0, [])
        && !locked && oldGoldDraft == ClearedDraft() && editingOldGoldId.None?
        && Table(store.rows, store.nextId) == match mode
          case CreateWithBill(b) => UpsertAll(Table(old(store.rows), old(store.nextId)), b, PersistedId, {}, old(data).oldGold)
          case EditBooking(None) => Table(old(store.rows), old(store.nextId))
          case EditBooking(Some(b)) => AfterEdit(old(store.rows), old(store.nextId), b, PersistedId, old(data).oldGold)
    {
      if ValidateForm(data, locked).Some? {
        return;
      }
      match mode {
        case CreateWithBill(b) =>
          if FirstBadItem(data.items).Some? {
            return;
          }
          SaveOnCreate(store, b, PersistedId, data.oldGold);
        case EditBooking(None) =>
        case EditBooking(Some(b)) =>
          ReconcileOnEdit(store, b, PersistedId, data.oldGold);
      }
      data := FormData(false, [], [], EmptyItemDraft, 0.0, 0.0, 0.0, []);
      locked := false;
      oldGoldDraft := ClearedDraft();
      SettleDraftIdempotent(EmptyOldGoldDraft, GoldRate(), goldRateText);
      editingOldGoldId := None;
      assert LineTotals([]) == [];
    }
  }
}
