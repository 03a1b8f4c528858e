/**
  The purchase bill ("pink slip") for old gold bought from a customer: the
  item entry row with its purity-driven rate, the list of items with their
  taxes, and the daily sequential bill number.
*/
module PurchaseBilling {
  import opened Basics
  import opened Text
  import opened JsNum

  /** One line of the slip; `amount` is weight times rate. */
  datatype PurchaseItem = PurchaseItem(
    id: string,
    hsnCode: string,
    code: string,
    weight: real,
    purity: string,
    rate: real,
    amount: real)

  /** The entry row above the list. */
  datatype NewItem = NewItem(hsnCode: string, code: string, weight: real, purity: string, rate: real)

  /** The rates loaded when the page opens; a rate that is not set is 0. */
  datatype MetalRates = MetalRates(
    goldRate: real,
    gold916Rate: real,
    gold750Rate: real,
    silver92Rate: real,
    silver70Rate: real,
    selamSilverRate: real)

  const GstRate := 0.09

  // ---------------------------------------------------------------------------
  // Purity and rate

  /**
    The rate the purity select fills in: 22k / 91.6% takes the 91.6 gold rate,
    18k / 75% the 75 gold rate, 92.5% the 92.5 silver rate (each falling back to
    the plain gold rate when unset), 70% the 70 silver rate; any other choice
    keeps the rate already entered.
  */
  function RateForPurity(rates: MetalRates, purity: string, current: real): (r: real)
    ensures (purity == "22k" || purity == "91.6%") ==> r == OrElse(rates.gold916Rate, rates.goldRate)
    ensures (purity == "18k" || purity == "75%") ==> r == OrElse(rates.gold750Rate, rates.goldRate)
    ensures purity == "92.5%" ==> r == OrElse(rates.silver92Rate, rates.goldRate)
    ensures purity == "70%" ==> r == rates.silver70Rate
    ensures purity !in {"22k", "91.6%", "18k", "75%", "92.5%", "70%"} ==> r == current
  {
    if purity == "22k" || purity == "91.6%" then OrElse(rates.gold916Rate, rates.goldRate)
    else if purity == "18k" || purity == "75%" then OrElse(rates.gold750Rate, rates.goldRate)
    else if purity == "92.5%" then OrElse(rates.silver92Rate, rates.goldRate)
    else if purity == "70%" then rates.silver70Rate
    else current
  }

  /** A purity with a rate of its own falls back to the gold rate only when that rate is unset. */
  lemma RateFallsBackOnlyWhenUnset(rates: MetalRates, purity: string, current: real)
    requires purity in {"22k", "91.6%", "18k", "75%", "92.5%"}
    ensures var own := if purity in {"22k", "91.6%"} then rates.gold916Rate
                       else if purity in {"18k", "75%"} then rates.gold750Rate
                       else rates.silver92Rate;
      RateForPurity(rates, purity, current) == if own != 0.0 then own else rates.goldRate
  {
  }

  // ---------------------------------------------------------------------------
  // Totals

  /** `items.reduce((sum, item) => sum + item.amount, 0)` */
  function Subtotal(items: seq<PurchaseItem>): real
  {
    if items == [] then 0.0 else items[0].amount + Subtotal(items[1..])
  }

  function Cgst(items: seq<PurchaseItem>): real
  {
    Subtotal(items) * GstRate
  }

  function Sgst(items: seq<PurchaseItem>): real
  {
    Subtotal(items) * GstRate
  }

  function GrandTotal(items: seq<PurchaseItem>): real
  {
    Subtotal(items) + Cgst(items) + Sgst(items)
  }

  /** The two taxes are equal and the bill comes to 118% of the items. */
  lemma GrandTotalIsSubtotalPlusEighteenPercent(items: seq<PurchaseItem>)
    ensures Cgst(items) == Sgst(items)
    ensures GrandTotal(items) == Subtotal(items) * 1.18
  {
  }

  lemma {:induction false} SubtotalAppend(items: seq<PurchaseItem>, x: PurchaseItem)
    ensures Subtotal(items + [x]) == Subtotal(items) + x.amount
  {
    if items == [] {
      assert (items + [x])[1..] == [];
    } else {
      assert (items + [x])[1..] == items[1..] + [x];
      SubtotalAppend(items[1..], x);
    }
  }

  /** `item => item.id !== id` */
  function IdIsNot(id: string): PurchaseItem -> bool
  {
    (it: PurchaseItem) => it.id != id
  }

  /** `item => item.id === id` */
  function IdIs(id: string): PurchaseItem -> bool
  {
    (it: PurchaseItem) => it.id == id
  }

  /** `items.filter(item => item.id !== id)` */
  function WithoutId(items: seq<PurchaseItem>, id: string): seq<PurchaseItem>
  {
    Filter(items, IdIsNot(id))
  }

  /** Removing the items with an id takes exactly their amounts off the subtotal. */
  lemma {:induction false} SubtotalAfterRemove(items: seq<PurchaseItem>, id: string)
    ensures Subtotal(WithoutId(items, id)) + Subtotal(Filter(items, IdIs(id))) == Subtotal(items)
  {
    if items != [] {
      SubtotalAfterRemove(items[1..], id);
      var kept := WithoutId(items, id);
      var dropped := Filter(items, IdIs(id));
      if items[0].id != id {
        assert kept[0] == items[0] && kept[1..] == WithoutId(items[1..], id);
        assert dropped == Filter(items[1..], IdIs(id));
      } else {
        assert dropped[0] == items[0] && dropped[1..] == Filter(items[1..], IdIs(id));
        assert kept == WithoutId(items[1..], id);
      }
    }
  }

  // ---------------------------------------------------------------------------
  // Bill number

  const BillPrefix := "AM-PURCHASE-"

  /** The answer to "the latest purchase bill number of today". */
  datatype LatestBill =
    | Failed(nowMs: int)        // the lookup threw; the current time in milliseconds
    | NoBill                    // no bill today (or an empty number)
    | Latest(billNo: string)

  /** `String(n)` for `parseInt(lastPart) + 1`, where `NaN + 1` prints as "NaN". */
  function SequenceText(lastPart: string): string
  {
    match ParseInt(lastPart)
    case Some(n) => IntToString(n + 1)
    case None => "NaN"
  }

  /**
    `generatePurchaseBillNumber` for the day `today` (as "YYYYMMDD"): one more
    than the last '-'-separated part of today's latest number, zero-padded to
    four digits, or 0001 for the first bill of the day; a failed lookup falls
    back to the prefix and the current time.
  */
  function BillNumber(today: string, latest: LatestBill): string
  {
    match latest
    case Failed(nowMs) => BillPrefix + IntToString(nowMs)
    case NoBill => BillPrefix + today + "-" + "0001"
    case Latest(b) =>
      if b == [] then BillPrefix + today + "-" + "0001"
      else BillPrefix + today + "-" + PadStart(SequenceText(AfterLast(b, '-')), 4, '0')
  }

  /** The number of the `n`-th bill of the day, as the page writes it. */
  function NumberOfDay(today: string, n: nat): string
  {
    BillPrefix + today + "-" + PadStart(IntToString(n), 4, '0')
  }

  lemma {:induction false} AfterLastOfSuffix(prefix: string, s: string)
    requires '-' !in s
    ensures AfterLast(prefix + "-" + s, '-') == s
    decreases |s|
  {
    var t := prefix + "-" + s;
    if s == [] {
      assert t[|t| - 1] == '-';
    } else {
      assert t[|t| - 1] == s[|s| - 1];
      assert t[..|t| - 1] == prefix + "-" + s[..|s| - 1];
      AfterLastOfSuffix(prefix, s[..|s| - 1]);
    }
  }

  function Zeros(k: nat): (r: string)
    ensures |r| == k && forall i :: 0 <= i < k ==> r[i] == '0'
  {
    seq(k, _ => '0')
  }

  /** `String(n).padStart(4, '0')` is the decimal digits of `n` behind as many zeros as fill four places. */
  lemma {:induction false} PaddedDecimal(n: nat)
    ensures var d := IntToString(n);
      PadStart(d, 4, '0') == Zeros(|PadStart(d, 4, '0')| - |d|) + d
  {
    var d := IntToString(n);
    if |d| >= 4 {
      assert Zeros(0) + d == d;
    } else {
      assert Zeros(4 - |d|) == seq(4 - |d|, _ => '0');
    }
  }

  lemma {:induction false} NoDashInPaddedDecimal(k: nat, n: nat)
    ensures '-' !in Zeros(k) + IntToString(n)
  {
    var d := IntToString(n);
    assert d == DecimalString(n);
    var p := Zeros(k) + d;
    forall i | 0 <= i < |p| ensures p[i] != '-' {
      if i >= k {
        assert p[i] == d[i - k];
        assert IsDigit(d[i - k], 10);
      }
    }
  }

  /** The last part of a number of the day is its padded sequence, which `parseInt` reads back. */
  lemma {:induction false} SequenceOfNumberOfDay(today: string, n: nat)
    ensures AfterLast(NumberOfDay(today, n), '-') == PadStart(IntToString(n), 4, '0')
    ensures ParseInt(PadStart(IntToString(n), 4, '0')) == Some(n)
  {
    var d := IntToString(n);
    var p := PadStart(d, 4, '0');
    PaddedDecimal(n);
    NoDashInPaddedDecimal(|p| - |d|, n);
    AfterLastOfSuffix(BillPrefix + today, p);
    assert d == DecimalString(n);
    ParseZeroPaddedDecimal(Zeros(|p| - |d|), n);
  }

  /**
    The sequence read back from a number of the day is the one written into
    it, so the number after `NumberOfDay(today, n)` is `NumberOfDay(today, n + 1)`.
  */
  lemma {:induction false} NextNumberOfDay(today: string, n: nat)
    ensures BillNumber(today, Latest(NumberOfDay(today, n))) == NumberOfDay(today, n + 1)
  {
    var b := NumberOfDay(today, n);
    assert |b| > 0;
    SequenceOfNumberOfDay(today, n);
    assert SequenceText(AfterLast(b, '-')) == IntToString(n + 1);
  }

  /** The first bill of a day is number 0001, which is the first of the sequence. */
  lemma FirstNumberOfDay(today: string)
    ensures BillNumber(today, NoBill) == NumberOfDay(today, 1)
  {
    assert IntToString(1) == "1";
    assert PadStart("1", 4, '0') == "0001";
  }

  // ---------------------------------------------------------------------------
  // The slip

  /** A line as "add item" makes it: its amount is its weight times its rate, and neither is zero. */
  predicate WellFormed(it: PurchaseItem)
  {
    it.amount == it.weight * it.rate && it.weight != 0.0 && it.rate != 0.0
  }

  /** The line "add item" makes from the entry row, with the current time as its id. */
  function ItemOf(n: NewItem, now: int): (r: PurchaseItem)
    ensures n.weight != 0.0 && n.rate != 0.0 ==> WellFormed(r)
    ensures r.id == IntToString(now) && r.weight == n.weight && r.rate == n.rate && r.purity == n.purity
  {
    PurchaseItem(IntToString(now), n.hsnCode, n.code,
                 n.weight, n.purity, n.rate, n.weight * n.rate)
  }

  class PurchaseSlip {
    var items: seq<PurchaseItem>
    var newItem: NewItem
    var billNo: string
    const rates: MetalRates

    /** Every line's amount is its weight times its rate, and neither is zero. */
    ghost predicate Valid()
      reads this
    {
      forall i :: 0 <= i < |items| ==> WellFormed(items[i])
    }

    /** The entry row after an add: purity 92.5% and the loaded gold rate. */
    function ResetEntry(): (r: NewItem)
      reads this
      ensures r.purity == "92.5%" && r.rate == rates.goldRate && r.weight == 0.0
    {
      NewItem("", "", 0.0, "92.5%", rates.goldRate)
    }

    /** A fresh slip once the rates are loaded: no items, purity 22k at the gold rate, no bill number yet. */
    constructor (rates: MetalRates)
      ensures Valid()
      ensures this.rates == rates && items == [] && billNo == []
      ensures newItem == NewItem("", "", 0.0, "22k", rates.goldRate)
    {
      this.rates := rates;
      items := [];
      newItem := NewItem("", "", 0.0, "22k", rates.goldRate);
      billNo := [];
    }

    /** Typing a weight: `parseFloat(text) || 0`. */
    method TypeWeight(text: string)
      modifies this
      ensures newItem == old(newItem).(weight := ParseFloatOr0(text))
      ensures items == old(items) && billNo == old(billNo)
    {
      newItem := newItem.(weight := ParseFloatOr0(text));
    }

    /** Typing a rate: `parseFloat(text) || 0`. */
    method TypeRate(text: string)
      modifies this
      ensures newItem == old(newItem).(rate := ParseFloatOr0(text))
      ensures items == old(items) && billNo == old(billNo)
    {
      newItem := newItem.(rate := ParseFloatOr0(text));
    }

    /** Choosing a purity sets it and, for the known purities, the matching rate. */
    method SelectPurity(purity: string)
      modifies this
      ensures newItem == old(newItem).(purity := purity, rate := RateForPurity(rates, purity, old(newItem).rate))
      ensures items == old(items) && billNo == old(billNo)
    {
      newItem := newItem.(purity := purity, rate := RateForPurity(rates, purity, newItem.rate));
    }

    /**
      "Add item": with a non-zero weight and rate, one line is appended (id
      the current time, amount weight times rate) and the entry row is reset;
      otherwise nothing changes.
    */
    method AddItem(now: int)
      requires Valid()
      modifies this
      ensures Valid()
      ensures old(newItem).weight == 0.0 || old(newItem).rate == 0.0 ==> items == old(items) && newItem == old(newItem)
      ensures old(newItem).weight != 0.0 && old(newItem).rate != 0.0 ==>
        && items == old(items) + [ItemOf(old(newItem), now)]
        && newItem == ResetEntry()
      ensures billNo == old(billNo)
    {
      if newItem.weight != 0.0 && newItem.rate != 0.0 {
        items := items + [ItemOf(newItem, now)];
        newItem := ResetEntry();
      }
    }

    /** Removing by id drops every line with that id and keeps the others in order. */
    method RemoveItem(id: string)
      requires Valid()
      modifies this
      ensures Valid()
      ensures items == WithoutId(old(items), id)
      ensures IsSubsequence(items, old(items))
      ensures forall it :: it in items <==> it in old(items) && it.id != id
      ensures newItem == old(newItem) && billNo == old(billNo)
    {
      FilterIsSubsequence(items, IdIsNot(id));
      items := WithoutId(items, id);
      assert forall it :: IdIsNot(id)(it) == (it.id != id);
      forall i | 0 <= i < |items| ensures WellFormed(items[i]) {
        assert items[i] in old(items);
      }
    }

    /** The bill number is generated only while the slip has none. */
    method EnsureBillNo(today: string, latest: LatestBill)
      modifies this
      ensures old(billNo) == [] ==> billNo == BillNumber(today, latest)
      ensures old(billNo) != [] ==> billNo == old(billNo)
      ensures items == old(items) && newItem == old(newItem)
    {
      if billNo == [] {
        billNo := BillNumber(today, latest);
      }
    }
  }
}
