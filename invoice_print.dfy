/**
  The helpers of the printed invoice: the display name of a metal, the rate
  lines for the metals on the bill, and the total of the payments.
*/
module InvoicePrint {
  import opened Basics
  import opened Text
  import opened JsNum

  /** The part of a bill line the rate lines look at. */
  datatype BillItem = BillItem(itemName: string, metalType: Option<string>)

  /** One printed rate line. */
  datatype MetalRate = MetalRate(metalType: string, metalName: string, rate: real)

  /** One payment as entered: the amount is the text typed. */
  datatype Payment = Payment(kind: string, amount: string, reference: string)

  // ---------------------------------------------------------------------------
  // Metal names

  /** `getMetalName`: the six known metal types have fixed names, any other is shown in capitals. */
  function MetalName(metalType: string): (r: string)
    ensures metalType == "gold" ==> r == "Gold"
    ensures metalType == "gold_916" ==> r == "Gold (22k)"
    ensures metalType == "gold_750" ==> r == "Gold (18k)"
    ensures metalType == "silver_92" ==> r == "Silver (92.5%)"
    ensures metalType == "silver_70" ==> r == "Silver (70%)"
    ensures metalType == "selam_silver" ==> r == "Selam Silver"
    ensures metalType !in {"gold", "gold_916", "gold_750", "silver_92", "silver_70", "selam_silver"} ==> r == ToUpper(metalType)
  {
    match metalType
    case "gold" => "Gold"
    case "gold_916" => "Gold (22k)"
    case "gold_750" => "Gold (18k)"
    case "silver_92" => "Silver (92.5%)"
    case "silver_70" => "Silver (70%)"
    case "selam_silver" => "Selam Silver"
    case _ => ToUpper(metalType)
  }

  // ---------------------------------------------------------------------------
  // The metals of a bill

  /** The metal types the lines carry, in line order; a line without one (or with an empty one) is skipped. */
  function MetalTypes(items: seq<BillItem>): (r: seq<string>)
    ensures forall m :: m in r <==> exists i :: 0 <= i < |items| && items[i].metalType == Some(m) && m != []
  {
    if items == [] then []
    else
      var front := MetalTypes(items[..|items| - 1]);
      var last := items[|items| - 1];
      assert forall i :: 0 <= i < |items| - 1 ==> items[..|items| - 1][i] == items[i];
      if last.metalType.Some? && last.metalType.value != [] then front + [last.metalType.value] else front
  }

  /** The distinct elements of `xs`, each where it first occurs: what a `Set` filled in order yields. */
  function FirstSeen(xs: seq<string>): seq<string>
  {
    if xs == [] then []
    else
      var front := FirstSeen(xs[..|xs| - 1]);
      if xs[|xs| - 1] in front then front else front + [xs[|xs| - 1]]
  }

  /** Where `x` first occurs in `xs`. */
  function FirstIndex(xs: seq<string>, x: string): (r: nat)
    requires x in xs
    ensures r < |xs| && xs[r] == x && x !in xs[..r]
  {
    if xs[0] == x then 0 else 1 + FirstIndex(xs[1..], x)
  }

  /** No element twice. */
  predicate Distinct(xs: seq<string>)
  {
    forall i, j :: 0 <= i < j < |xs| ==> xs[i] != xs[j]
  }

  /**
    `FirstSeen(xs)` holds every element of `xs` once and nothing else, ordered
    by where each first occurs in `xs`.
  */
  lemma {:induction false} FirstSeenProperties(xs: seq<string>)
    ensures forall x :: x in FirstSeen(xs) <==> x in xs
    ensures Distinct(FirstSeen(xs))
    ensures forall i, j :: 0 <= i < j < |FirstSeen(xs)| ==> FirstIndex(xs, FirstSeen(xs)[i]) < FirstIndex(xs, FirstSeen(xs)[j])
  {
    if xs != [] {
      var n := |xs| - 1;
      var init := xs[..n];
      var front := FirstSeen(init);
      FirstSeenProperties(init);
      assert xs == init + [xs[n]];
      assert forall x :: x in xs <==> x in init || x == xs[n];
      forall x | x in init ensures FirstIndex(xs, x) == FirstIndex(init, x) {
        FirstIndexOfPrefix(init, xs[n], x);
      }
      if xs[n] !in front {
        var r := front + [xs[n]];
        assert FirstSeen(xs) == r;
        assert xs[n] !in init;
        FirstIndexOfLast(init, xs[n]);
        forall i | 0 <= i < |front| ensures FirstIndex(xs, r[i]) < FirstIndex(xs, xs[n]) {
          assert r[i] == front[i] && front[i] in init;
        }
      }
    }
  }

  lemma {:induction false} FirstIndexOfPrefix(init: seq<string>, last: string, x: string)
    requires x in init
    ensures x in init + [last] && FirstIndex(init + [last], x) == FirstIndex(init, x)
  {
    var xs := init + [last];
    if init[0] != x {
      assert xs[1..] == init[1..] + [last];
      FirstIndexOfPrefix(init[1..], last, x);
    }
  }

  lemma FirstIndexOfLast(init: seq<string>, last: string)
    requires last !in init
    ensures FirstIndex(init + [last], last) == |init|
  {
    var xs := init + [last];
    assert xs[..|init|] == init && xs[|init|] == last;
  }

  /**
    The loop of `getMetalRates` that fills the set of metals, item by item:
    it yields the metal types of the lines, each once, in first-seen order.
  */
  method UniqueMetals(items: seq<BillItem>) returns (metals: seq<string>)
    ensures metals == FirstSeen(MetalTypes(items))
  {
    metals := [];
    var i := 0;
    while i < |items|
      invariant 0 <= i <= |items|
      invariant metals == FirstSeen(MetalTypes(items[..i]))
    {
      var item := items[i];
      assert items[..i + 1][..i] == items[..i];
      if item.metalType.Some? && item.metalType.value != [] && item.metalType.value !in metals {
        metals := metals + [item.metalType.value];
      }
      i := i + 1;
    }
    assert items[..i] == items;
  }

  /** `allMetalRates[m] || 0` */
  function RateOf(rates: map<string, real>, m: string): real
  {
    if m in rates then rates[m] else 0.0
  }

  /** The rate line of every metal, in order, keeping those with a positive rate. */
  function RateLines(metals: seq<string>, rates: map<string, real>): (r: seq<MetalRate>)
    ensures forall k :: 0 <= k < |r| ==>
      (r[k].rate > 0.0 && r[k].rate == RateOf(rates, r[k].metalType) && r[k].metalName == MetalName(r[k].metalType) && r[k].metalType in metals)
  {
    if metals == [] then []
    else
      var line := MetalRate(metals[0], MetalName(metals[0]), RateOf(rates, metals[0]));
      var rest := RateLines(metals[1..], rates);
      if line.rate > 0.0 then
        var r := [line] + rest;
        assert forall k :: 1 <= k < |r| ==> r[k] == rest[k - 1];
        r
      else rest
  }

  /** Every metal with a positive rate gets its line. */
  lemma {:induction false} RateLinesComplete(metals: seq<string>, rates: map<string, real>, m: string)
    requires m in metals && RateOf(rates, m) > 0.0
    ensures exists k :: 0 <= k < |RateLines(metals, rates)| && RateLines(metals, rates)[k].metalType == m
  {
    var r := RateLines(metals, rates);
    if metals[0] == m {
      assert r[0].metalType == m;
    } else {
      RateLinesComplete(metals[1..], rates, m);
      var rest := RateLines(metals[1..], rates);
      var k :| 0 <= k < |rest| && rest[k].metalType == m;
      if RateOf(rates, metals[0]) > 0.0 {
        assert r[k + 1] == rest[k];
      } else {
        assert r[k] == rest[k];
      }
    }
  }

  /** The metal types of the rate lines are the positive-rate metals, in their order. */
  function TypesOf(lines: seq<MetalRate>): seq<string>
  {
    if lines == [] then [] else [lines[0].metalType] + TypesOf(lines[1..])
  }

  lemma {:induction false} RateLinesKeepOrder(metals: seq<string>, rates: map<string, real>)
    ensures IsSubsequence(TypesOf(RateLines(metals, rates)), metals)
  {
    if metals != [] {
      RateLinesKeepOrder(metals[1..], rates);
      var r := RateLines(metals, rates);
      if RateOf(rates, metals[0]) > 0.0 {
        assert r[1..] == RateLines(metals[1..], rates);
        assert TypesOf(r)[0] == metals[0] && TypesOf(r)[1..] == TypesOf(RateLines(metals[1..], rates));
      }
    }
  }

  /**
    `getMetalRates`: no rate table, no lines; otherwise one line per metal on
    the bill whose rate is positive.
  */
  method GetMetalRates(allMetalRates: Option<map<string, real>>, items: seq<BillItem>) returns (lines: seq<MetalRate>)
    ensures allMetalRates.None? ==> lines == []
    ensures allMetalRates.Some? ==> lines == RateLines(FirstSeen(MetalTypes(items)), allMetalRates.value)
  {
    if allMetalRates.None? {
      return [];
    }
    var metals := UniqueMetals(items);
    lines := RateLines(metals, allMetalRates.value);
  }

  /**
    What the rate lines show: each metal type on the bill at most once, in the
    order the bill first mentions it, with its own positive rate; and every
    metal on the bill with a positive rate has its line.
  */
  lemma {:induction false} RateLinesOfBill(rates: map<string, real>, items: seq<BillItem>)
    ensures var lines := RateLines(FirstSeen(MetalTypes(items)), rates);
      && Distinct(TypesOf(lines))
      && IsSubsequence(TypesOf(lines), FirstSeen(MetalTypes(items)))
      && (forall k :: 0 <= k < |lines| ==> lines[k].rate > 0.0 && lines[k].rate == RateOf(rates, lines[k].metalType))
      && (forall m :: m in MetalTypes(items) && RateOf(rates, m) > 0.0 ==> exists k :: 0 <= k < |lines| && lines[k].metalType == m)
  {
    var metals := FirstSeen(MetalTypes(items));
    FirstSeenProperties(MetalTypes(items));
    RateLinesKeepOrder(metals, rates);
    SubsequenceOfDistinct(TypesOf(RateLines(metals, rates)), metals);
    forall m | m in MetalTypes(items) && RateOf(rates, m) > 0.0
      ensures exists k :: 0 <= k < |RateLines(metals, rates)| && RateLines(metals, rates)[k].metalType == m
    {
      RateLinesComplete(metals, rates, m);
    }
  }

  lemma {:induction false} SubsequenceOfDistinct(a: seq<string>, b: seq<string>)
    requires IsSubsequence(a, b) && Distinct(b)
    ensures Distinct(a) && forall x :: x in a ==> x in b
    decreases |b|
  {
    if b != [] {
      if a != [] && a[0] == b[0] && IsSubsequence(a[1..], b[1..]) {
        SubsequenceOfDistinct(a[1..], b[1..]);
        forall k | 1 <= k < |a| ensures a[k] != a[0] {
          assert a[k] == a[1..][k - 1] && a[k] in b[1..];
        }
        forall i, j | 0 < i < j < |a| ensures a[i] != a[j] {
          assert a[i] == a[1..][i - 1] && a[j] == a[1..][j - 1];
        }
        forall x | x in a ensures x in b {
          if x != a[0] {
            assert x in a[1..];
          }
        }
      } else {
        SubsequenceOfDistinct(a, b[1..]);
      }
    }
  }

  // ---------------------------------------------------------------------------
  // Payments

  /** The printed payment total: the amounts as `parseFloat` reads them, an unreadable one counting as 0. */
  function PaymentTotal(payments: seq<Payment>): real
  {
    if payments == [] then 0.0
    else PaymentTotal(payments[..|payments| - 1]) + ParseFloatOr0(payments[|payments| - 1].amount)
  }

  /** The total of two lists of payments is the sum of their totals. */
  lemma {:induction false} PaymentTotalAppend(a: seq<Payment>, b: seq<Payment>)
    ensures PaymentTotal(a + b) == PaymentTotal(a) + PaymentTotal(b)
    decreases |b|
  {
    if b == [] {
      assert a + b == a;
    } else {
      assert (a + b)[..|a + b| - 1] == a + b[..|b| - 1];
      PaymentTotalAppend(a, b[..|b| - 1]);
    }
  }

  /** A payment whose amount is not a number adds nothing. */
  lemma {:induction false} UnreadableAmountAddsNothing(a: seq<Payment>, p: Payment)
    requires ParseFloat(p.amount).None?
    ensures PaymentTotal(a + [p]) == PaymentTotal(a)
  {
    assert (a + [p])[..|a|] == a;
  }
}
