/**
  The standalone gold-exchange ledger page: the list of stored exchanges with
  its search and date filters and the two totals under it, and the form that
  records a new standalone exchange or edits one, writing to the
  `old_gold_exchanges` table.
*/
module GoldExchange {
  import opened Basics
  import opened Text
  import opened JsNum
  import opened Notes
  import opened ExchangeStore

  // ---------------------------------------------------------------------------
  // The list

  /**
    One exchange as the page loads it: the stored columns it shows, the bill
    and customer it joins (absent for a standalone exchange) and the moment it
    was created, in milliseconds.
  */
  datatype Listed = Listed(
    id: int,
    weight: Option<real>,
    totalValue: Option<real>,
    notes: Option<string>,
    billNo: Option<string>,
    customerName: Option<string>,
    customerPhone: Option<string>,
    createdAt: int)

  /** Milliseconds in a day: `setHours(23, 59, 59, 999)` moves the start of a day to its last millisecond. */
  const MsPerDay := 86_400_000

  /** The last millisecond of the day that starts at `dayStart`. */
  function EndOfDay(dayStart: int): (r: int)
    ensures dayStart <= r < dayStart + MsPerDay
  {
    dayStart + MsPerDay - 1
  }

  /**
    The search: bill number, customer name and notes compared without regard
    to case, the phone number as typed. A missing field is the empty text.
  */
  predicate MatchesSearch(e: Listed, term: string)
  {
    || ContainsIgnoringCase(e.billNo.GetOr(""), term)
    || ContainsIgnoringCase(e.customerName.GetOr(""), term)
    || Contains(e.customerPhone.GetOr(""), term)
    || ContainsIgnoringCase(e.notes.GetOr(""), term)
  }

  /**
    The filters the page applies, in its order: the search when a term is
    typed, then the start date, then the end date. `start` is the moment the
    start date begins and `endDay` the moment the end date begins, both taken
    in one time frame; `None` is an empty date field.
  */
  function ApplyFilters(xs: seq<Listed>, term: string, start: Option<int>, endDay: Option<int>): seq<Listed>
  {
    Until(Since(Search(xs, term), start), endDay)
  }

  /** `if (searchTerm) filtered = filtered.filter(...)` */
  function Search(xs: seq<Listed>, term: string): seq<Listed>
  {
    if term != [] then Filter(xs, e => MatchesSearch(e, term)) else xs
  }

  /** The start-date filter: created at or after the start. */
  function Since(xs: seq<Listed>, start: Option<int>): seq<Listed>
  {
    match start
    case None => xs
    case Some(s) => Filter(xs, (e: Listed) => e.createdAt >= s)
  }

  /** The end-date filter: created at or before the last millisecond of the end date. */
  function Until(xs: seq<Listed>, endDay: Option<int>): seq<Listed>
  {
    match endDay
    case None => xs
    case Some(d) => Filter(xs, (e: Listed) => e.createdAt <= EndOfDay(d))
  }

  /** Whether an exchange survives all three filters. */
  predicate Passes(e: Listed, term: string, start: Option<int>, endDay: Option<int>)
  {
    && (term == [] || MatchesSearch(e, term))
    && (start.None? || e.createdAt >= start.value)
    && (endDay.None? || e.createdAt < endDay.value + MsPerDay)
  }

  lemma {:induction false} FilterSame(xs: seq<Listed>, p: Listed -> bool, q: Listed -> bool)
    requires forall x :: q(x) == p(x)
    ensures Filter(xs, p) == Filter(xs, q)
  {
    if xs != [] {
      FilterSame(xs[1..], p, q);
    }
  }

  lemma {:induction false} SearchIsFilter(xs: seq<Listed>, term: string, q: Listed -> bool)
    requires forall x :: q(x) == (term == [] || MatchesSearch(x, term))
    ensures Search(xs, term) == Filter(xs, q)
  {
    if term == [] {
      FilterKeepsAll(xs, q);
    } else {
      FilterSame(xs, e => MatchesSearch(e, term), q);
    }
  }

  lemma {:induction false} SinceIsFilter(xs: seq<Listed>, start: Option<int>, q: Listed -> bool)
    requires forall x: Listed :: q(x) == (start.None? || x.createdAt >= start.value)
    ensures Since(xs, start) == Filter(xs, q)
  {
    match start
    case None => FilterKeepsAll(xs, q);
    case Some(s) => FilterSame(xs, (e: Listed) => e.createdAt >= s, q);
  }

  lemma {:induction false} UntilIsFilter(xs: seq<Listed>, endDay: Option<int>, q: Listed -> bool)
    requires forall x: Listed :: q(x) == (endDay.None? || x.createdAt < endDay.value + MsPerDay)
    ensures Until(xs, endDay) == Filter(xs, q)
  {
    match endDay
    case None => FilterKeepsAll(xs, q);
    case Some(d) => FilterSame(xs, (e: Listed) => e.createdAt <= EndOfDay(d), q);
  }

  /** The three filters in a row keep exactly the exchanges that pass all of them, in the order of the list. */
  lemma {:induction false} ApplyFiltersIsOneFilter(xs: seq<Listed>, term: string, start: Option<int>, endDay: Option<int>)
    ensures ApplyFilters(xs, term, start, endDay) == Filter(xs, e => Passes(e, term, start, endDay))
  {
    var q1 := (e: Listed) => term == [] || MatchesSearch(e, term);
    var q2 := (e: Listed) => start.None? || e.createdAt >= start.value;
    var q3 := (e: Listed) => endDay.None? || e.createdAt < endDay.value + MsPerDay;
    var q12 := (e: Listed) => q1(e) && q2(e);
    var all := (e: Listed) => Passes(e, term, start, endDay);
    SearchIsFilter(xs, term, q1);
    SinceIsFilter(Search(xs, term), start, q2);
    FilterTwice(xs, q1, q2, q12);
    UntilIsFilter(Since(Search(xs, term), start), endDay, q3);
    FilterTwice(xs, q12, q3, all);
  }

  /** The filtered list is the full list with some exchanges left out, and it holds exactly those that pass. */
  lemma {:induction false} FilteredIsSubsequence(xs: seq<Listed>, term: string, start: Option<int>, endDay: Option<int>)
    ensures IsSubsequence(ApplyFilters(xs, term, start, endDay), xs)
    ensures forall e :: e in ApplyFilters(xs, term, start, endDay) <==> e in xs && Passes(e, term, start, endDay)
  {
    ApplyFiltersIsOneFilter(xs, term, start, endDay);
    FilterIsSubsequence(xs, e => Passes(e, term, start, endDay));
  }

  /** With no search term and no dates, the whole list is shown. */
  lemma {:induction false} NoCriteriaShowsAll(xs: seq<Listed>)
    ensures ApplyFilters(xs, "", None, None) == xs
  {
  }

  /**
    The end date includes the whole of that day: an exchange passes the end
    filter exactly when it was made before the following day begins.
  */
  lemma EndDateIsInclusive(e: Listed, endDay: int)
    ensures e.createdAt <= EndOfDay(endDay) <==> e.createdAt < endDay + MsPerDay
  {
  }

  /** An empty search term is not a filter; any other term filters by `MatchesSearch`. */
  lemma {:induction false} SearchFilterMeaning(xs: seq<Listed>, term: string)
    ensures forall e :: e in ApplyFilters(xs, term, None, None) <==> e in xs && (term == [] || MatchesSearch(e, term))
  {
    FilteredIsSubsequence(xs, term, None, None);
  }

  // ---------------------------------------------------------------------------
  // Totals

  /** `totalExchanged`: the sum of the exchange values, a missing value counting as 0. */
  function TotalExchanged(xs: seq<Listed>): real
  {
    if xs == [] then 0.0 else xs[0].totalValue.GetOr(0.0) + TotalExchanged(xs[1..])
  }

  /** `totalWeight`: the sum of the weights, a missing weight counting as 0. */
  function TotalWeight(xs: seq<Listed>): real
  {
    if xs == [] then 0.0 else xs[0].weight.GetOr(0.0) + TotalWeight(xs[1..])
  }

  /**
    The totals are additive: the exchanges a filter keeps and those it leaves
    out together account for the totals of the whole list.
  */
  lemma {:induction false} TotalsSplitByFilter(xs: seq<Listed>, p: Listed -> bool, notP: Listed -> bool)
    requires forall x :: notP(x) == !p(x)
    ensures TotalExchanged(Filter(xs, p)) + TotalExchanged(Filter(xs, notP)) == TotalExchanged(xs)
    ensures TotalWeight(Filter(xs, p)) + TotalWeight(Filter(xs, notP)) == TotalWeight(xs)
  {
    if xs != [] {
      TotalsSplitByFilter(xs[1..], p, notP);
      var kept := Filter(xs, p);
      var dropped := Filter(xs, notP);
      if p(xs[0]) {
        assert kept[0] == xs[0] && kept[1..] == Filter(xs[1..], p);
        assert dropped == Filter(xs[1..], notP);
      } else {
        assert dropped[0] == xs[0] && dropped[1..] == Filter(xs[1..], notP);
        assert kept == Filter(xs[1..], p);
      }
    }
  }

  /** Exchanges with nothing recorded add nothing to the totals. */
  lemma {:induction false} MissingValuesCountAsZero(xs: seq<Listed>, e: Listed)
    requires e.totalValue.None? && e.weight.None?
    ensures TotalExchanged([e] + xs) == TotalExchanged(xs)
    ensures TotalWeight([e] + xs) == TotalWeight(xs)
  {
    assert ([e] + xs)[1..] == xs;
  }

  // ---------------------------------------------------------------------------
  // The form

  /** What the exchange form holds when it is submitted. */
  datatype ExchangeInput = ExchangeInput(
    particulars: string,
    hsnCode: string,
    weightInput: string,
    purity: string,
    rateInput: string)

  datatype SubmitOutcome = InvalidWeight | InvalidRate | Created(id: int) | Updated(id: int)

  /**
    The check as the page writes it, `!text || parseFloat(text) <= 0`.
    `NaN <= 0` is false, so a text such as "-" that does not parse passes it.
  */
  predicate RejectedAsWritten(text: string)
  {
    text == [] || (ParseFloat(text).Some? && ParseFloat(text).value <= 0.0)
  }

  /** The check as intended: the text must denote a positive number. */
  predicate Rejected(text: string)
  {
    !(ParseFloat(text).Some? && ParseFloat(text).value > 0.0)
  }

  /** "-" is accepted by the input's pattern and passes the written check, yet is not a number. */
  lemma {:induction false} DashPassesWrittenCheck()
    ensures IsNumericText("-") && !RejectedAsWritten("-") && ParseFloat("-").None?
  {
    var s := "-";
    assert |s| == 1 && s[0] == '-';
    assert !IsSpace(s[0]);
    assert TrimStart(s) == s;
    assert s[1..] == [];
    assert SplitSign(s) == (true, s[1..]);
    assert LeadingDigits(s[1..], 10) == [];
  }

  /** The intended check rejects what the written one rejects, and in addition exactly the texts that are not numbers. */
  lemma RejectedExactly(text: string)
    ensures Rejected(text) <==> RejectedAsWritten(text) || ParseFloat(text).None?
  {
    if text == [] {
      assert TrimStart(text) == [];
    }
  }

  /** The weight or rate a text that passed the check denotes. */
  function PositiveValue(text: string): (r: real)
    requires !Rejected(text)
    ensures r > 0.0 && ParseFloat(text) == Some(r)
  {
    ParseFloat(text).value
  }

  /** `formData.hsn_code || '7113'` */
  function HsnColumn(input: ExchangeInput): (r: string)
    ensures r != []
    ensures input.hsnCode != [] ==> r == input.hsnCode
    ensures input.hsnCode == [] ==> r == DefaultHsn
  {
    if input.hsnCode != [] then input.hsnCode else DefaultHsn
  }

  /** The columns an edit writes for a weight and rate that passed the checks, `hsn_code` included. */
  function ExchangePatch(input: ExchangeInput, weight: real, rate: real): Patch
  {
    Patch(weight, NullIfEmpty(input.purity), rate, weight * rate,
          EncodeNotes(input.particulars, input.hsnCode), Some(HsnColumn(input)))
  }

  /** The row a new standalone exchange is stored as: the same columns, and no bill. */
  function NewExchange(input: ExchangeInput, weight: real, rate: real): ExchangeRow
  {
    ExchangeRow(None, weight, NullIfEmpty(input.purity), rate, weight * rate,
                EncodeNotes(input.particulars, input.hsnCode), Some(HsnColumn(input)))
  }

  /**
    A stored standalone exchange has no bill, the positive weight and rate read
    from the form, a value equal to weight times rate, and an HSN code.
  */
  lemma StoredExchange(input: ExchangeInput)
    requires !Rejected(input.weightInput) && !Rejected(input.rateInput)
    ensures NewExchange(input, PositiveValue(input.weightInput), PositiveValue(input.rateInput)).billId.None?
    ensures Some(NewExchange(input, PositiveValue(input.weightInput), PositiveValue(input.rateInput)).weight) == ParseFloat(input.weightInput)
    ensures Some(NewExchange(input, PositiveValue(input.weightInput), PositiveValue(input.rateInput)).ratePerGram) == ParseFloat(input.rateInput)
    ensures NewExchange(input, PositiveValue(input.weightInput), PositiveValue(input.rateInput)).totalValue
         == PositiveValue(input.weightInput) * PositiveValue(input.rateInput) > 0.0
    ensures NewExchange(input, PositiveValue(input.weightInput), PositiveValue(input.rateInput)).hsnCode == Some(HsnColumn(input))
  {
    PositiveProduct(PositiveValue(input.weightInput), PositiveValue(input.rateInput));
  }

  lemma PositiveProduct(a: real, b: real)
    requires a > 0.0 && b > 0.0
    ensures a * b > 0.0
  {
  }

  /**
    Submitting the form: a weight that is not a positive number, then a rate
    that is not one, stops it with nothing written; otherwise the exchange being
    edited is updated, or a new standalone exchange is inserted.
  */
  method Submit(store: Store, input: ExchangeInput, editing: Option<int>) returns (outcome: SubmitOutcome)
    requires store.Valid()
    modifies store
    ensures store.Valid()
    ensures Rejected(input.weightInput) ==> outcome == InvalidWeight
    ensures !Rejected(input.weightInput) && Rejected(input.rateInput) ==> outcome == InvalidRate
    ensures outcome.InvalidWeight? || outcome.InvalidRate? ==> store.rows == old(store.rows) && store.nextId == old(store.nextId)
    ensures outcome.Updated? ==>
      && editing == Some(outcome.id)
      && store.rows == UpdateRow(old(store.rows), outcome.id, ExchangePatch(input, PositiveValue(input.weightInput), PositiveValue(input.rateInput))) && store.nextId == old(store.nextId)
    ensures outcome.Created? ==>
      && editing.None? && outcome.id !in old(store.rows)
      && store.rows == old(store.rows)[outcome.id := NewExchange(input, PositiveValue(input.weightInput), PositiveValue(input.rateInput))] && store.nextId == old(store.nextId) + 1
    ensures !Rejected(input.weightInput) && !Rejected(input.rateInput) ==>
      if editing.Some? then outcome.Updated? else outcome.Created?
  {
    if Rejected(input.weightInput) {
      return InvalidWeight;
    }
    if Rejected(input.rateInput) {
      return InvalidRate;
    }
    match editing
    case Some(id) =>
      store.Update(id, ExchangePatch(input, PositiveValue(input.weightInput), PositiveValue(input.rateInput)));
      outcome := Updated(id);
    case None =>
      var id := store.Insert(NewExchange(input, PositiveValue(input.weightInput), PositiveValue(input.rateInput)));
      outcome := Created(id);
  }

  /** An edit leaves every other exchange as it was, and keeps the edited one's bill. */
  lemma UpdateTouchesOnlyItsRow(rows: map<int, ExchangeRow>, id: int, input: ExchangeInput, weight: real, rate: real)
    ensures UpdateRow(rows, id, ExchangePatch(input, weight, rate)).Keys == rows.Keys
    ensures forall k :: k in rows && k != id ==> UpdateRow(rows, id, ExchangePatch(input, weight, rate))[k] == rows[k]
    ensures id in rows ==> UpdateRow(rows, id, ExchangePatch(input, weight, rate))[id].billId == rows[id].billId
    ensures id in rows ==> UpdateRow(rows, id, ExchangePatch(input, weight, rate))[id].totalValue == weight * rate
  {
    var p := ExchangePatch(input, weight, rate);
    assert p.totalValue == weight * rate;
  }

  /** The notes stored for an exchange read back as the particulars and HSN code typed into the form. */
  lemma {:induction false} StoredNotesReadBack(input: ExchangeInput)
    requires !Rejected(input.weightInput) && !Rejected(input.rateInput)
    requires input.particulars != [] && Trim(input.particulars) == input.particulars && '|' !in input.particulars
    requires input.hsnCode != [] && Trim(input.hsnCode) == input.hsnCode && '|' !in input.hsnCode
    requires !Contains(input.particulars, HsnLabel)
    ensures ParseNotes(NewExchange(input, PositiveValue(input.weightInput), PositiveValue(input.rateInput)).notes) == NoteFields(input.particulars, input.hsnCode)
    ensures NewExchange(input, PositiveValue(input.weightInput), PositiveValue(input.rateInput)).hsnCode == Some(input.hsnCode)
  {
    ParseEncodeRoundTrip(input.particulars, input.hsnCode);
  }

  /** Delete on the list: the exchange chosen for deletion goes and nothing else; with none chosen nothing happens. */
  method Delete(store: Store, target: Option<int>)
    requires store.Valid()
    modifies store
    ensures store.Valid() && store.nextId == old(store.nextId)
    ensures target.None? ==> store.rows == old(store.rows)
    ensures target.Some? ==> store.rows.Keys == old(store.rows).Keys - {target.value}
    ensures forall k :: k in store.rows ==> k in old(store.rows) && store.rows[k] == old(store.rows)[k]
  {
    if target.Some? {
      store.Delete({target.value});
    }
  }
}
