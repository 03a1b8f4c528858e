/**
  Saving the old-gold entries of an advance booking. On edit, the rows of the
  bill that the draft no longer lists are deleted; then every draft entry is
  either written over an existing row or inserted as a new row of the bill.

  The booking form decides "existing row" by whether the entry's id parses as
  an integer (`IdRule.NumericId`). A freshly added entry carries the temporary
  id `Date.now().toString()`, which also parses, so it is sent as an update of
  a row that does not exist and is never stored. `IdRule.PersistedId` is the
  intended rule: an entry is an existing row when its id is one of the ids
  read back from the bill.
*/
module Reconcile {
  import opened Basics
  import opened Text
  import opened JsNum
  import opened Notes
  import opened ExchangeStore

  /** A draft old-gold entry of the booking form. */
  datatype OldGoldEntry = OldGoldEntry(
    id: Option<string>,
    weight: real,
    weightInput: string,
    purity: string,
    rate: real,
    rateInput: string,
    totalValue: real,
    hsnCode: string,
    particulars: string)

  /** `og.id && !isNaN(parseInt(og.id))` */
  predicate HasNumericId(e: OldGoldEntry)
  {
    e.id.Some? && e.id.value != [] && ParsesAsInt(e.id.value)
  }

  /** `currentIds`: the ids of the draft entries that pass `HasNumericId`. */
  function DraftIds(draft: seq<OldGoldEntry>): (r: set<string>)
    ensures forall s :: s in r <==> exists i :: 0 <= i < |draft| && HasNumericId(draft[i]) && draft[i].id.value == s
  {
    set i | 0 <= i < |draft| && HasNumericId(draft[i]) :: draft[i].id.value
  }

  /** `existingIds`: the ids of the bill's rows, as strings. */
  function ExistingIds(rows: map<int, ExchangeRow>, billId: int): (r: set<string>)
    ensures forall k :: k in RowsOfBill(rows, billId) ==> IntToString(k) in r
    ensures forall s :: s in r <==> exists k :: k in RowsOfBill(rows, billId) && IntToString(k) == s
  {
    set k | k in RowsOfBill(rows, billId) :: IntToString(k)
  }

  /** `idsToDelete` after `parseInt`: the bill's rows whose id is not among the draft ids. */
  function StaleIds(rows: map<int, ExchangeRow>, billId: int, draft: seq<OldGoldEntry>): set<int>
  {
    set k | k in RowsOfBill(rows, billId) && IntToString(k) !in DraftIds(draft)
  }

  /** Which entries are written over an existing row. */
  datatype IdRule =
    | NumericId    // as the form does it: the id parses as an integer
    | PersistedId  // as intended: the id is one of the bill's stored ids

  /** The row id an entry is written over, or `None` when it is inserted. */
  function UpdateTarget(rule: IdRule, existing: set<string>, e: OldGoldEntry): Option<int>
  {
    match rule
    case NumericId => if HasNumericId(e) then ParseInt(e.id.value) else None
    case PersistedId => if e.id.Some? && e.id.value in existing then ParseInt(e.id.value) else None
  }

  /** The columns an update writes for an entry (no `hsn_code`). */
  function PatchOf(e: OldGoldEntry): Patch
  {
    Patch(e.weight, NullIfEmpty(e.purity), e.rate, e.totalValue, EncodeNotes(e.particulars, e.hsnCode), None)
  }

  /** The row an insert writes for an entry of bill `billId` (no `hsn_code`). */
  function NewRow(billId: int, e: OldGoldEntry): ExchangeRow
  {
    ExchangeRow(Some(billId), e.weight, NullIfEmpty(e.purity), e.rate, e.totalValue, EncodeNotes(e.particulars, e.hsnCode), None)
  }

  /** A stored row records entry `e` of bill `billId`. */
  predicate Records(row: ExchangeRow, billId: int, e: OldGoldEntry)
  {
    && row.billId == Some(billId)
    && row.weight == e.weight && row.purity == NullIfEmpty(e.purity)
    && row.ratePerGram == e.rate && row.totalValue == e.totalValue
    && row.notes == EncodeNotes(e.particulars, e.hsnCode)
  }

  /** The table as the loop sees it: the rows and the next id the store hands out. */
  datatype Table = Table(rows: map<int, ExchangeRow>, nextId: int)

  /** One step of the save loop. */
  function Upsert(t: Table, billId: int, rule: IdRule, existing: set<string>, e: OldGoldEntry): Table
  {
    match UpdateTarget(rule, existing, e)
    case Some(k) => Table(UpdateRow(t.rows, k, PatchOf(e)), t.nextId)
    case None => Table(t.rows[t.nextId := NewRow(billId, e)], t.nextId + 1)
  }

  /** The whole save loop, entry by entry in draft order. */
  function UpsertAll(t: Table, billId: int, rule: IdRule, existing: set<string>, es: seq<OldGoldEntry>): Table
  {
    if es == [] then t
    else Upsert(UpsertAll(t, billId, rule, existing, es[..|es| - 1]), billId, rule, existing, es[|es| - 1])
  }

  /** How many of the entries are inserted. */
  function InsertCount(rule: IdRule, existing: set<string>, es: seq<OldGoldEntry>): (r: nat)
    ensures r <= |es|
  {
    if es == [] then 0
    else InsertCount(rule, existing, es[..|es| - 1]) + (if UpdateTarget(rule, existing, es[|es| - 1]).None? then 1 else 0)
  }

  /** Whether some entry is written over row `k`. */
  predicate Targeted(rule: IdRule, existing: set<string>, es: seq<OldGoldEntry>, k: int)
  {
    exists i :: 0 <= i < |es| && UpdateTarget(rule, existing, es[i]) == Some(k)
  }

  /**
    The save loop of the booking form (both the create and the edit path):
    for each entry, an update of its row or an insert into the bill.
  */
  method SaveEntries(store: Store, billId: int, rule: IdRule, existing: set<string>, draft: seq<OldGoldEntry>)
    requires store.Valid()
    modifies store
    ensures store.Valid()
    ensures Table(store.rows, store.nextId) == UpsertAll(Table(old(store.rows), old(store.nextId)), billId, rule, existing, draft)
  {
    ghost var t0 := Table(store.rows, store.nextId);
    var i := 0;
    while i < |draft|
      invariant 0 <= i <= |draft|
      invariant store.Valid()
      invariant Table(store.rows, store.nextId) == UpsertAll(t0, billId, rule, existing, draft[..i])
    {
      var e := draft[i];
      var target := UpdateTarget(rule, existing, e);
      if target.Some? {
        store.Update(target.value, PatchOf(e));
      } else {
        var _ := store.Insert(NewRow(billId, e));
      }
      assert draft[..i + 1][..i] == draft[..i];
      i := i + 1;
    }
    assert draft[..i] == draft;
  }

  /** The table after the edit path: the stale rows deleted, then every entry saved. */
  function AfterEdit(rows: map<int, ExchangeRow>, nextId: int, billId: int, rule: IdRule, draft: seq<OldGoldEntry>): Table
  {
    UpsertAll(Table(DeleteRows(rows, StaleIds(rows, billId, draft)), nextId), billId, rule, ExistingIds(rows, billId), draft)
  }

  /**
    The edit path: read the ids of the bill's rows, delete those the draft no
    longer lists, then save every entry.
  */
  method ReconcileOnEdit(store: Store, billId: int, rule: IdRule, draft: seq<OldGoldEntry>)
    requires store.Valid()
    modifies store
    ensures store.Valid()
    ensures Table(store.rows, store.nextId) == AfterEdit(old(store.rows), old(store.nextId), billId, rule, draft)
  {
    var existing := ExistingIds(store.rows, billId);
    var stale := StaleIds(store.rows, billId, draft);
    if stale != {} {
      store.Delete(stale);
    } else {
      assert DeleteRows(store.rows, stale) == store.rows;
    }
    SaveEntries(store, billId, rule, existing, draft);
  }

  /** The create path: the bill is new, so it has no rows yet and nothing is deleted. */
  method SaveOnCreate(store: Store, billId: int, rule: IdRule, draft: seq<OldGoldEntry>)
    requires store.Valid()
    modifies store
    ensures store.Valid()
    ensures Table(store.rows, store.nextId) == UpsertAll(Table(old(store.rows), old(store.nextId)), billId, rule, {}, draft)
  {
    if |draft| > 0 {
      SaveEntries(store, billId, rule, {}, draft);
    }
  }

  // ---------------------------------------------------------------------------
  // The delete step

  /**
    Reconciliation deletes exactly the bill's rows whose id no draft entry with
    a numeric id carries; rows of other bills and standalone rows stay.
  */
  lemma StaleIdsExactly(rows: map<int, ExchangeRow>, billId: int, draft: seq<OldGoldEntry>, k: int)
    ensures k in StaleIds(rows, billId, draft)
        <==> (&& k in rows && rows[k].billId == Some(billId)
              && forall i :: 0 <= i < |draft| && HasNumericId(draft[i]) ==> draft[i].id.value != IntToString(k))
  {
  }

  /** A row the draft still lists by its id is never deleted. */
  lemma {:induction false} ListedRowsSurvive(rows: map<int, ExchangeRow>, billId: int, draft: seq<OldGoldEntry>, i: int, k: int)
    requires 0 <= i < |draft| && draft[i].id == Some(IntToString(k)) && k in rows
    ensures k in DeleteRows(rows, StaleIds(rows, billId, draft))
  {
    ParseIntOfIntToString(k);
    DecimalNotEmpty(k);
    assert HasNumericId(draft[i]);
    assert IntToString(k) in DraftIds(draft);
  }

  lemma DecimalNotEmpty(k: int)
    ensures IntToString(k) != []
  {
  }

  // ---------------------------------------------------------------------------
  // The save loop

  /** Each entry is either inserted (one fresh id) or written over a row (none): the id counter moves by the inserts. */
  lemma {:induction false} UpsertAllCounts(t: Table, billId: int, rule: IdRule, existing: set<string>, es: seq<OldGoldEntry>)
    requires forall k :: k in t.rows ==> k < t.nextId
    ensures var r := UpsertAll(t, billId, rule, existing, es);
      && r.nextId == t.nextId + InsertCount(rule, existing, es)
      && (forall k :: k in r.rows ==> k < r.nextId)
      && (forall k :: k in r.rows <==> k in t.rows || t.nextId <= k < r.nextId)
  {
    if es != [] {
      UpsertAllCounts(t, billId, rule, existing, es[..|es| - 1]);
    }
  }

  /** One step of the loop: a row it does not target is untouched, and a row it adds belongs to the bill. */
  lemma {:induction false} UpsertFrame(t: Table, billId: int, rule: IdRule, existing: set<string>, e: OldGoldEntry)
    requires forall k :: k in t.rows ==> k < t.nextId
    ensures var r := Upsert(t, billId, rule, existing, e);
      && (forall k :: k in t.rows && UpdateTarget(rule, existing, e) != Some(k) ==> k in r.rows && r.rows[k] == t.rows[k])
      && (forall k :: k in t.rows ==> k in r.rows && r.rows[k].billId == t.rows[k].billId)
      && (forall k :: k in r.rows && k !in t.rows ==> r.rows[k].billId == Some(billId))
  {
    match UpdateTarget(rule, existing, e)
    case Some(k) =>
    case None =>
      assert t.nextId !in t.rows;
  }

  /** Rows the draft does not name keep their contents; the rows the loop adds belong to the bill. */
  lemma {:induction false} UpsertAllFrame(t: Table, billId: int, rule: IdRule, existing: set<string>, es: seq<OldGoldEntry>)
    requires forall k :: k in t.rows ==> k < t.nextId
    ensures var r := UpsertAll(t, billId, rule, existing, es);
      && (forall k :: k in t.rows && !Targeted(rule, existing, es, k) ==> k in r.rows && r.rows[k] == t.rows[k])
      && (forall k :: k in t.rows ==> k in r.rows && r.rows[k].billId == t.rows[k].billId)
      && (forall k :: k in r.rows && k !in t.rows ==> r.rows[k].billId == Some(billId))
  {
    if es != [] {
      var front := es[..|es| - 1];
      UpsertAllFrame(t, billId, rule, existing, front);
      UpsertAllCounts(t, billId, rule, existing, front);
      UpsertFrame(UpsertAll(t, billId, rule, existing, front), billId, rule, existing, es[|es| - 1]);
      forall k | k in t.rows && !Targeted(rule, existing, es, k)
        ensures !Targeted(rule, existing, front, k) && UpdateTarget(rule, existing, es[|es| - 1]) != Some(k)
      {
        forall i | 0 <= i < |front| ensures UpdateTarget(rule, existing, front[i]) != Some(k) {
          assert front[i] == es[i];
        }
      }
    }
  }

  // ---------------------------------------------------------------------------
  // Where each entry ends up

  /** The row entry `j` is written to: its update target, or the fresh id it is inserted under. */
  function Slot(t: Table, rule: IdRule, existing: set<string>, es: seq<OldGoldEntry>, j: int): int
    requires 0 <= j < |es|
  {
    match UpdateTarget(rule, existing, es[j])
    case Some(k) => k
    case None => t.nextId + InsertCount(rule, existing, es[..j])
  }

  /** `s` is the id, as `String(id)`, of a row of the bill. */
  predicate IdOfBillRow(rows: map<int, ExchangeRow>, billId: int, s: string)
  {
    ParseInt(s).Some? && ParseInt(s).value in rows && rows[ParseInt(s).value].billId == Some(billId)
    && IntToString(ParseInt(s).value) == s
  }

  /** No two entries carry the same id. */
  predicate DistinctIds(es: seq<OldGoldEntry>)
  {
    forall i, j :: 0 <= i < j < |es| && es[i].id.Some? ==> es[i].id != es[j].id
  }

  /**
    With the intended rule, every entry is recorded in the row it is assigned:
    an entry whose id names a row of the bill overwrites that row, any other
    entry gets a fresh row of the bill.
  */
  lemma {:induction false} PersistedIdRecordsEveryEntry(t: Table, billId: int, existing: set<string>, es: seq<OldGoldEntry>)
    requires forall k :: k in t.rows ==> k < t.nextId
    requires forall i :: 0 <= i < |es| && es[i].id.Some? && es[i].id.value in existing ==> IdOfBillRow(t.rows, billId, es[i].id.value)
    requires DistinctIds(es)
    ensures var r := UpsertAll(t, billId, PersistedId, existing, es);
      forall j :: 0 <= j < |es| ==> Slot(t, PersistedId, existing, es, j) in r.rows && Records(r.rows[Slot(t, PersistedId, existing, es, j)], billId, es[j])
  {
    if es != [] {
      var n := |es| - 1;
      var front := es[..n];
      var last := es[n];
      PersistedIdRecordsEveryEntry(t, billId, existing, front);
      UpsertAllCounts(t, billId, PersistedId, existing, front);
      UpsertAllFrame(t, billId, PersistedId, existing, front);
      var r' := UpsertAll(t, billId, PersistedId, existing, front);
      var r := UpsertAll(t, billId, PersistedId, existing, es);
      assert r == Upsert(r', billId, PersistedId, existing, last);
      forall j | 0 <= j < |es|
        ensures Slot(t, PersistedId, existing, es, j) in r.rows && Records(r.rows[Slot(t, PersistedId, existing, es, j)], billId, es[j])
      {
        var k := Slot(t, PersistedId, existing, es, j);
        if j < n {
          assert es[..j] == front[..j];
          assert es[j] == front[j];
          assert k == Slot(t, PersistedId, existing, front, j);
          match UpdateTarget(PersistedId, existing, last)
          case Some(m) =>
            assert IdOfBillRow(t.rows, billId, last.id.value);
            assert k != m by {
              if UpdateTarget(PersistedId, existing, es[j]).Some? {
                assert IdOfBillRow(t.rows, billId, es[j].id.value);
                assert es[j].id != last.id;
              } else {
                assert k >= t.nextId > m;
              }
            }
          case None =>
            assert k != r'.nextId;
        } else {
          assert es[..j] == front;
          match UpdateTarget(PersistedId, existing, last)
          case Some(m) =>
            assert IdOfBillRow(t.rows, billId, last.id.value);
            assert m in t.rows && k == m;
          case None =>
            assert k == r'.nextId;
        }
      }
    }
  }

  /** The rows the entries are written to: the slots of the first `n` entries. */
  function Slots(t: Table, rule: IdRule, existing: set<string>, es: seq<OldGoldEntry>, n: int): set<int>
    requires 0 <= n <= |es|
  {
    set j | 0 <= j < n :: Slot(t, rule, existing, es, j)
  }

  /** An inserted entry counts once among the inserts of every longer prefix. */
  lemma InsertCountGrows(rule: IdRule, existing: set<string>, es: seq<OldGoldEntry>, i: int, j: int)
    requires 0 <= i < j <= |es|
    ensures InsertCount(rule, existing, es[..i]) + (if UpdateTarget(rule, existing, es[i]).None? then 1 else 0)
         <= InsertCount(rule, existing, es[..j])
  {
    var p := es[..j];
    InsertCountCovers(rule, existing, p, i);
    assert p[..i] == es[..i] && p[i] == es[i];
  }

  /** The inserts among all entries include those before entry `i` and entry `i` itself. */
  lemma {:induction false} InsertCountCovers(rule: IdRule, existing: set<string>, es: seq<OldGoldEntry>, i: int)
    requires 0 <= i < |es|
    ensures InsertCount(rule, existing, es[..i]) + (if UpdateTarget(rule, existing, es[i]).None? then 1 else 0)
         <= InsertCount(rule, existing, es)
    decreases |es|
  {
    if i < |es| - 1 {
      var front := es[..|es| - 1];
      InsertCountCovers(rule, existing, front, i);
      assert front[..i] == es[..i] && front[i] == es[i];
    }
  }

  /** Every id the loop hands out is the slot of an inserted entry. */
  lemma {:induction false} FreshIdIsSlot(t: Table, rule: IdRule, existing: set<string>, es: seq<OldGoldEntry>, m: int)
    requires t.nextId <= m < t.nextId + InsertCount(rule, existing, es)
    ensures exists j :: 0 <= j < |es| && UpdateTarget(rule, existing, es[j]).None? && Slot(t, rule, existing, es, j) == m
    decreases |es|
  {
    assert es != [];
    var n := |es| - 1;
    var front := es[..n];
    if m < t.nextId + InsertCount(rule, existing, front) {
      FreshIdIsSlot(t, rule, existing, front, m);
      var j :| 0 <= j < |front| && UpdateTarget(rule, existing, front[j]).None? && Slot(t, rule, existing, front, j) == m;
      SlotOfPrefix(t, rule, existing, es, n, j);
    } else {
      assert Slot(t, rule, existing, es, n) == m;
    }
  }

  /** An entry keeps its slot when later entries are dropped. */
  lemma SlotOfPrefix(t: Table, rule: IdRule, existing: set<string>, es: seq<OldGoldEntry>, n: int, j: int)
    requires 0 <= j < n <= |es|
    ensures es[..n][j] == es[j]
    ensures Slot(t, rule, existing, es[..n], j) == Slot(t, rule, existing, es, j)
  {
    assert es[..n][..j] == es[..j];
  }

  /**
    With the intended rule no two entries share a row: two named rows differ
    because the ids differ, two inserts get successive fresh ids, and a named
    row is older than any fresh one.
  */
  lemma {:induction false} SlotsDistinct(t: Table, billId: int, existing: set<string>, es: seq<OldGoldEntry>, i: int, j: int)
    requires forall k :: k in t.rows ==> k < t.nextId
    requires forall x :: 0 <= x < |es| && es[x].id.Some? && es[x].id.value in existing ==> IdOfBillRow(t.rows, billId, es[x].id.value)
    requires DistinctIds(es)
    requires 0 <= i < j < |es|
    ensures Slot(t, PersistedId, existing, es, i) != Slot(t, PersistedId, existing, es, j)
  {
    var ti := UpdateTarget(PersistedId, existing, es[i]);
    var tj := UpdateTarget(PersistedId, existing, es[j]);
    if ti.Some? && tj.Some? {
      assert IdOfBillRow(t.rows, billId, es[i].id.value);
      assert IdOfBillRow(t.rows, billId, es[j].id.value);
      assert es[i].id != es[j].id;
    } else if ti.None? && tj.None? {
      InsertCountGrows(PersistedId, existing, es, i, j);
    } else if ti.Some? {
      assert IdOfBillRow(t.rows, billId, es[i].id.value);
    } else {
      assert IdOfBillRow(t.rows, billId, es[j].id.value);
    }
  }

  /** With the intended rule the first `n` entries occupy `n` different rows. */
  lemma {:induction false} SlotsCount(t: Table, billId: int, existing: set<string>, es: seq<OldGoldEntry>, n: int)
    requires forall k :: k in t.rows ==> k < t.nextId
    requires forall x :: 0 <= x < |es| && es[x].id.Some? && es[x].id.value in existing ==> IdOfBillRow(t.rows, billId, es[x].id.value)
    requires DistinctIds(es)
    requires 0 <= n <= |es|
    ensures |Slots(t, PersistedId, existing, es, n)| == n
  {
    if n > 0 {
      SlotsCount(t, billId, existing, es, n - 1);
      SlotsStep(t, PersistedId, existing, es, n);
      var last := Slot(t, PersistedId, existing, es, n - 1);
      assert last !in Slots(t, PersistedId, existing, es, n - 1) by {
        forall j | 0 <= j < n - 1 ensures Slot(t, PersistedId, existing, es, j) != last {
          SlotsDistinct(t, billId, existing, es, j, n - 1);
        }
      }
    }
  }

  /** The slots of the first `n` entries are those of the first `n - 1` and the slot of entry `n - 1`. */
  lemma SlotsStep(t: Table, rule: IdRule, existing: set<string>, es: seq<OldGoldEntry>, n: int)
    requires 0 < n <= |es|
    ensures Slots(t, rule, existing, es, n) == Slots(t, rule, existing, es, n - 1) + {Slot(t, rule, existing, es, n - 1)}
  {
    var before := Slots(t, rule, existing, es, n - 1);
    forall k | k in Slots(t, rule, existing, es, n) ensures k in before + {Slot(t, rule, existing, es, n - 1)} {
      var j :| 0 <= j < n && Slot(t, rule, existing, es, j) == k;
      if j < n - 1 {
        assert k in before;
      }
    }
  }

  /**
    With the intended rule the bill's rows after the loop are its rows before
    it and the rows the entries were written to, and nothing else.
  */
  lemma {:induction false} PersistedIdRowsOfBill(t: Table, billId: int, existing: set<string>, es: seq<OldGoldEntry>)
    requires forall k :: k in t.rows ==> k < t.nextId
    requires forall x :: 0 <= x < |es| && es[x].id.Some? && es[x].id.value in existing ==> IdOfBillRow(t.rows, billId, es[x].id.value)
    requires DistinctIds(es)
    ensures RowsOfBill(UpsertAll(t, billId, PersistedId, existing, es).rows, billId)
         == RowsOfBill(t.rows, billId) + Slots(t, PersistedId, existing, es, |es|)
  {
    var r := UpsertAll(t, billId, PersistedId, existing, es);
    var slots := Slots(t, PersistedId, existing, es, |es|);
    PersistedIdRecordsEveryEntry(t, billId, existing, es);
    UpsertAllCounts(t, billId, PersistedId, existing, es);
    UpsertAllFrame(t, billId, PersistedId, existing, es);
    forall k | k in RowsOfBill(r.rows, billId) ensures k in RowsOfBill(t.rows, billId) + slots {
      if k !in t.rows {
        FreshIdIsSlot(t, PersistedId, existing, es, k);
      }
    }
    forall k | k in RowsOfBill(t.rows, billId) + slots ensures k in RowsOfBill(r.rows, billId) {
      if k !in RowsOfBill(t.rows, billId) {
        var j :| 0 <= j < |es| && Slot(t, PersistedId, existing, es, j) == k;
        assert Records(r.rows[k], billId, es[j]);
      }
    }
  }

  /** With the intended rule each row an entry is written to records that entry. */
  lemma {:induction false} SlotsHoldEntries(t: Table, billId: int, existing: set<string>, es: seq<OldGoldEntry>)
    requires forall k :: k in t.rows ==> k < t.nextId
    requires forall x :: 0 <= x < |es| && es[x].id.Some? && es[x].id.value in existing ==> IdOfBillRow(t.rows, billId, es[x].id.value)
    requires DistinctIds(es)
    ensures var r := UpsertAll(t, billId, PersistedId, existing, es);
      forall k :: k in Slots(t, PersistedId, existing, es, |es|) ==> k in r.rows && exists j :: 0 <= j < |es| && Records(r.rows[k], billId, es[j])
  {
    var r := UpsertAll(t, billId, PersistedId, existing, es);
    PersistedIdRecordsEveryEntry(t, billId, existing, es);
    forall k | k in Slots(t, PersistedId, existing, es, |es|) ensures k in r.rows && exists j :: 0 <= j < |es| && Records(r.rows[k], billId, es[j]) {
      var j :| 0 <= j < |es| && Slot(t, PersistedId, existing, es, j) == k;
      assert Records(r.rows[k], billId, es[j]);
    }
  }

  /** On edit every row the bill keeps after the delete is named by an entry, which the intended rule writes over it. */
  lemma {:induction false} KeptRowsAreSlots(rows: map<int, ExchangeRow>, nextId: int, billId: int, draft: seq<OldGoldEntry>)
    ensures var t := Table(DeleteRows(rows, StaleIds(rows, billId, draft)), nextId);
      RowsOfBill(t.rows, billId) <= Slots(t, PersistedId, ExistingIds(rows, billId), draft, |draft|)
  {
    var existing := ExistingIds(rows, billId);
    var t := Table(DeleteRows(rows, StaleIds(rows, billId, draft)), nextId);
    forall k | k in RowsOfBill(t.rows, billId) ensures k in Slots(t, PersistedId, existing, draft, |draft|) {
      assert IntToString(k) in DraftIds(draft);
      var i :| 0 <= i < |draft| && HasNumericId(draft[i]) && draft[i].id.value == IntToString(k);
      ParseIntOfIntToString(k);
      assert Slot(t, PersistedId, existing, draft, i) == k;
    }
  }

  /** On edit an entry whose id is one of the bill's ids names a row the delete kept. */
  lemma {:induction false} EditNamesKeptRows(rows: map<int, ExchangeRow>, nextId: int, billId: int, draft: seq<OldGoldEntry>)
    ensures var t := Table(DeleteRows(rows, StaleIds(rows, billId, draft)), nextId);
      forall x :: 0 <= x < |draft| && draft[x].id.Some? && draft[x].id.value in ExistingIds(rows, billId) ==>
        IdOfBillRow(t.rows, billId, draft[x].id.value)
  {
    var existing := ExistingIds(rows, billId);
    var t := Table(DeleteRows(rows, StaleIds(rows, billId, draft)), nextId);
    forall i | 0 <= i < |draft| && draft[i].id.Some? && draft[i].id.value in existing
      ensures IdOfBillRow(t.rows, billId, draft[i].id.value)
    {
      var k :| k in RowsOfBill(rows, billId) && IntToString(k) == draft[i].id.value;
      ParseIntOfIntToString(k);
      ListedRowsSurvive(rows, billId, draft, i, k);
    }
  }

  /**
    With the intended rule, the edit path stores every draft entry as a row of
    the bill, and the bill ends up with exactly one row per entry: each entry
    read back from the bill still has its row, each new entry gets one, and
    every row the bill keeps records some entry.
  */
  lemma {:induction false} EditRecordsEveryEntry(rows: map<int, ExchangeRow>, nextId: int, billId: int, draft: seq<OldGoldEntry>)
    requires forall k :: k in rows ==> k < nextId
    requires DistinctIds(draft)
    ensures var r := AfterEdit(rows, nextId, billId, PersistedId, draft);
      forall e :: e in draft ==> exists k :: k in RowsOfBill(r.rows, billId) && Records(r.rows[k], billId, e)
    ensures var r := AfterEdit(rows, nextId, billId, PersistedId, draft);
      forall k :: k in RowsOfBill(r.rows, billId) ==> exists j :: 0 <= j < |draft| && Records(r.rows[k], billId, draft[j])
    ensures |RowsOfBill(AfterEdit(rows, nextId, billId, PersistedId, draft).rows, billId)| == |draft|
  {
    var existing := ExistingIds(rows, billId);
    var t := Table(DeleteRows(rows, StaleIds(rows, billId, draft)), nextId);
    assert AfterEdit(rows, nextId, billId, PersistedId, draft) == UpsertAll(t, billId, PersistedId, existing, draft);
    EditNamesKeptRows(rows, nextId, billId, draft);
    KeptRowsAreSlots(rows, nextId, billId, draft);
    EveryEntryStored(t, billId, existing, draft);
    OneRowPerEntry(t, billId, existing, draft);
  }

  /** With the intended rule every entry is recorded in some row of the bill. */
  lemma {:induction false} EveryEntryStored(t: Table, billId: int, existing: set<string>, es: seq<OldGoldEntry>)
    requires forall k :: k in t.rows ==> k < t.nextId
    requires forall x :: 0 <= x < |es| && es[x].id.Some? && es[x].id.value in existing ==> IdOfBillRow(t.rows, billId, es[x].id.value)
    requires DistinctIds(es)
    ensures var r := UpsertAll(t, billId, PersistedId, existing, es);
      forall e :: e in es ==> exists k :: k in RowsOfBill(r.rows, billId) && Records(r.rows[k], billId, e)
  {
    var r := UpsertAll(t, billId, PersistedId, existing, es);
    PersistedIdRecordsEveryEntry(t, billId, existing, es);
    forall e | e in es ensures exists k :: k in RowsOfBill(r.rows, billId) && Records(r.rows[k], billId, e) {
      var j :| 0 <= j < |es| && es[j] == e;
      var k := Slot(t, PersistedId, existing, es, j);
      assert k in RowsOfBill(r.rows, billId) && Records(r.rows[k], billId, e);
    }
  }

  /**
    With the intended rule, when every row the bill has before the loop is
    named by an entry, the bill has exactly one row per entry afterwards, and
    each of its rows records an entry.
  */
  lemma {:induction false} OneRowPerEntry(t: Table, billId: int, existing: set<string>, es: seq<OldGoldEntry>)
    requires forall k :: k in t.rows ==> k < t.nextId
    requires forall x :: 0 <= x < |es| && es[x].id.Some? && es[x].id.value in existing ==> IdOfBillRow(t.rows, billId, es[x].id.value)
    requires DistinctIds(es)
    requires RowsOfBill(t.rows, billId) <= Slots(t, PersistedId, existing, es, |es|)
    ensures var r := UpsertAll(t, billId, PersistedId, existing, es);
      forall k :: k in RowsOfBill(r.rows, billId) ==> exists j :: 0 <= j < |es| && Records(r.rows[k], billId, es[j])
    ensures |RowsOfBill(UpsertAll(t, billId, PersistedId, existing, es).rows, billId)| == |es|
  {
    var slots := Slots(t, PersistedId, existing, es, |es|);
    var r := UpsertAll(t, billId, PersistedId, existing, es);
    assert RowsOfBill(r.rows, billId) == slots by {
      PersistedIdRowsOfBill(t, billId, existing, es);
      SubsetUnion(RowsOfBill(t.rows, billId), slots);
    }
    SlotsCount(t, billId, existing, es, |es|);
    SlotsHoldEntries(t, billId, existing, es);
  }

  lemma SubsetUnion(a: set<int>, b: set<int>)
    requires a <= b
    ensures a + b == b
  {
  }

  /** On create no entry names a row, so every entry gets a fresh id. */
  lemma {:induction false} CreateSlotsAreFresh(t: Table, es: seq<OldGoldEntry>)
    ensures forall k :: k in Slots(t, PersistedId, {}, es, |es|) ==> k >= t.nextId
  {
    forall k | k in Slots(t, PersistedId, {}, es, |es|) ensures k >= t.nextId {
      var j :| 0 <= j < |es| && Slot(t, PersistedId, {}, es, j) == k;
    }
  }

  /**
    With the intended rule, the create path stores every entry as a fresh row
    of the new bill: the bill gains exactly one row per entry, and every row it
    gains records some entry.
  */
  lemma {:induction false} CreateRecordsEveryEntry(rows: map<int, ExchangeRow>, nextId: int, billId: int, draft: seq<OldGoldEntry>)
    requires forall k :: k in rows ==> k < nextId
    requires DistinctIds(draft)
    ensures var r := UpsertAll(Table(rows, nextId), billId, PersistedId, {}, draft);
      forall e :: e in draft ==> exists k :: k in RowsOfBill(r.rows, billId) && k !in rows && Records(r.rows[k], billId, e)
    ensures var r := UpsertAll(Table(rows, nextId), billId, PersistedId, {}, draft);
      forall k :: k in RowsOfBill(r.rows, billId) && k !in rows ==> exists j :: 0 <= j < |draft| && Records(r.rows[k], billId, draft[j])
    ensures |RowsOfBill(UpsertAll(Table(rows, nextId), billId, PersistedId, {}, draft).rows, billId)| == |RowsOfBill(rows, billId)| + |draft|
  {
    CreateStoresEveryEntry(rows, nextId, billId, draft);
    CreateAddsOneRowPerEntry(rows, nextId, billId, draft);
  }

  /** On create every entry is recorded in a fresh row of the bill. */
  lemma {:induction false} CreateStoresEveryEntry(rows: map<int, ExchangeRow>, nextId: int, billId: int, draft: seq<OldGoldEntry>)
    requires forall k :: k in rows ==> k < nextId
    requires DistinctIds(draft)
    ensures var r := UpsertAll(Table(rows, nextId), billId, PersistedId, {}, draft);
      forall e :: e in draft ==> exists k :: k in RowsOfBill(r.rows, billId) && k !in rows && Records(r.rows[k], billId, e)
  {
    var t := Table(rows, nextId);
    var r := UpsertAll(t, billId, PersistedId, {}, draft);
    PersistedIdRecordsEveryEntry(t, billId, {}, draft);
    forall e | e in draft ensures exists k :: k in RowsOfBill(r.rows, billId) && k !in rows && Records(r.rows[k], billId, e) {
      var j :| 0 <= j < |draft| && draft[j] == e;
      var k := Slot(t, PersistedId, {}, draft, j);
      assert k >= nextId;
      assert k in RowsOfBill(r.rows, billId) && k !in rows && Records(r.rows[k], billId, e);
    }
  }

  /** On create the bill gains one row per entry, and each row it gains records an entry. */
  lemma {:induction false} CreateAddsOneRowPerEntry(rows: map<int, ExchangeRow>, nextId: int, billId: int, draft: seq<OldGoldEntry>)
    requires forall k :: k in rows ==> k < nextId
    requires DistinctIds(draft)
    ensures var r := UpsertAll(Table(rows, nextId), billId, PersistedId, {}, draft);
      forall k :: k in RowsOfBill(r.rows, billId) && k !in rows ==> exists j :: 0 <= j < |draft| && Records(r.rows[k], billId, draft[j])
    ensures |RowsOfBill(UpsertAll(Table(rows, nextId), billId, PersistedId, {}, draft).rows, billId)| == |RowsOfBill(rows, billId)| + |draft|
  {
    var t := Table(rows, nextId);
    var slots := Slots(t, PersistedId, {}, draft, |draft|);
    var r := UpsertAll(t, billId, PersistedId, {}, draft);
    CreateSlotsAreFresh(t, draft);
    assert RowsOfBill(r.rows, billId) == RowsOfBill(rows, billId) + slots by {
      PersistedIdRowsOfBill(t, billId, {}, draft);
    }
    assert |RowsOfBill(r.rows, billId)| == |RowsOfBill(rows, billId)| + |draft| by {
      SlotsCount(t, billId, {}, draft, |draft|);
      assert RowsOfBill(rows, billId) * slots == {};
    }
    SlotsHoldEntries(t, billId, {}, draft);
  }

  // ---------------------------------------------------------------------------
  // Saving a draft as it was loaded

  /** An entry carrying the id of one of the bill's rows, as the form loads it. */
  predicate LoadedEntry(rows: map<int, ExchangeRow>, billId: int, e: OldGoldEntry)
  {
    exists k :: k in RowsOfBill(rows, billId) && e.id == Some(IntToString(k))
  }

  /** When every entry is written over a row, the loop hands out no id. */
  lemma {:induction false} NoInserts(rule: IdRule, existing: set<string>, es: seq<OldGoldEntry>)
    requires forall i :: 0 <= i < |es| ==> UpdateTarget(rule, existing, es[i]).Some?
    ensures InsertCount(rule, existing, es) == 0
  {
    if es != [] {
      var front := es[..|es| - 1];
      forall i | 0 <= i < |front| ensures UpdateTarget(rule, existing, front[i]).Some? {
        assert front[i] == es[i];
      }
      NoInserts(rule, existing, front);
    }
  }

  /**
    Saving the draft exactly as it was loaded, one entry per row of the bill
    each carrying its row's id, deletes nothing, inserts nothing and keeps the
    bill's rows, under either rule.
  */
  lemma {:induction false} ReloadedDraftKeepsRows(rows: map<int, ExchangeRow>, nextId: int, billId: int, rule: IdRule, draft: seq<OldGoldEntry>)
    requires forall k :: k in rows ==> k < nextId
    requires forall i :: 0 <= i < |draft| ==> LoadedEntry(rows, billId, draft[i])
    requires forall k :: k in RowsOfBill(rows, billId) ==> exists i :: 0 <= i < |draft| && draft[i].id == Some(IntToString(k))
    ensures StaleIds(rows, billId, draft) == {}
    ensures AfterEdit(rows, nextId, billId, rule, draft).nextId == nextId
    ensures AfterEdit(rows, nextId, billId, rule, draft).rows.Keys == rows.Keys
    ensures RowsOfBill(AfterEdit(rows, nextId, billId, rule, draft).rows, billId) == RowsOfBill(rows, billId)
  {
    var existing := ExistingIds(rows, billId);
    LoadedDraftListsEveryRow(rows, billId, draft);
    assert DeleteRows(rows, StaleIds(rows, billId, draft)) == rows;
    assert AfterEdit(rows, nextId, billId, rule, draft) == UpsertAll(Table(rows, nextId), billId, rule, existing, draft);
    LoadedDraftUpdatesOnly(rows, billId, rule, draft);
    UpdatesKeepRows(Table(rows, nextId), billId, rule, existing, draft);
  }

  /** When every entry is written over a row, the loop neither adds a row nor moves a row to another bill. */
  lemma {:induction false} UpdatesKeepRows(t: Table, billId: int, rule: IdRule, existing: set<string>, es: seq<OldGoldEntry>)
    requires forall k :: k in t.rows ==> k < t.nextId
    requires forall i :: 0 <= i < |es| ==> UpdateTarget(rule, existing, es[i]).Some?
    ensures UpsertAll(t, billId, rule, existing, es).nextId == t.nextId
    ensures UpsertAll(t, billId, rule, existing, es).rows.Keys == t.rows.Keys
    ensures RowsOfBill(UpsertAll(t, billId, rule, existing, es).rows, billId) == RowsOfBill(t.rows, billId)
  {
    NoInserts(rule, existing, es);
    UpsertAllCounts(t, billId, rule, existing, es);
    UpsertAllFrame(t, billId, rule, existing, es);
  }

  /** A draft that names every row of the bill leaves nothing to delete. */
  lemma {:induction false} LoadedDraftListsEveryRow(rows: map<int, ExchangeRow>, billId: int, draft: seq<OldGoldEntry>)
    requires forall k :: k in RowsOfBill(rows, billId) ==> exists i :: 0 <= i < |draft| && draft[i].id == Some(IntToString(k))
    ensures StaleIds(rows, billId, draft) == {}
  {
    forall k | k in RowsOfBill(rows, billId) ensures k !in StaleIds(rows, billId, draft) {
      var i :| 0 <= i < |draft| && draft[i].id == Some(IntToString(k));
      ParseIntOfIntToString(k);
      DecimalNotEmpty(k);
      assert HasNumericId(draft[i]);
    }
  }

  /** Under either rule, every entry of a draft as loaded is written over its row. */
  lemma {:induction false} LoadedDraftUpdatesOnly(rows: map<int, ExchangeRow>, billId: int, rule: IdRule, draft: seq<OldGoldEntry>)
    requires forall i :: 0 <= i < |draft| ==> LoadedEntry(rows, billId, draft[i])
    ensures forall i :: 0 <= i < |draft| ==> UpdateTarget(rule, ExistingIds(rows, billId), draft[i]).Some?
  {
    forall i | 0 <= i < |draft| ensures UpdateTarget(rule, ExistingIds(rows, billId), draft[i]).Some? {
      assert LoadedEntry(rows, billId, draft[i]);
      var k :| k in RowsOfBill(rows, billId) && draft[i].id == Some(IntToString(k));
      ParseIntOfIntToString(k);
      DecimalNotEmpty(k);
      assert IntToString(k) in ExistingIds(rows, billId);
    }
  }

  // ---------------------------------------------------------------------------
  // The rule as written

  /**
    As written, an entry added in the form, whose id is `String(Date.now())`,
    is sent as an update of the row with that number; when there is no such
    row, the save leaves the table exactly as it was.
  */
  lemma NumericIdDropsNewEntry(t: Table, billId: int, existing: set<string>, e: OldGoldEntry, now: int)
    requires e.id == Some(IntToString(now)) && now !in t.rows
    ensures UpsertAll(t, billId, NumericId, existing, [e]) == t
  {
    ParseIntOfIntToString(now);
    DecimalNotEmpty(now);
    assert [e][..0] == [];
  }

  /**
    A new booking with one old-gold entry added at time `now`: as written, the
    bill ends up with no old-gold row at all; with the intended rule it has one.
  */
  lemma {:induction false} NewBookingLosesOldGold(e: OldGoldEntry, now: int, billId: int)
    requires e.id == Some(IntToString(now))
    ensures RowsOfBill(UpsertAll(Table(map[], 1), billId, NumericId, {}, [e]).rows, billId) == {}
    ensures RowsOfBill(UpsertAll(Table(map[], 1), billId, PersistedId, {}, [e]).rows, billId) == {1}
  {
    var t := Table(map[], 1);
    NumericIdDropsNewEntry(t, billId, {}, e, now);
    assert RowsOfBill(t.rows, billId) == {};
    SingleInsert(t, billId, e);
    var rows := t.rows[1 := NewRow(billId, e)];
    assert RowsOfBill(rows, billId) == {1} by {
      forall k ensures k in RowsOfBill(rows, billId) <==> k == 1 {
      }
    }
  }

  lemma {:induction false} SingleInsert(t: Table, billId: int, e: OldGoldEntry)
    ensures UpsertAll(t, billId, PersistedId, {}, [e]) == Table(t.rows[t.nextId := NewRow(billId, e)], t.nextId + 1)
  {
    assert [e][..0] == [];
    assert UpdateTarget(PersistedId, {}, e) == None;
  }

  /** The same with the entry added at `Date.now() == 1760000000000` (October 2025). */
  lemma NewBookingLosesOldGoldExample()
    ensures var e := OldGoldEntry(Some(IntToString(1760000000000)), 10.0, "10", "", 6000.0, "6000", 60000.0, DefaultHsn, "");
      && RowsOfBill(UpsertAll(Table(map[], 1), 7, NumericId, {}, [e]).rows, 7) == {}
      && RowsOfBill(UpsertAll(Table(map[], 1), 7, PersistedId, {}, [e]).rows, 7) == {1}
  {
    var e := OldGoldEntry(Some(IntToString(1760000000000)), 10.0, "10", "", 6000.0, "6000", 60000.0, DefaultHsn, "");
    NewBookingLosesOldGold(e, 1760000000000, 7);
  }
}
