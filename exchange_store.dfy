/**
  The `old_gold_exchanges` table both the advance-booking form and the
  gold-exchange page write to, seen as a map from row id to row. The table
  assigns ids itself; here it hands out `nextId` and counts up, so that every
  id in use is below `nextId`.
*/
module ExchangeStore {
  import opened Basics

  /** One stored old-gold exchange. `billId` is `None` for a standalone exchange. */
  datatype ExchangeRow = ExchangeRow(
    billId: Option<int>,
    weight: real,
    purity: Option<string>,
    ratePerGram: real,
    totalValue: real,
    notes: Option<string>,
    hsnCode: Option<string>)

  /**
    The columns an `update` call writes. The booking form does not write the
    `hsn_code` column, which `hsnCode == None` expresses; the gold-exchange page does.
  */
  datatype Patch = Patch(
    weight: real,
    purity: Option<string>,
    ratePerGram: real,
    totalValue: real,
    notes: Option<string>,
    hsnCode: Option<string>)

  /** A row after an update with `p`: the written columns take the new values, `bill_id` is kept. */
  function Apply(row: ExchangeRow, p: Patch): (r: ExchangeRow)
    ensures r.billId == row.billId
    ensures r.weight == p.weight && r.purity == p.purity && r.ratePerGram == p.ratePerGram
    ensures r.totalValue == p.totalValue && r.notes == p.notes
    ensures r.hsnCode == if p.hsnCode.Some? then p.hsnCode else row.hsnCode
  {
    ExchangeRow(row.billId, p.weight, p.purity, p.ratePerGram, p.totalValue, p.notes,
                if p.hsnCode.Some? then p.hsnCode else row.hsnCode)
  }

  /** `update(p).eq('id', id)`: the row with that id, if there is one, is patched; a missing id matches nothing. */
  function UpdateRow(rows: map<int, ExchangeRow>, id: int, p: Patch): (r: map<int, ExchangeRow>)
    ensures r.Keys == rows.Keys
    ensures forall k :: k in rows && k != id ==> r[k] == rows[k]
    ensures id in rows ==> r[id] == Apply(rows[id], p)
  {
    if id in rows then rows[id := Apply(rows[id], p)] else rows
  }

  /** `delete().in('id', ids)`: every row whose id is listed goes, the others stay. */
  function DeleteRows(rows: map<int, ExchangeRow>, ids: set<int>): (r: map<int, ExchangeRow>)
    ensures r.Keys == rows.Keys - ids
    ensures forall k :: k in r ==> r[k] == rows[k]
  {
    map k | k in rows && k !in ids :: rows[k]
  }

  /** The ids of the rows attached to a bill: `select('id').eq('bill_id', billId)`. */
  function RowsOfBill(rows: map<int, ExchangeRow>, billId: int): (r: set<int>)
    ensures forall k :: k in r <==> k in rows && rows[k].billId == Some(billId)
  {
    set k | k in rows && rows[k].billId == Some(billId)
  }

  class Store {
    var rows: map<int, ExchangeRow>
    var nextId: int

    /** Every id in use was handed out before `nextId`. */
    ghost predicate Valid()
      reads this
    {
      forall k :: k in rows ==> k < nextId
    }

    /** An empty table. */
    constructor ()
      ensures Valid()
      ensures rows == map[] && nextId == 1
    {
      rows := map[];
      nextId := 1;
    }

    /** `insert(row)`: the row is stored under a fresh id, which is returned. */
    method Insert(row: ExchangeRow) returns (id: int)
      requires Valid()
      modifies this
      ensures Valid()
      ensures id == old(nextId) && id !in old(rows)
      ensures rows == old(rows)[id := row] && nextId == old(nextId) + 1
    {
      id := nextId;
      rows := rows[id := row];
      nextId := nextId + 1;
    }

    /** `update(p).eq('id', id)` */
    method Update(id: int, p: Patch)
      requires Valid()
      modifies this
      ensures Valid()
      ensures rows == UpdateRow(old(rows), id, p) && nextId == old(nextId)
    {
      rows := UpdateRow(rows, id, p);
    }

    /** `delete().in('id', ids)`, and `delete().eq('id', id)` with a single id. */
    method Delete(ids: set<int>)
      requires Valid()
      modifies this
      ensures Valid()
      ensures rows == DeleteRows(old(rows), ids) && nextId == old(nextId)
    {
      rows := DeleteRows(rows, ids);
    }
  }
}
