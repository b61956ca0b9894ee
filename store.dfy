/** The database tables of the core: `Stock` rows by primary key and the `StockHistory` log,
    with the table constraints declared in the schema (unique serial, unique non-null IMEI,
    history rows that reference a stock and are deleted with it). */
module Store {
  import opened Wrappers
  import opened Models
  import Seqs

  /** The serial numbers in use. */
  function SerialsOf(stocks: map<nat, Stock>): set<string>
  {
    set pk | pk in stocks :: stocks[pk].serialNumber
  }

  /** The non-null IMEIs in use. */
  function ImeisOf(stocks: map<nat, Stock>): set<string>
  {
    set pk | pk in stocks && stocks[pk].imeiNumber.Some? :: stocks[pk].imeiNumber.value
  }

  /** `serial_number` is unique across all rows. */
  ghost predicate UniqueSerials(stocks: map<nat, Stock>)
  {
    forall p, q :: p in stocks && q in stocks && p != q ==> stocks[p].serialNumber != stocks[q].serialNumber
  }

  /** `imei_number` is unique among the non-null values; any number of rows may have none. */
  ghost predicate UniqueImeis(stocks: map<nat, Stock>)
  {
    forall p, q :: p in stocks && q in stocks && p != q && stocks[p].imeiNumber.Some? ==>
      stocks[p].imeiNumber != stocks[q].imeiNumber
  }

  /** Writing `row` under key `pk` would not break a unique constraint against another row. */
  predicate Admissible(stocks: map<nat, Stock>, pk: nat, row: Stock)
  {
    forall q :: q in stocks && q != pk ==>
      stocks[q].serialNumber != row.serialNumber
      && (row.imeiNumber.Some? ==> stocks[q].imeiNumber != row.imeiNumber)
  }

  /** A new row is admissible exactly when its serial, and its IMEI if it has one, are unused. */
  lemma AdmissibleNew(stocks: map<nat, Stock>, pk: nat, row: Stock)
    requires pk !in stocks
    ensures Admissible(stocks, pk, row) <==>
      row.serialNumber !in SerialsOf(stocks)
      && (row.imeiNumber.Some? ==> row.imeiNumber.value !in ImeisOf(stocks))
  {
    if !Admissible(stocks, pk, row) {
      var q :| q in stocks && q != pk && !(stocks[q].serialNumber != row.serialNumber
        && (row.imeiNumber.Some? ==> stocks[q].imeiNumber != row.imeiNumber));
      if stocks[q].serialNumber == row.serialNumber {
        assert row.serialNumber in SerialsOf(stocks);
      } else {
        assert row.imeiNumber.value in ImeisOf(stocks);
      }
    }
  }

  /** Inserting a row adds exactly its IMEI, if any, to the IMEIs in use. */
  lemma {:induction false} ImeisOfInsert(stocks: map<nat, Stock>, pk: nat, row: Stock)
    requires pk !in stocks
    ensures ImeisOf(stocks[pk := row]) ==
      ImeisOf(stocks) + (if row.imeiNumber.Some? then {row.imeiNumber.value} else {})
  {
    var after := stocks[pk := row];
    forall x | x in ImeisOf(after)
      ensures x in ImeisOf(stocks) + (if row.imeiNumber.Some? then {row.imeiNumber.value} else {})
    {
      var p :| p in after && after[p].imeiNumber == Some(x);
      if p != pk { assert stocks[p].imeiNumber == Some(x); }
    }
    forall x | x in ImeisOf(stocks) ensures x in ImeisOf(after) {
      var p :| p in stocks && stocks[p].imeiNumber == Some(x);
      assert after[p].imeiNumber == Some(x);
    }
    if row.imeiNumber.Some? {
      assert after[pk].imeiNumber.Some?;
    }
  }

  /** Inserting a row adds exactly its serial to the serials in use. */
  lemma {:induction false} SerialsOfInsert(stocks: map<nat, Stock>, pk: nat, row: Stock)
    requires pk !in stocks
    ensures SerialsOf(stocks[pk := row]) == SerialsOf(stocks) + {row.serialNumber}
  {
    var after := stocks[pk := row];
    forall x | x in SerialsOf(after) ensures x in SerialsOf(stocks) + {row.serialNumber} {
      var p :| p in after && after[p].serialNumber == x;
      if p != pk { assert stocks[p].serialNumber == x; }
    }
    forall x | x in SerialsOf(stocks) ensures x in SerialsOf(after) {
      var p :| p in stocks && stocks[p].serialNumber == x;
      assert after[p].serialNumber == x;
    }
    assert after[pk].serialNumber == row.serialNumber;
  }

  /** The history rows that do not belong to stock `pk`, in log order. */
  function RowsNotOf(history: seq<HistoryRow>, pk: nat): (r: seq<HistoryRow>)
    ensures forall k :: 0 <= k < |r| ==> r[k].stock != pk && r[k] in history
    ensures forall k :: 0 <= k < |history| && history[k].stock != pk ==> history[k] in r
    ensures forall x :: multiset(r)[x] == if x.stock != pk then multiset(history)[x] else 0
    ensures Seqs.SubsequenceOf(r, history)
  {
    var r := Seqs.Select(history, (row: HistoryRow) => row.stock != pk);
    forall k | 0 <= k < |r| ensures r[k] in history {
      Seqs.SelectIn(history, (row: HistoryRow) => row.stock != pk, r[k]);
    }
    forall k | 0 <= k < |history| && history[k].stock != pk ensures history[k] in r {
      assert multiset(history)[history[k]] > 0;
    }
    r
  }

  /** The two tables. Primary keys are allocated from `nextPk`, starting at 1. */
  class Ledger {
    var stocks: map<nat, Stock>
    var history: seq<HistoryRow>
    var nextPk: nat

    /** The schema's constraints, which every operation keeps. */
    ghost predicate Valid()
      reads this
    {
      0 < nextPk
      && (forall pk :: pk in stocks ==> 0 < pk < nextPk)
      && UniqueSerials(stocks)
      && UniqueImeis(stocks)
      && (forall k :: 0 <= k < |history| ==> history[k].stock in stocks)
    }

    /** Empty tables. */
    constructor ()
      ensures Valid()
      ensures stocks == map[] && history == [] && nextPk == 1
    {
      stocks := map[];
      history := [];
      nextPk := 1;
    }

    /** `Stock.objects.filter(imei_number=imei).exists()`. */
    function ImeiInUse(imei: string): (b: bool)
      reads this
      ensures b <==> imei in ImeisOf(stocks)
    {
      exists pk :: pk in stocks && stocks[pk].imeiNumber == Some(imei)
    }

    /** An INSERT: the row gets the next primary key, unless a unique constraint rejects it,
        in which case nothing is written. */
    method Insert(row: Stock) returns (pk: Option<nat>)
      requires Valid()
      modifies this
      ensures Valid()
      ensures pk.Some? <==> Admissible(old(stocks), old(nextPk), row)
      ensures pk.Some? ==>
                pk.value == old(nextPk) && pk.value !in old(stocks)
                && stocks == old(stocks)[pk.value := row] && nextPk == old(nextPk) + 1
      ensures pk.None? ==> stocks == old(stocks) && nextPk == old(nextPk)
      ensures history == old(history)
    {
      if Admissible(stocks, nextPk, row) {
        pk := Some(nextPk);
        stocks := stocks[nextPk := row];
        nextPk := nextPk + 1;
      } else {
        pk := None;
      }
    }

    /** An UPDATE of an existing row, unless a unique constraint rejects it. */
    method Update(pk: nat, row: Stock) returns (ok: bool)
      requires Valid() && pk in stocks
      modifies this
      ensures Valid()
      ensures ok <==> Admissible(old(stocks), pk, row)
      ensures stocks == if ok then old(stocks)[pk := row] else old(stocks)
      ensures history == old(history) && nextPk == old(nextPk)
    {
      ok := Admissible(stocks, pk, row);
      if ok {
        stocks := stocks[pk := row];
      }
    }

    /** `StockHistory.objects.create(...)`: the log only grows at its end. */
    method AppendHistory(row: HistoryRow)
      requires Valid() && row.stock in stocks
      modifies this
      ensures Valid()
      ensures history == old(history) + [row]
      ensures stocks == old(stocks) && nextPk == old(nextPk)
    {
      history := history + [row];
    }

    /** Deleting a stock row; `on_delete=CASCADE` deletes its history rows with it. */
    method Delete(pk: nat)
      requires Valid()
      modifies this
      ensures Valid()
      ensures stocks == old(stocks) - {pk} && nextPk == old(nextPk)
      ensures history == RowsNotOf(old(history), pk)
    {
      history := RowsNotOf(history, pk);
      stocks := stocks - {pk};
    }
  }
}
