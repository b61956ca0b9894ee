/** The bookkeeping behind `bulk_add_stock`: how the loop sorts the lines of the form into added
    IMEIs and duplicates, the rows it stores and the log rows it writes, and the state the loop
    keeps from one line to the next. */
module Bulk {
  import opened Wrappers
  import opened Text
  import opened Seqs
  import opened Models
  import opened Store
  import opened Signals

  /** Each line with `str.strip()` applied: the IMEI the line stands for, or `""` for a blank line. */
  function StripEach(lines: seq<string>): (imeis: seq<string>)
    ensures |imeis| == |lines|
  {
    seq(|lines|, k requires 0 <= k < |lines| => Strip(lines[k]))
  }

  /** `imeis` holds the stripped lines: the same fact as `imeis == StripEach(lines)`
      (`StrippedIsStripEach`), but stated position by position and triggered only where a
      stripped line `Strip(lines[k])` is spelled out. The bulk loop carries this form, so that
      its reasoning about the lists never unfolds `Strip`. */
  ghost predicate Stripped(lines: seq<string>, imeis: seq<string>)
  {
    |imeis| == |lines| && forall k {:trigger Strip(lines[k])} :: 0 <= k < |lines| ==> imeis[k] == Strip(lines[k])
  }

  /** The stripped lines are `StripEach` of the lines, and nothing else is. */
  lemma StrippedIsStripEach(lines: seq<string>, imeis: seq<string>)
    ensures Stripped(lines, imeis) <==> imeis == StripEach(lines)
  {
    if Stripped(lines, imeis) {
      forall k | 0 <= k < |lines| ensures imeis[k] == StripEach(lines)[k] {
        assert imeis[k] == Strip(lines[k]);
      }
    }
  }

  /** The non-blank stripped lines, in order. */
  function Candidates(imeis: seq<string>): (c: seq<string>)
    decreases |imeis|
  {
    if imeis == [] then []
    else if imeis[0] == [] then Candidates(imeis[1..])
    else [imeis[0]] + Candidates(imeis[1..])
  }

  /** The candidates of a text's lines are non-blank, carry no surrounding white space, and
      come from the lines. */
  lemma {:induction false} CandidatesOfLines(lines: seq<string>)
    ensures forall x :: x in Candidates(StripEach(lines)) ==>
              x != [] && Strip(x) == x && exists k :: 0 <= k < |lines| && Strip(lines[k]) == x
    decreases |lines|
  {
    if lines != [] {
      var imeis := StripEach(lines);
      assert StripEach(lines[1..]) == imeis[1..];
      CandidatesOfLines(lines[1..]);
      StripIdempotent(lines[0]);
      forall x | x in Candidates(imeis)
        ensures x != [] && Strip(x) == x && exists k :: 0 <= k < |lines| && Strip(lines[k]) == x
      {
        if x !in Candidates(imeis[1..]) {
          assert x == imeis[0] == Strip(lines[0]);
        } else {
          var k :| 0 <= k < |lines[1..]| && Strip(lines[1..][k]) == x;
          assert Strip(lines[k + 1]) == x;
        }
      }
    }
  }

  /** How the loop of `bulk_add_stock` sorts the stripped lines into (added, duplicates) when the
      IMEIs in `inStore` are already stored: a blank line is skipped, and an IMEI it adds is in
      the store for the lines after it. */
  function BulkClassify(inStore: set<string>, imeis: seq<string>): (seq<string>, seq<string>)
    decreases |imeis|
  {
    if imeis == [] then ([], [])
    else
      var imei := imeis[0];
      if imei == [] then BulkClassify(inStore, imeis[1..])
      else if imei in inStore then
        var r := BulkClassify(inStore, imeis[1..]);
        (r.0, [imei] + r.1)
      else
        var r := BulkClassify(inStore + {imei}, imeis[1..]);
        ([imei] + r.0, r.1)
  }

  /** Every non-blank stripped line lands in exactly one of the two lists, and each list
      keeps the input order of the lines it holds. */
  lemma {:induction false} BulkPartition(inStore: set<string>, imeis: seq<string>)
    ensures var r := BulkClassify(inStore, imeis);
            && multiset(r.0) + multiset(r.1) == multiset(Candidates(imeis))
            && SubsequenceOf(r.0, Candidates(imeis))
            && SubsequenceOf(r.1, Candidates(imeis))
    decreases |imeis|
  {
    if imeis != [] {
      var imei := imeis[0];
      var rest := Candidates(imeis[1..]);
      if imei == [] {
        BulkPartition(inStore, imeis[1..]);
      } else if imei in inStore {
        BulkPartition(inStore, imeis[1..]);
        var r := BulkClassify(inStore, imeis[1..]);
        SubsequenceSkip(r.0, imei, rest);
        SubsequenceKeep(r.1, imei, rest);
      } else {
        BulkPartition(inStore + {imei}, imeis[1..]);
        var r := BulkClassify(inStore + {imei}, imeis[1..]);
        SubsequenceKeep(r.0, imei, rest);
        SubsequenceSkip(r.1, imei, rest);
      }
    }
  }

  /** The added list holds each candidate IMEI that was not in the store exactly once, and
      nothing else. */
  lemma {:induction false} BulkAddedExactlyNew(inStore: set<string>, imeis: seq<string>)
    ensures var added := BulkClassify(inStore, imeis).0;
            forall x :: multiset(added)[x] == if x in Candidates(imeis) && x !in inStore then 1 else 0
    decreases |imeis|
  {
    if imeis != [] {
      var imei := imeis[0];
      if imei == [] {
        BulkAddedExactlyNew(inStore, imeis[1..]);
      } else if imei in inStore {
        BulkAddedExactlyNew(inStore, imeis[1..]);
      } else {
        BulkAddedExactlyNew(inStore + {imei}, imeis[1..]);
      }
    }
  }

  /** No IMEI is added twice, and none that was already stored is added. */
  lemma BulkAddedDistinct(inStore: set<string>, imeis: seq<string>)
    ensures var added := BulkClassify(inStore, imeis).0;
            && (forall i, j :: 0 <= i < j < |added| ==> added[i] != added[j])
            && (forall x :: x in added ==> x in Candidates(imeis) && x !in inStore)
  {
    var added := BulkClassify(inStore, imeis).0;
    BulkAddedExactlyNew(inStore, imeis);
    forall i, j | 0 <= i < j < |added| ensures added[i] != added[j] {
      assert added == added[..j] + added[j..];
      assert multiset(added)[added[i]] == multiset(added[..j])[added[i]] + multiset(added[j..])[added[i]];
      assert added[i] in added[..j];
    }
    forall x | x in added ensures x in Candidates(imeis) && x !in inStore {
      assert multiset(added)[x] > 0;
    }
  }

  /** Every stored IMEI among the lines is reported as a duplicate, every new one is added, and
      the two lists together are as long as the list of non-blank lines. */
  lemma BulkCovers(inStore: set<string>, imeis: seq<string>)
    ensures var r := BulkClassify(inStore, imeis);
            && (forall x :: x in Candidates(imeis) && x in inStore ==> x in r.1 && x !in r.0)
            && (forall x :: x in Candidates(imeis) && x !in inStore ==> x in r.0)
            && |r.0| + |r.1| == |Candidates(imeis)|
  {
    var r := BulkClassify(inStore, imeis);
    var c := Candidates(imeis);
    BulkAddedExactlyNew(inStore, imeis);
    BulkPartition(inStore, imeis);
    forall x | x in c ensures multiset(r.0)[x] + multiset(r.1)[x] == multiset(c)[x] {
      assert (multiset(r.0) + multiset(r.1))[x] == multiset(c)[x];
    }
    forall x | x in c && x in inStore ensures x in r.1 && x !in r.0 {
      assert multiset(c)[x] > 0;
      assert multiset(r.0)[x] == 0;
    }
    forall x | x in c && x !in inStore ensures x in r.0 {
      assert multiset(r.0)[x] == 1;
    }
    assert |multiset(r.0) + multiset(r.1)| == |multiset(c)|;
  }

  /** The row the view itself writes for each added unit. */
  function BulkAddedRow(pk: nat, user: User, product: Product): HistoryRow
  {
    HistoryRow(pk, "added", Some(user), None, None, "Bulk add for " + product.modelName)
  }

  /** The unit the view creates for the `k`-th added IMEI. */
  function BulkStock(product: Product, added: seq<string>, user: User, today: int, serials: seq<string>, k: nat): Stock
    requires k < |added| && k < |serials|
  {
    NewStock(product, serials[k], Some(added[k]), Some(user), today, today)
  }

  /** The rows created for the added IMEIs, keyed from `base` on. */
  function NewStocks(base: nat, product: Product, added: seq<string>, user: User, today: int,
                     serials: seq<string>): map<nat, Stock>
    requires |added| <= |serials|
    decreases |added|
  {
    if added == [] then map[]
    else
      var n := |added| - 1;
      NewStocks(base, product, added[..n], user, today, serials)[base + n := BulkStock(product, added, user, today, serials, n)]
  }

  /** The history the bulk add appends: for each added unit, the `post_save` row and then
      the view's own row. */
  function BulkRows(base: nat, product: Product, added: seq<string>, user: User, today: int,
                    serials: seq<string>): seq<HistoryRow>
    requires |added| <= |serials|
    decreases |added|
  {
    if added == [] then []
    else
      var n := |added| - 1;
      BulkRows(base, product, added[..n], user, today, serials)
        + [AddedHookRow(base + n, BulkStock(product, added, user, today, serials, n)), BulkAddedRow(base + n, user, product)]
  }

  /** The new units are keyed `base .. base + |added| - 1`; the `k`-th carries the `k`-th added
      IMEI, the product, the acting user, today as stock-in day (zero days in stock), the `k`-th
      fresh serial, and the defaults: status in_stock, no holder, no assignment date. */
  lemma {:induction false} NewStocksAt(base: nat, product: Product, added: seq<string>, user: User,
                                       today: int, serials: seq<string>)
    requires |added| <= |serials|
    ensures var m := NewStocks(base, product, added, user, today, serials);
            && (forall pk :: pk in m <==> base <= pk < base + |added|)
            && (forall k :: 0 <= k < |added| ==>
                  var s := m[base + k];
                  && s == BulkStock(product, added, user, today, serials, k)
                  && s.imeiNumber == Some(added[k]) && s.serialNumber == serials[k]
                  && s.product == product && s.addedBy == Some(user)
                  && s.status == InStock && s.assignedTo.None? && s.lastAssignedDate.None?
                  && DaysInStock(s, today) == 0)
    decreases |added|
  {
    if added != [] {
      var n := |added| - 1;
      NewStocksAt(base, product, added[..n], user, today, serials);
      forall k | 0 <= k < n
        ensures BulkStock(product, added[..n], user, today, serials, k) == BulkStock(product, added, user, today, serials, k)
      {
        assert added[..n][k] == added[k];
      }
    }
  }

  /** Each added unit gets two rows, the hook's and then the view's; the rows of the `k`-th unit
      are at positions `2k` and `2k + 1`. */
  lemma {:induction false} BulkRowsAt(base: nat, product: Product, added: seq<string>, user: User,
                                      today: int, serials: seq<string>)
    requires |added| <= |serials|
    ensures var h := BulkRows(base, product, added, user, today, serials);
            && |h| == 2 * |added|
            && (forall k :: 0 <= k < |added| ==>
                  && h[2 * k] == AddedHookRow(base + k, BulkStock(product, added, user, today, serials, k))
                  && h[2 * k + 1] == BulkAddedRow(base + k, user, product))
    decreases |added|
  {
    if added != [] {
      var n := |added| - 1;
      var prev := BulkRows(base, product, added[..n], user, today, serials);
      var h := BulkRows(base, product, added, user, today, serials);
      BulkRowsAt(base, product, added[..n], user, today, serials);
      forall k | 0 <= k < n
        ensures h[2 * k] == AddedHookRow(base + k, BulkStock(product, added, user, today, serials, k))
        ensures h[2 * k + 1] == BulkAddedRow(base + k, user, product)
      {
        assert added[..n][k] == added[k];
        assert h[2 * k] == prev[2 * k] && h[2 * k + 1] == prev[2 * k + 1];
      }
    }
  }

  /** Every row of the bulk add is an `added` row by the acting user about one of the new units. */
  lemma {:induction false} BulkRowsAdded(base: nat, product: Product, added: seq<string>, user: User,
                                         today: int, serials: seq<string>)
    requires |added| <= |serials|
    ensures forall row :: row in BulkRows(base, product, added, user, today, serials) ==>
              row.action == "added" && row.performedBy == Some(user) && base <= row.stock < base + |added|
    decreases |added|
  {
    if added != [] {
      var n := |added| - 1;
      var prev := BulkRows(base, product, added[..n], user, today, serials);
      var h := BulkRows(base, product, added, user, today, serials);
      BulkRowsAdded(base, product, added[..n], user, today, serials);
      var pair := [AddedHookRow(base + n, BulkStock(product, added, user, today, serials, n)),
                   BulkAddedRow(base + n, user, product)];
      assert h == prev + pair;
      forall row | row in h
        ensures row.action == "added" && row.performedBy == Some(user) && base <= row.stock < base + |added|
      {
        if row !in prev {
          assert row in pair;
        }
      }
    }
  }

  /** The serial draws are pairwise distinct and none is already in use. */
  ghost predicate SerialsFresh(serials: seq<string>, inUse: set<string>)
  {
    (forall k :: 0 <= k < |serials| ==> serials[k] !in inUse)
    && (forall j, k :: 0 <= j < k < |serials| ==> serials[j] != serials[k])
  }

  /** Adding one more IMEI extends the new rows by one unit and the log by its two rows. */
  lemma BulkSnoc(base: nat, product: Product, added: seq<string>, x: string, user: User, today: int,
                 serials: seq<string>)
    requires |added| < |serials|
    ensures var k := |added|;
            var s := BulkStock(product, added + [x], user, today, serials, k);
            && NewStocks(base, product, added + [x], user, today, serials)
                 == NewStocks(base, product, added, user, today, serials)[base + k := s]
            && BulkRows(base, product, added + [x], user, today, serials)
                 == BulkRows(base, product, added, user, today, serials)
                    + [AddedHookRow(base + k, s), BulkAddedRow(base + k, user, product)]
  {
    assert (added + [x])[..|added|] == added;
  }

  /** Updating the right operand of a map union is updating the union. */
  lemma MapUnionUpdate<K, V>(m1: map<K, V>, m2: map<K, V>, k: K, v: V)
    ensures (m1 + m2)[k := v] == m1 + m2[k := v]
  {
  }

  /** The next serial draw is not used by the stored rows nor by the units added so far. */
  lemma NextSerialFresh(initial: map<nat, Stock>, base: nat, product: Product, added: seq<string>,
                        user: User, today: int, serials: seq<string>)
    requires forall pk :: pk in initial ==> pk < base
    requires |added| < |serials|
    requires SerialsFresh(serials, SerialsOf(initial))
    ensures serials[|added|] !in SerialsOf(initial + NewStocks(base, product, added, user, today, serials))
  {
    var m := initial + NewStocks(base, product, added, user, today, serials);
    NewStocksAt(base, product, added, user, today, serials);
    forall q | q in m ensures m[q].serialNumber != serials[|added|] {
      if q in initial && q < base {
        assert initial[q].serialNumber in SerialsOf(initial);
      } else {
        assert m[q].serialNumber == serials[q - base];
      }
    }
  }

  /** Classifying one more line: a blank line changes nothing; an IMEI that was stored or that
      an earlier line added is a duplicate; any other IMEI is added. */
  lemma {:induction false} ClassifySnoc(inStore: set<string>, imeis: seq<string>, imei: string)
    ensures var r := BulkClassify(inStore, imeis);
            BulkClassify(inStore, imeis + [imei]) ==
              if imei == [] then r
              else if imei in inStore || imei in r.0 then (r.0, r.1 + [imei])
              else (r.0 + [imei], r.1)
    decreases |imeis|
  {
    if imeis == [] {
      var one := imeis + [imei];
      assert one[0] == imei && one[1..] == [];
      assert [imei] + [] == [imei] == [] + [imei];
    } else {
      var head := imeis[0];
      assert (imeis + [imei])[0] == head && (imeis + [imei])[1..] == imeis[1..] + [imei];
      if head == [] {
        ClassifySnoc(inStore, imeis[1..], imei);
      } else if head in inStore {
        ClassifySnoc(inStore, imeis[1..], imei);
        var r := BulkClassify(inStore, imeis[1..]);
        assert [head] + (r.1 + [imei]) == ([head] + r.1) + [imei];
      } else {
        ClassifySnoc(inStore + {head}, imeis[1..], imei);
        var r := BulkClassify(inStore + {head}, imeis[1..]);
        assert [head] + (r.0 + [imei]) == ([head] + r.0) + [imei];
        assert (imei in inStore + {head} || imei in r.0) <==> (imei in inStore || imei in [head] + r.0);
      }
    }
  }

  /** The IMEIs stored once the units for `added` are in: those stored before and the added ones. */
  lemma ImeisOfBulk(initial: map<nat, Stock>, base: nat, product: Product, added: seq<string>,
                    user: User, today: int, serials: seq<string>)
    requires forall pk :: pk in initial ==> pk < base
    requires |added| <= |serials|
    ensures forall x ::
              x in ImeisOf(initial + NewStocks(base, product, added, user, today, serials))
              <==> x in ImeisOf(initial) || x in added
  {
    var m := initial + NewStocks(base, product, added, user, today, serials);
    NewStocksAt(base, product, added, user, today, serials);
    forall x | x in ImeisOf(m) ensures x in ImeisOf(initial) || x in added {
      var pk :| pk in m && m[pk].imeiNumber == Some(x);
      if pk !in initial {
        assert m[pk].imeiNumber == Some(added[pk - base]);
      } else {
        assert initial[pk] == m[pk];
      }
    }
    forall x | x in ImeisOf(initial) || x in added ensures x in ImeisOf(m) {
      if x in added {
        var k :| 0 <= k < |added| && added[k] == x;
        assert m[base + k].imeiNumber == Some(x);
      } else {
        var pk :| pk in initial && initial[pk].imeiNumber == Some(x);
        assert m[pk] == initial[pk];
      }
    }
  }

  /** What one run of the loop of `bulk_add_stock` works on: the form's product, the user, the
      day, the serials to draw, the lines, and the store's rows, next key and log before it. */
  datatype BulkRun = BulkRun(product: Product, user: User, today: int, serials: seq<string>,
                             lines: seq<string>, initial: map<nat, Stock>, base: nat,
                             log: seq<HistoryRow>)

  /** The state of the loop before line `i`: the store holds the units for `added` under the next
      keys, the log their rows, and `added` and `duplicates` classify the lines before `i`. */
  ghost predicate BulkProgress(ledger: Ledger, run: BulkRun, imeis: seq<string>, i: nat,
                               added: seq<string>, duplicates: seq<string>)
    reads ledger
  {
    && i <= |run.lines| <= |run.serials| && |imeis| == |run.lines|
    && |added| + |duplicates| <= i
    && SerialsFresh(run.serials, SerialsOf(run.initial))
    && (forall pk :: pk in run.initial ==> pk < run.base)
    && ledger.Valid()
    && ledger.nextPk == run.base + |added|
    && ledger.stocks == run.initial + NewStocks(run.base, run.product, added, run.user, run.today, run.serials)
    && ledger.history == run.log + BulkRows(run.base, run.product, added, run.user, run.today, run.serials)
    && (added, duplicates) == BulkClassify(ImeisOf(run.initial), imeis[..i])
  }

  /** Before the first line nothing is added yet. */
  lemma BulkStart(ledger: Ledger, run: BulkRun, imeis: seq<string>)
    requires |imeis| == |run.lines|
    requires ledger.Valid()
    requires |run.lines| <= |run.serials|
    requires SerialsFresh(run.serials, SerialsOf(ledger.stocks))
    requires run.initial == ledger.stocks && run.base == ledger.nextPk && run.log == ledger.history
    ensures BulkProgress(ledger, run, imeis, 0, [], [])
  {
    assert imeis[..0] == [];
  }

  /** After the last line the two lists are the classification of all lines. */
  lemma BulkDone(ledger: Ledger, run: BulkRun, imeis: seq<string>, added: seq<string>,
                 duplicates: seq<string>)
    requires Stripped(run.lines, imeis)
    requires BulkProgress(ledger, run, imeis, |run.lines|, added, duplicates)
    ensures (added, duplicates) == BulkClassify(ImeisOf(run.initial), StripEach(run.lines))
    ensures |added| <= |run.serials|
    ensures ledger.Valid()
    ensures ledger.nextPk == run.base + |added|
    ensures ledger.stocks == run.initial + NewStocks(run.base, run.product, added, run.user, run.today, run.serials)
    ensures ledger.history == run.log + BulkRows(run.base, run.product, added, run.user, run.today, run.serials)
  {
    assert imeis[..|run.lines|] == imeis;
    StrippedIsStripEach(run.lines, imeis);
  }
}
