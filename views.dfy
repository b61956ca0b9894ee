/** The POST branches of `bulk_add_stock` and `allocate_stock`, and the HTMX search filters
    `filter_products` and `filter_stocks`. The clock is the day number `today`, and the random
    `SER-xxxxxxxx` serials are a sequence of fresh names handed in by the caller. */
module Views {
  import opened Wrappers
  import opened Text
  import opened Seqs
  import opened Models
  import opened Store
  import opened Signals
  import opened Bulk

  // ================================================================ bulk_add_stock

  /** The body of the loop for an IMEI not yet stored: `Stock.objects.create(...)`, whose
      `post_save` hook logs the first `added` row, then the view's own `added` row. */
  method AddUnit(ledger: Ledger, product: Product, imei: string, serial: string, user: User, today: int,
                 ghost serials: seq<string>, ghost initial: map<nat, Stock>, ghost base: nat,
                 ghost added: seq<string>, ghost log: seq<HistoryRow>)
    requires ledger.Valid()
    requires forall pk :: pk in initial ==> pk < base
    requires |added| < |serials| && serial == serials[|added|]
    requires SerialsFresh(serials, SerialsOf(initial))
    requires ledger.nextPk == base + |added|
    requires ledger.stocks == initial + NewStocks(base, product, added, user, today, serials)
    requires ledger.history == log + BulkRows(base, product, added, user, today, serials)
    requires imei !in ImeisOf(ledger.stocks)
    modifies ledger
    ensures ledger.Valid()
    ensures ledger.nextPk == base + |added| + 1
    ensures ledger.stocks == initial + NewStocks(base, product, added + [imei], user, today, serials)
    ensures ledger.history == log + BulkRows(base, product, added + [imei], user, today, serials)
    ensures ImeisOf(ledger.stocks) == ImeisOf(old(ledger.stocks)) + {imei}
  {
    var stock := NewStock(product, serial, Some(imei), Some(user), today, today);
    ghost var k := |added|;
    assert stock == BulkStock(product, added + [imei], user, today, serials, k);
    assert Admissible(ledger.stocks, ledger.nextPk, stock) by {
      NextSerialFresh(initial, base, product, added, user, today, serials);
      AdmissibleNew(ledger.stocks, ledger.nextPk, stock);
    }
    ghost var before := ledger.stocks;
    var pk := CreateStock(ledger, stock, today);
    ledger.AppendHistory(BulkAddedRow(pk.value, user, product));
    assert ImeisOf(ledger.stocks) == ImeisOf(before) + {imei} by {
      ImeisOfInsert(before, pk.value, stock);
    }
    assert ledger.stocks == initial + NewStocks(base, product, added + [imei], user, today, serials) by {
      BulkSnoc(base, product, added, imei, user, today, serials);
      MapUnionUpdate(initial, NewStocks(base, product, added, user, today, serials), base + k, stock);
    }
    assert ledger.history == log + BulkRows(base, product, added + [imei], user, today, serials) by {
      BulkSnoc(base, product, added, imei, user, today, serials);
    }
  }

  /** The body of the loop for line `i`: strip it; skip it when blank; report it when its IMEI
      is stored; otherwise stock in a new unit. */
  method StockInLine(ledger: Ledger, run: BulkRun, ghost imeis: seq<string>, i: nat,
                     added: seq<string>, duplicates: seq<string>)
    returns (added': seq<string>, duplicates': seq<string>)
    requires i < |run.lines|
    requires Stripped(run.lines, imeis)
    requires BulkProgress(ledger, run, imeis, i, added, duplicates)
    modifies ledger
    ensures BulkProgress(ledger, run, imeis, i + 1, added', duplicates')
  {
    var imei := Strip(run.lines[i]);
    assert imei == imeis[i];
    assert imeis[..i + 1] == imeis[..i] + [imei];
    ClassifySnoc(ImeisOf(run.initial), imeis[..i], imei);
    ImeisOfBulk(run.initial, run.base, run.product, added, run.user, run.today, run.serials);
    if imei == [] {
      // a blank line is skipped
      added', duplicates' := added, duplicates;
    } else if ledger.ImeiInUse(imei) {
      added', duplicates' := added, duplicates + [imei];
    } else {
      AddUnit(ledger, run.product, imei, run.serials[|added|], run.user, run.today, run.serials,
              run.initial, run.base, added, run.log);
      added', duplicates' := added + [imei], duplicates;
    }
  }

  /** The POST branch of `bulk_add_stock` for a valid form: `product` and `imeiText` are the
      form's cleaned data and `user` the logged-in user; the text is split into lines and the
      lines are stocked in. */
  method BulkAddStock(ledger: Ledger, product: Product, imeiText: string, user: User, today: int,
                      serials: seq<string>)
    returns (added: seq<string>, duplicates: seq<string>)
    requires ledger.Valid()
    requires |serials| >= |SplitLines(imeiText)|
    requires SerialsFresh(serials, SerialsOf(ledger.stocks))
    modifies ledger
    ensures ledger.Valid()
    ensures (added, duplicates) == BulkClassify(ImeisOf(old(ledger.stocks)), StripEach(SplitLines(imeiText)))
    ensures |added| <= |serials|
    ensures ledger.nextPk == old(ledger.nextPk) + |added|
    ensures ledger.stocks == old(ledger.stocks) + NewStocks(old(ledger.nextPk), product, added, user, today, serials)
    ensures ledger.history == old(ledger.history) + BulkRows(old(ledger.nextPk), product, added, user, today, serials)
  {
    var lines := SplitLines(imeiText);
    added, duplicates := StockInLines(ledger, product, lines, user, today, serials);
  }

  /** The loop of `bulk_add_stock` over the lines: each line is stripped; blank lines are
      skipped; an IMEI already stored (including one added earlier in the same batch) is a
      duplicate; any other IMEI becomes a new unit with the next fresh serial, logged by the
      `post_save` hook and then by the view. */
  method StockInLines(ledger: Ledger, product: Product, lines: seq<string>, user: User, today: int,
                      serials: seq<string>)
    returns (added: seq<string>, duplicates: seq<string>)
    requires ledger.Valid()
    requires |serials| >= |lines|
    requires SerialsFresh(serials, SerialsOf(ledger.stocks))
    modifies ledger
    ensures ledger.Valid()
    ensures (added, duplicates) == BulkClassify(ImeisOf(old(ledger.stocks)), StripEach(lines))
    ensures |added| <= |serials|
    ensures ledger.nextPk == old(ledger.nextPk) + |added|
    ensures ledger.stocks == old(ledger.stocks) + NewStocks(old(ledger.nextPk), product, added, user, today, serials)
    ensures ledger.history == old(ledger.history) + BulkRows(old(ledger.nextPk), product, added, user, today, serials)
  {
    var run := BulkRun(product, user, today, serials, lines, ledger.stocks, ledger.nextPk, ledger.history);
    added, duplicates := [], [];
    ghost var imeis := StripEach(lines);
    StrippedIsStripEach(lines, imeis);
    var i := 0;
    BulkStart(ledger, run, imeis);
    while i < |lines|
      invariant Stripped(lines, imeis)
      invariant BulkProgress(ledger, run, imeis, i, added, duplicates)
    {
      added, duplicates := StockInLine(ledger, run, imeis, i, added, duplicates);
      i := i + 1;
    }
    BulkDone(ledger, run, imeis, added, duplicates);
  }

  // ================================================================ allocate_stock

  /** `s` starts with `prefix`. */
  predicate HasPrefix(s: string, prefix: string)
  {
    |prefix| <= |s| && s[..|prefix|] == prefix
  }

  /** The details text of the `allocated` row: a transfer when there was an earlier, different
      holder, a plain allocation otherwise. */
  function AllocationDetails(previous: Option<User>, newUser: User): string
  {
    if previous.Some? && previous.value.id != newUser.id
    then "Transferred from " + UserText(previous.value) + " to " + UserText(newUser)
    else "Allocated to " + UserText(newUser)
  }

  /** The effect of a valid allocation of the stored unit `stored` (key `pk`) to `newUser` by
      `actor`: the row written and the history appended, first by the `pre_save` hook during
      `stock.save()`, then by the view. */
  function Allocation(pk: nat, stored: Stock, newUser: User, actor: User, today: int): (r: (Stock, seq<HistoryRow>))
    // the holder and the assignment day change; the status and everything else do not
    ensures r.0 == stored.(assignedTo := Some(newUser), lastAssignedDate := Some(today))
    ensures r.0.status == stored.status
    // an `assigned` row from the hook exactly when the holder changes, then the `allocated` row
    ensures |r.1| == if SameUser(stored.assignedTo, Some(newUser)) then 1 else 2
    ensures !SameUser(stored.assignedTo, Some(newUser)) ==>
              r.1[0].action == "assigned" && r.1[0] == AssignedRow(pk, r.0)
    ensures forall k :: 0 <= k < |r.1| ==> r.1[k].stock == pk
    ensures var last := r.1[|r.1| - 1];
            && last.action == "allocated" && last.action !in ActionChoices
            && last.performedBy == Some(actor)
            && last.transferredFrom == stored.assignedTo && last.transferredTo == Some(newUser)
            && (HasPrefix(last.details, "Transferred from ") <==>
                  stored.assignedTo.Some? && stored.assignedTo.value.id != newUser.id)
            && (!HasPrefix(last.details, "Transferred from ") ==> last.details == "Allocated to " + UserText(newUser))
  {
    var instance := stored.(assignedTo := Some(newUser), lastAssignedDate := Some(today));
    var hook := ChangeHook(pk, stored, instance, today);
    var details := AllocationDetails(stored.assignedTo, newUser);
    assert details[0] == (if stored.assignedTo.Some? && stored.assignedTo.value.id != newUser.id then 'T' else 'A');
    (hook.0, hook.1 + [HistoryRow(pk, "allocated", Some(actor), stored.assignedTo, Some(newUser), details)])
  }

  /** Allocating to `u1` and then to `u2` records the second call as a transfer from `u1` to
      `u2` whenever they differ, and a holder change only then. */
  lemma ReallocationIsTransfer(pk: nat, stored: Stock, u1: User, u2: User, a1: User, a2: User, t1: int, t2: int)
    ensures var first := Allocation(pk, stored, u1, a1, t1);
            var second := Allocation(pk, first.0, u2, a2, t2);
            var last := second.1[|second.1| - 1];
            && last.transferredFrom == Some(u1) && last.transferredTo == Some(u2)
            && (HasPrefix(last.details, "Transferred from ") <==> u1.id != u2.id)
            && (|second.1| == 2 <==> u1.id != u2.id)
  {
  }

  /** The result of the POST branch of `allocate_stock`. `LogRefused` is the request nobody is
      logged in to: the view has no `login_required`, so the save goes through, and then
      `StockHistory.objects.create(performed_by=request.user, ...)` raises on the anonymous user
      and the request ends in an error, without the `allocated` row. */
  datatype AllocationOutcome =
    | StockNotFound | NoUserSelected | UserNotFound
    | Allocated(pk: nat, holder: User)
    | LogRefused(pk: nat, holder: User)

  /** The POST branch of `allocate_stock`: look the unit up by IMEI (404 if none), refuse an
      empty `user_id`, look the user up (404 if none), then set the holder and the assignment
      day, save, and log the allocation. `users` resolves the submitted `user_id` text;
      `actor` is the logged-in user, `None` for an anonymous request. */
  method AllocateStock(ledger: Ledger, imei: string, userId: string, users: map<string, User>,
                       actor: Option<User>, today: int)
    returns (outcome: AllocationOutcome)
    requires ledger.Valid()
    modifies ledger
    ensures ledger.Valid()
    ensures outcome.StockNotFound? <==> imei !in ImeisOf(old(ledger.stocks))
    ensures outcome.NoUserSelected? <==> imei in ImeisOf(old(ledger.stocks)) && userId == ""
    ensures outcome.UserNotFound? <==> imei in ImeisOf(old(ledger.stocks)) && userId != "" && userId !in users
    ensures outcome.LogRefused? <==>
              imei in ImeisOf(old(ledger.stocks)) && userId != "" && userId in users && actor.None?
    ensures ledger.nextPk == old(ledger.nextPk)
    ensures !outcome.Allocated? && !outcome.LogRefused? ==>
              ledger.stocks == old(ledger.stocks) && ledger.history == old(ledger.history)
    ensures outcome.Allocated? || outcome.LogRefused? ==>
              && userId in users && outcome.holder == users[userId]
              && outcome.pk in old(ledger.stocks)
              && old(ledger.stocks)[outcome.pk].imeiNumber == Some(imei)
    ensures outcome.Allocated? ==>
              && actor.Some?
              && var r := Allocation(outcome.pk, old(ledger.stocks)[outcome.pk], outcome.holder, actor.value, today);
                 && ledger.stocks == old(ledger.stocks)[outcome.pk := r.0]
                 && ledger.history == old(ledger.history) + r.1
    // the anonymous request: the new holder is saved and the hook's row, if any, is logged
    ensures outcome.LogRefused? ==>
              var stored := old(ledger.stocks)[outcome.pk];
              var saved := stored.(assignedTo := Some(outcome.holder), lastAssignedDate := Some(today));
              && ledger.stocks == old(ledger.stocks)[outcome.pk := saved]
              && ledger.history == old(ledger.history)
                   + (if SameUser(stored.assignedTo, Some(outcome.holder)) then [] else [AssignedRow(outcome.pk, saved)])
  {
    if !ledger.ImeiInUse(imei) {
      return StockNotFound;
    }
    var pk :| pk in ledger.stocks && ledger.stocks[pk].imeiNumber == Some(imei);
    if userId == "" {
      return NoUserSelected;
    }
    if userId !in users {
      return UserNotFound;
    }
    var newUser := users[userId];
    var stock := ledger.stocks[pk];
    var oldUser := stock.assignedTo;
    var instance := stock.(assignedTo := Some(newUser), lastAssignedDate := Some(today));
    assert Admissible(ledger.stocks, pk, instance);
    var ok := SaveStock(ledger, pk, instance, today);
    if actor.None? {
      // `performed_by=request.user` raises on the anonymous user: no `allocated` row
      return LogRefused(pk, newUser);
    }
    ledger.AppendHistory(HistoryRow(pk, "allocated", actor, oldUser, Some(newUser),
                                    AllocationDetails(oldUser, newUser)));
    outcome := Allocated(pk, newUser);
  }

  // ================================================================ filter_products, filter_stocks

  /** The fields `filter_products` searches. */
  predicate ProductMatches(p: Product, query: string)
  {
    IContains(p.modelName, query) || IContains(p.modelSku, query) || IContains(p.itemCode, query)
  }

  /** `filter_products`: an empty (stripped) query lists every product; otherwise the products
      whose name, SKU or item code contain the query, case-insensitively, in the listing's order. */
  function FilterProducts(products: seq<Product>, q: string): (r: seq<Product>)
    ensures Strip(q) == [] ==> r == products
    ensures Strip(q) != [] ==>
              && (forall k :: 0 <= k < |r| ==> ProductMatches(r[k], Strip(q)))
              && (forall p :: multiset(r)[p] == if ProductMatches(p, Strip(q)) then multiset(products)[p] else 0)
              && SubsequenceOf(r, products)
  {
    var query := Strip(q);
    if query == [] then products else Select(products, (p: Product) => ProductMatches(p, query))
  }

  /** The fields `filter_stocks` searches; a NULL IMEI or holder matches nothing. */
  predicate StockMatches(s: Stock, query: string)
  {
    (s.imeiNumber.Some? && IContains(s.imeiNumber.value, query))
    || IContains(s.product.modelName, query)
    || IContains(s.product.modelSku, query)
    || IContains(s.product.modelCategory, query)
    || (s.assignedTo.Some? && IContains(s.assignedTo.value.username, query))
  }

  /** `filter_stocks`: an empty (stripped) query lists every unit; otherwise the units whose IMEI,
      product name, SKU or category, or holder's username contain the query, case-insensitively. */
  function FilterStocks(stocks: seq<Stock>, q: string): (r: seq<Stock>)
    ensures Strip(q) == [] ==> r == stocks
    ensures Strip(q) != [] ==>
              && (forall k :: 0 <= k < |r| ==> StockMatches(r[k], Strip(q)))
              && (forall s :: multiset(r)[s] == if StockMatches(s, Strip(q)) then multiset(stocks)[s] else 0)
              && SubsequenceOf(r, stocks)
  {
    var query := Strip(q);
    if query == [] then stocks else Select(stocks, (s: Stock) => StockMatches(s, query))
  }
}
