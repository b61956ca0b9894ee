# Stock ledger of the `sales_process` app

This project models the stock ledger of the `sales_process` Django app. The ledger is the
`Stock` table, where serial numbers are unique and non-null IMEIs are unique, together with
the append-only `StockHistory` log. The model covers the code that changes the ledger and the
searches that read it:

- `bulk_add_stock` (POST branch). It splits the submitted text into lines and strips each line.
  It skips blank lines, reports an IMEI that is already stored as a duplicate, and stocks in a
  new unit for any other IMEI with a fresh serial. It writes its own `added` row for each new
  unit.
- `allocate_stock` (POST branch). It looks the unit up by IMEI, refuses an empty `user_id` and
  looks the user up. It then sets the holder and the assignment day, saves, and writes an
  `allocated` row.
- The two save receivers in `signals.py`, run as Django does around every write:
  - `pre_save` (`track_stock_changes`) compares the instance with its stored row. It logs an
    `assigned` or `returned` row and a `status_change` row, and stamps `last_assigned_date`
    when the unit gets a new holder.
  - `post_save` (`create_stock_added_history`) logs the `added` row of a new unit.
- `filter_products` and `filter_stocks`: case-insensitive substring searches over listed
  fields. A blank query lists everything.
- The schema of `models.py`:
  - the four-value status, which defaults to `in_stock`;
  - the field defaults and the unique constraints;
  - history rows that reference a stock and are deleted with it;
  - `days_in_stock`.

Modules:

- `Wrappers`: `Option`.
- `Text`: Python's `str.strip()` and `str.splitlines()`, and `icontains` with ASCII case folding.
- `Seqs`: order-preserving selection, the shape of a queryset `.filter(...)`.
- `Models`: the schema as datatypes.
- `Store`: the `Ledger` class, i.e. the two tables updated in place.
  - `Valid()` is the schema's constraints.
  - INSERT and UPDATE refuse a row that breaks a unique constraint.
  - DELETE cascades to the history.
- `Signals`: the receivers as methods, with `ChangeHook` as the function that specifies the
  pre-save diff. It also has the two save pipelines:
  - `Stock.objects.create`: pre_save, INSERT, post_save with `created`;
  - `stock.save()`: pre_save, UPDATE, post_save.
- `Bulk`: the specification of the bulk loop.
  - `BulkClassify` lists the added and duplicate IMEIs.
  - `NewStocks` and `BulkRows` give the rows stored and logged.
  - `BulkProgress` is the state the loop keeps.
- `Views`: the view code.
  - The bulk loop and the allocation are methods on the `Ledger`.
  - `Allocation` specifies a valid allocation.
  - The filters are functions.

Abstractions:

- The clock is an integer day number `today`.
- `uuid4` serials are a sequence `serials` handed in by the caller. The values are pairwise
  distinct and not already in use; the `k`-th unit added takes `serials[k]`.
- A Django model instance equals another when their primary keys match, so users are compared
  by `id`.
- `str(user)` is `"username (role)"`.
- The history action is an open text tag. The `allocated` tag written by `allocate_stock` is
  not among the declared `ACTION_CHOICES`, and nothing rejects it.

Behaviour of the code worth knowing:

- `allocate_stock` neither checks nor sets `status`.
- `allocate_stock` has no `login_required`. For an anonymous request the save goes through,
  with its hook row. Then creating the `allocated` row raises, because `performed_by` cannot
  hold the anonymous user, and the request ends in an error with no `allocated` row.
- The bulk stock-in does not de-duplicate the batch first. A second occurrence of an IMEI is
  found by the store check, because the first occurrence has been stored in the meantime. It is
  reported as a duplicate.
- A bulk-added unit gets two `added` rows, one from the hook and one from the view. An
  allocation that changes the holder gets two rows, the hook's `assigned` row and then the
  view's `allocated` row.
- The batch is not atomic: the views open no transaction.

## Model

| member | source | states |
|---|---|---|
| Views.BulkAddStock | dsr_sales_system/dsr_sales_sys/sales_process/views.py:71-100 | Splitting the text and running the loop gives exactly three results. The added and duplicate lists are `BulkClassify` of the stripped lines against the IMEIs stored before the loop. The store gains exactly `NewStocks` under the keys that follow the last key, so existing rows are unchanged. The log grows by exactly `BulkRows`. The schema's constraints still hold. |
| Views.StockInLines | dsr_sales_system/dsr_sales_sys/sales_process/views.py:74-100 | The loop over the lines gives the same results as above for any list of lines. The loop invariant is `BulkProgress` on the prefix of lines already handled. |
| Views.StockInLine | dsr_sales_system/dsr_sales_sys/sales_process/views.py:77-100 | One iteration keeps `BulkProgress`. A blank line changes nothing. A stored IMEI is appended to the duplicates and nothing is written. Any other IMEI gets a new unit and is appended to the added list. |
| Views.AddUnit | dsr_sales_system/dsr_sales_sys/sales_process/views.py:85-98 | Creating the unit for a new IMEI stores it under the next key with the next fresh serial. The unique constraints still hold. The log gains the hook's `added` row and then the view's `Bulk add for <model name>` row. The stored IMEIs gain exactly this IMEI. |
| Bulk.BulkPartition | dsr_sales_system/dsr_sales_sys/sales_process/views.py:77-83 | Every non-blank stripped line lands in exactly one of the two lists (as multisets), and blank lines land in neither. Each list keeps the input order. |
| Bulk.BulkAddedExactlyNew | dsr_sales_system/dsr_sales_sys/sales_process/views.py:81-100 | The added list holds every candidate IMEI that was not stored exactly once, and nothing else. |
| Bulk.BulkAddedDistinct | dsr_sales_system/dsr_sales_sys/sales_process/views.py:81-100 | The added list has no repeats. It holds no IMEI that was already stored. |
| Bulk.BulkCovers | dsr_sales_system/dsr_sales_sys/sales_process/views.py:77-83 | A candidate IMEI that was stored is a duplicate and is never added. Every new candidate is added. The two lists together are as long as the list of non-blank lines. |
| Bulk.CandidatesOfLines | dsr_sales_system/dsr_sales_sys/sales_process/views.py:77-80 | Each candidate is non-blank, carries no surrounding white space and is the strip of one of the lines. |
| Bulk.ClassifySnoc | dsr_sales_system/dsr_sales_sys/sales_process/views.py:77-100 | Classifying one more line depends only on the lines before it. A blank line changes nothing. An IMEI that was stored, or that an earlier line added, is appended to the duplicates. Any other IMEI is appended to the added list. |
| Bulk.StrippedIsStripEach | dsr_sales_system/dsr_sales_sys/sales_process/views.py:77-78 | A sequence holds the stripped lines, position by position, exactly when it is `StripEach` of the lines. |
| Bulk.NewStocksAt | dsr_sales_system/dsr_sales_sys/sales_process/views.py:85-91 | The new units are keyed `base .. base + n - 1`. The `k`-th new unit carries the `k`-th added IMEI, the product, the acting user and the `k`-th serial. Its stock-in day is today, so it has zero days in stock. Its status is `in_stock`, with no holder and no assignment date. |
| Bulk.BulkRowsAt | dsr_sales_system/dsr_sales_sys/sales_process/views.py:85-98 | The log grows by two rows per added unit: the hook's `added` row at position `2k` and the view's `added` row at `2k + 1`. |
| Bulk.BulkRowsAdded | dsr_sales_system/dsr_sales_sys/sales_process/views.py:93-98 | Every row of a bulk add is an `added` row by the acting user about one of the new units. |
| Bulk.BulkSnoc | dsr_sales_system/dsr_sales_sys/sales_process/views.py:85-100 | Adding one more IMEI adds one unit under the next key and appends its two rows to the log. |
| Bulk.NextSerialFresh | dsr_sales_system/dsr_sales_sys/sales_process/views.py:89 | The next serial drawn is used neither by the stored rows nor by the units added so far. |
| Bulk.ImeisOfBulk | dsr_sales_system/dsr_sales_sys/sales_process/views.py:81-100 | After adding, the stored IMEIs are exactly the IMEIs stored before plus the added ones. |
| Views.Allocation | dsr_sales_system/dsr_sales_sys/sales_process/views.py:150-171 | The holder becomes the new user and the assignment day becomes today; the status and every other field are unchanged. When the holder changes, the hook's `assigned` row comes first. The last row is the view's `allocated` row, by the actor, from the previous holder (possibly none) to the new user. Its details start with "Transferred from " exactly when there was a different earlier holder; otherwise they are "Allocated to <user>". |
| Views.ReallocationIsTransfer | dsr_sales_system/dsr_sales_sys/sales_process/views.py:157-160 | Allocating to `u1` and then to `u2` records the second allocation as coming from `u1` and going to `u2`. It is a transfer, and has a hook row, exactly when `u1` and `u2` differ. |
| Views.AllocateStock | dsr_sales_system/dsr_sales_sys/sales_process/views.py:140-171 | Three outcomes write nothing: an unknown IMEI, an empty `user_id` and an unknown user, each characterised by if-and-only-if. For a logged-in actor the found unit's row and the log change exactly as `Allocation` says. For an anonymous request (exactly when the lookups succeed and there is no actor) the new holder and assignment day are saved and only the hook's `assigned` row, if the holder changed, is logged. No other row changes, the key counter is unchanged and the constraints still hold. |
| Views.FilterProducts | dsr_sales_system/dsr_sales_sys/sales_process/views.py:52-62 | A blank (stripped) query returns the products unchanged. Otherwise the result is exactly the products whose model name, SKU or item code contain the stripped query case-insensitively, with their multiplicity and in listing order. |
| Views.FilterStocks | dsr_sales_system/dsr_sales_sys/sales_process/views.py:125-135 | A blank query returns the units unchanged. Otherwise the result is exactly the units that match the stripped query, in listing order. A unit matches when its IMEI, product name, SKU or category, or holder's username contains the query case-insensitively. A missing IMEI or holder matches nothing. |
| Seqs.Select | dsr_sales_system/dsr_sales_sys/sales_process/views.py:128-135 | A queryset filter keeps exactly the accepted elements, with their multiplicity and in order. |
| Text.TrimStartSpec | dsr_sales_system/dsr_sales_sys/sales_process/views.py:78 | Trimming the front leaves a suffix, removes only white space, and stops at the first character that is not white space. |
| Text.TrimEndSpec | dsr_sales_system/dsr_sales_sys/sales_process/views.py:78 | Trimming the back leaves a prefix, removes only white space, and stops at the last character that is not white space. |
| Text.StripSpec | dsr_sales_system/dsr_sales_sys/sales_process/views.py:78 | `strip()` returns the slice that neither starts nor ends with white space, with only white space outside it. The result is empty exactly when the line is all white space. |
| Text.StripIdempotent | dsr_sales_system/dsr_sales_sys/sales_process/views.py:78 | Stripping twice is stripping once. |
| Text.StripOfTrimmed | dsr_sales_system/dsr_sales_sys/sales_process/views.py:78 | A string with no white space at either end strips to itself. |
| Text.SplitLinesNoBreaks | dsr_sales_system/dsr_sales_sys/sales_process/views.py:72 | No line returned by `splitlines()` contains a line break. |
| Text.SplitFirstLine | dsr_sales_system/dsr_sales_sys/sales_process/views.py:72 | A line without breaks followed by "\n" is the first line, and the rest of the text is split after it. |
| Text.SplitJoinLines | dsr_sales_system/dsr_sales_sys/sales_process/views.py:72 | `splitlines()` of lines written one per line gives back exactly those lines. |
| Text.ContainsIff | dsr_sales_system/dsr_sales_sys/sales_process/views.py:56-62 | The substring search succeeds exactly when the needle occurs at some position. |
| Text.IContainsIff | dsr_sales_system/dsr_sales_sys/sales_process/views.py:129-135 | `icontains` holds exactly when the lower-cased query occurs in the lower-cased field. |
| Models.ParseStatus | dsr_sales_system/dsr_sales_sys/sales_process/models.py:78-83 | The inverse of `StatusValue` on the four declared choices: defined exactly on those four values, and each maps to the status stored as it. |
| Models.ParseStatusValue | dsr_sales_system/dsr_sales_sys/sales_process/models.py:101-105 | Every status is stored as one of the declared choices, and `ParseStatus` maps that value back to it. |
| Models.NewStock | dsr_sales_system/dsr_sales_sys/sales_process/models.py:94-116 | A row created with only some fields gets the declared defaults: status `in_stock`, no holder and no assignment date. |
| Models.DaysInStock | dsr_sales_system/dsr_sales_sys/sales_process/models.py:121-124 | The stock-in day plus the days in stock is today, so a unit has zero days in stock on its stock-in day. |
| Store.AdmissibleNew | dsr_sales_system/dsr_sales_sys/sales_process/models.py:85-86 | A new row passes the unique constraints exactly when its serial is unused and its IMEI, if any, is unused. |
| Store.ImeisOfInsert | dsr_sales_system/dsr_sales_sys/sales_process/models.py:86 | Inserting a row adds exactly its IMEI, if it has one, to the IMEIs in use. |
| Store.SerialsOfInsert | dsr_sales_system/dsr_sales_sys/sales_process/models.py:85 | Inserting a row adds exactly its serial to the serials in use. |
| Store.RowsNotOf | dsr_sales_system/dsr_sales_sys/sales_process/models.py:136-140 | The rows kept by a cascading delete: exactly the rows of other stocks, each as often as in the log, in log order. |
| Store.Ledger.constructor | dsr_sales_system/dsr_sales_sys/sales_process/models.py:77-141 | Empty tables satisfy the schema's constraints. |
| Store.Ledger.ImeiInUse | dsr_sales_system/dsr_sales_sys/sales_process/views.py:81 | `filter(imei_number=imei).exists()` holds exactly when the IMEI is stored. |
| Store.Ledger.Insert | dsr_sales_system/dsr_sales_sys/sales_process/models.py:85-86 | An INSERT succeeds exactly when the row breaks no unique constraint. On success it takes the next key and changes nothing else; on refusal nothing changes. The constraints hold afterwards. |
| Store.Ledger.Update | dsr_sales_system/dsr_sales_sys/sales_process/models.py:85-86 | An UPDATE succeeds exactly when the row breaks no unique constraint against another row. Only that row changes. |
| Store.Ledger.AppendHistory | dsr_sales_system/dsr_sales_sys/sales_process/models.py:136-140 | A history row about a stored unit is appended at the end of the log; no existing row changes. |
| Store.Ledger.Delete | dsr_sales_system/dsr_sales_sys/sales_process/models.py:136-140 | Deleting a unit removes it and exactly its history rows, and keeps every other row in order. |
| Signals.ChangeHook | dsr_sales_system/dsr_sales_sys/sales_process/signals.py:25-52 | The pre-save diff changes only `last_assigned_date`, set to today when the unit gets a new non-null holder. It appends one row per changed aspect, the holder row first: `assigned` for a new holder, `returned` for none. There is a `status_change` row naming the old and new status exactly when the status differs. All rows are about the unit, by its `added_by`, with a declared action. |
| Signals.QuietSave | dsr_sales_system/dsr_sales_sys/sales_process/signals.py:28-52 | A save that changes neither the holder nor the status passes the instance through and logs nothing. |
| Signals.CreateStockAddedHistory | dsr_sales_system/dsr_sales_sys/sales_process/signals.py:7-16 | On creation exactly one `added` row by `added_by` is appended; otherwise nothing. |
| Signals.TrackStockChanges | dsr_sales_system/dsr_sales_sys/sales_process/signals.py:19-52 | For an instance without a key nothing happens. Otherwise the instance let through and the rows appended are those of `ChangeHook` against the stored row. The store itself is unchanged. |
| Signals.CreateStock | dsr_sales_system/dsr_sales_sys/sales_process/signals.py:7-23 | `objects.create` stores the unit under the next key exactly when it breaks no unique constraint, and then appends exactly its hook `added` row. Otherwise nothing changes. |
| Signals.SaveStock | dsr_sales_system/dsr_sales_sys/sales_process/signals.py:19-52 | `save()` on a stored unit appends the `ChangeHook` rows, and writes the instance the hook let through when the unique constraints allow it. |

## Left out

- The GET branches of the views are left out, along with HTML responses, templates and the downloadable-CSV variable. They are presentation only.
- Form validation (`BulkStockForm`, `ModelChoiceField`) is left out. It is Django library behaviour; the model takes the cleaned product and text as given. In particular it does not use the fact that `CharField` strips the whole text and rejects an empty one.
- The `performed_on` timestamp and the database's ordering of the log are left out. The log order is the order of appends.
- The real clock (`timezone.now().date()`, `date.today()`) is an integer day supplied by the caller. Time zones are not modelled.
- The randomness of `uuid4`, and a collision of a drawn serial with a stored one, are not modelled. Serials are assumed fresh and distinct.
- The `max_length` limits on the character fields are not modelled, so a too-long IMEI is stored rather than refused by the database.
- Text.IContains: case folding is ASCII only. This is what SQLite's `LIKE` does; other databases fold more characters.
- Views.AllocateStock: a non-numeric `user_id`, for which the source raises `ValueError`, collapses into `UserNotFound`. Both write nothing.
- Views.AllocateStock: an exception that ends the request is a result value (`LogRefused` for the anonymous request), not an HTTP 500. A refused UPDATE is also a result value, and the allocation is never refused.
- Signals.TrackStockChanges: requires the stored row to exist. The source would raise `DoesNotExist` otherwise, which no caller in the core can reach.
- Database concurrency and transactions are left out; the views use neither. A failure in the middle of a batch, which would leave the earlier units stored, is not modelled.
- Product fields other than item code, name, SKU and category are left out, because the core never reads them. A product stands for its own row, not for a foreign key.
- Sale, Customer, return and receipt behaviour are left out, since none of the modelled code touches them, and so are the other views (`create_product`, `search_users`, the user-management app), QR generation, admin configuration, URL routing and template tags.
