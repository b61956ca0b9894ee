/** The schema of the sales_process app: products, stock units, users and the history log. */
module Models {
  import opened Wrappers

  /** `Stock.STATUS_CHOICES`; a stock unit starts `InStock`. */
  datatype Status = InStock | Assigned | Sold | Returned

  /** The value stored in the `status` column. */
  function StatusValue(s: Status): string
  {
    match s
    case InStock => "in_stock"
    case Assigned => "assigned"
    case Sold => "sold"
    case Returned => "returned"
  }

  /** The inverse of `StatusValue`: defined on the four declared choices and nothing else. */
  function ParseStatus(v: string): (r: Option<Status>)
    ensures r.Some? <==> v in {"in_stock", "assigned", "sold", "returned"}
    ensures r.Some? ==> StatusValue(r.value) == v
  {
    if v == "in_stock" then Some(InStock)
    else if v == "assigned" then Some(Assigned)
    else if v == "sold" then Some(Sold)
    else if v == "returned" then Some(Returned)
    else None
  }

  /** Every status is stored as one of the declared choices, and `ParseStatus` maps it back. */
  lemma ParseStatusValue(s: Status)
    ensures ParseStatus(StatusValue(s)) == Some(s)
  {
  }

  /** A user; Django compares model instances by primary key, so `id` is the identity. */
  datatype User = User(id: nat, username: string, role: string)

  /** `str(user)`: "username (role)". */
  function UserText(u: User): string
  {
    u.username + " (" + u.role + ")"
  }

  /** `a == b` on two nullable user references. */
  predicate SameUser(a: Option<User>, b: Option<User>)
  {
    (a.None? && b.None?) || (a.Some? && b.Some? && a.value.id == b.value.id)
  }

  /** The product fields the core reads (the remaining catalogue columns are not modelled). */
  datatype Product = Product(itemCode: string, modelName: string, modelSku: string, modelCategory: string)

  /** One row of the `Stock` table. Days are integers; `product` stands for the row it references. */
  datatype Stock = Stock(
    serialNumber: string,
    imeiNumber: Option<string>,
    product: Product,
    stockInDate: int,
    addedBy: Option<User>,
    status: Status,
    assignedTo: Option<User>,
    lastAssignedDate: Option<int>,
    dateSinceStockIn: int)

  /** A row created with only the given fields: everything else takes its declared default
      (`status` in_stock, no holder, no assignment date, the creation day for `date_since_stock_in`). */
  function NewStock(product: Product, serial: string, imei: Option<string>, addedBy: Option<User>,
                    stockInDate: int, today: int): (s: Stock)
    ensures s.status == InStock && s.assignedTo.None? && s.lastAssignedDate.None?
    ensures s.product == product && s.serialNumber == serial && s.imeiNumber == imei
    ensures s.addedBy == addedBy && s.stockInDate == stockInDate && s.dateSinceStockIn == today
  {
    Stock(serial, imei, product, stockInDate, addedBy, InStock, None, None, today)
  }

  /** `Stock.days_in_stock`: whole days from `stock_in_date` to `today` (negative for a future date). */
  function DaysInStock(s: Stock, today: int): (d: int)
    ensures s.stockInDate + d == today
  {
    today - s.stockInDate
  }

  /** One row of `StockHistory`. `action` is free text: `ActionChoices` lists the declared
      tags, and nothing rejects a tag outside them. The timestamp is not modelled. */
  datatype HistoryRow = HistoryRow(
    stock: nat,
    action: string,
    performedBy: Option<User>,
    transferredFrom: Option<User>,
    transferredTo: Option<User>,
    details: string)

  /** `StockHistory.ACTION_CHOICES`. */
  const ActionChoices: set<string> := {"added", "assigned", "returned", "sold", "status_change"}
}
