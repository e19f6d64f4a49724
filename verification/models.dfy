/**
 * The store's persistent model: status choices, the product image path, order numbers,
 * price snapshots and order totals. Money is in integer cents (the decimal fields have two
 * decimal places).
 *
 * `Store` holds the three tables the order logic touches, and each save is a function from
 * the tables before it to the tables after it: every item save or delete is followed by
 * `update_totals` on the item's order, as the post_save and post_delete signal receivers do.
 */
module Models {
  import opened Common
  import Decimal

  // ---------------------------------------------------------------------------
  // Status choices

  datatype Status = Pending | InProgress | Completed

  /** The value stored in the status column. */
  function StatusValue(s: Status): string {
    match s
    case Pending => "Pending"
    case InProgress => "InProgress"
    case Completed => "Completed"
  }

  /** The human-readable label of a choice (`get_status_display`). */
  function StatusLabel(s: Status): string {
    match s
    case Pending => "Pending"
    case InProgress => "In Progress"
    case Completed => "Completed"
  }

  /** The choices, in declaration order. */
  const StatusChoices: seq<Status> := [Pending, InProgress, Completed]

  /** A new order's status when none is given. */
  const DefaultStatus: Status := Pending

  /** The choice whose stored value is `v`, if any. */
  function ParseStatus(v: string): (r: Option<Status>)
    ensures r.Some? ==> StatusValue(r.value) == v
    ensures r.None? ==> forall s :: StatusValue(s) != v
  {
    if v == "Pending" then Some(Pending)
    else if v == "InProgress" then Some(InProgress)
    else if v == "Completed" then Some(Completed)
    else None
  }

  /** The three stored values are distinct, and each reads back as its own choice. */
  lemma StatusValuesDistinct(s: Status, t: Status)
    ensures ParseStatus(StatusValue(s)) == Some(s)
    ensures StatusValue(s) == StatusValue(t) <==> s == t
  {
  }

  // ---------------------------------------------------------------------------
  // product_image_path

  /** `filename.split('.')[-1]`: the text after the last '.', or the whole name when it has none. */
  function Extension(filename: string): (ext: string)
    ensures '.' !in ext
    ensures |ext| <= |filename| && ext == filename[|filename| - |ext|..]
    ensures |ext| < |filename| ==> filename[|filename| - |ext| - 1] == '.'
  {
    if filename == [] || filename[|filename| - 1] == '.' then []
    else Extension(filename[..|filename| - 1]) + [filename[|filename| - 1]]
  }

  /** The extension of a name that ends in '.' followed by dot-free text is that text. */
  lemma {:induction false} ExtensionAfterDot(stem: string, ext: string)
    requires '.' !in ext
    ensures Extension(stem + "." + ext) == ext
  {
    var name := stem + "." + ext;
    if ext != [] {
      assert name[..|name| - 1] == stem + "." + ext[..|ext| - 1];
      ExtensionAfterDot(stem, ext[..|ext| - 1]);
      assert ext == ext[..|ext| - 1] + [ext[|ext| - 1]];
    }
  }

  /**
   * Upload path of a product image: a fresh name in `products_images/` that keeps the
   * uploaded file's extension. `uuid` is the text of the random `uuid4()` value.
   */
  function ProductImagePath(uuid: string, filename: string): (path: string)
    ensures |path| == 17 + |uuid| + |Extension(filename)|
    ensures path[..16] == "products_images/" && path[16..16 + |uuid|] == uuid
    ensures Extension(path) == Extension(filename)
  {
    ExtensionAfterDot("products_images/" + uuid, Extension(filename));
    "products_images/" + uuid + "." + Extension(filename)
  }

  // ---------------------------------------------------------------------------
  // Order numbers

  /** `f"ORD-{id:05d}"`: the key, zero-padded to at least five digits, after "ORD-". */
  function OrderNumber(id: Id): string {
    "ORD-" + Decimal.ZeroPadded(id, 5)
  }

  /** An order number is "ORD-" and at least five digits, and those digits read back as the key. */
  lemma OrderNumberShape(id: Id)
    ensures |OrderNumber(id)| >= 9 && OrderNumber(id)[..4] == "ORD-"
    ensures Decimal.AllDigits(OrderNumber(id)[4..]) && Decimal.DigitsValue(OrderNumber(id)[4..]) == id
  {
    var digits := Decimal.ZeroPadded(id, 5);
    Decimal.ZeroPaddedDigits(id, 5);
    assert OrderNumber(id)[4..] == digits;
  }

  /** Distinct orders get distinct numbers, so the unique order_number column never clashes. */
  lemma OrderNumberInjective(a: Id, b: Id)
    ensures OrderNumber(a) == OrderNumber(b) <==> a == b
  {
    OrderNumberShape(a);
    OrderNumberShape(b);
    if OrderNumber(a) == OrderNumber(b) {
      assert OrderNumber(a)[4..] == OrderNumber(b)[4..];
    }
  }

  // ---------------------------------------------------------------------------
  // Rows, item totals and order totals

  datatype OrderRow = OrderRow(
    id: Id,
    orderNumber: string,
    status: Status,
    totalFinalPrice: int,
    totalProductsCount: nat)

  datatype ItemRow = ItemRow(
    id: Id,
    order: Id,
    product: Id,
    quantity: nat,
    priceAtTimeOfOrder: Option<int>)

  /** `total_item_price`: quantity times the snapshotted price, or 0 when there is no snapshot. */
  function TotalItemPrice(item: ItemRow): int {
    match item.priceAtTimeOfOrder
    case Some(price) => item.quantity * price
    case None => 0
  }

  /** OrderItem.save's snapshot rule: a new row, or one whose stored price is empty or zero
      (`not price`), takes the product's current unit price; any other row keeps its price. */
  function SnapshotPrice(isNew: bool, stored: Option<int>, current: int): int {
    if isNew || stored.None? || stored.value == 0 then current else stored.value
  }

  /** `self.items.all()`: the rows of one order, in table order. */
  function ItemsOf(rows: seq<ItemRow>, order: Id): seq<ItemRow>
  {
    if rows == [] then []
    else ItemsOf(rows[..|rows| - 1], order) + (if rows[|rows| - 1].order == order then [rows[|rows| - 1]] else [])
  }

  function SumPrices(rows: seq<ItemRow>): int {
    if rows == [] then 0 else SumPrices(rows[..|rows| - 1]) + TotalItemPrice(rows[|rows| - 1])
  }

  function SumQuantities(rows: seq<ItemRow>): nat {
    if rows == [] then 0 else SumQuantities(rows[..|rows| - 1]) + rows[|rows| - 1].quantity
  }

  /** A row's part in an order's price total and product count. */
  function PriceShare(x: ItemRow, order: Id): int {
    if x.order == order then TotalItemPrice(x) else 0
  }

  function CountShare(x: ItemRow, order: Id): nat {
    if x.order == order then x.quantity else 0
  }

  /** An order's items in a concatenation of tables are its items in each, in order. */
  lemma {:induction false} ItemsOfAppend(a: seq<ItemRow>, b: seq<ItemRow>, order: Id)
    ensures ItemsOf(a + b, order) == ItemsOf(a, order) + ItemsOf(b, order)
  {
    if b == [] {
      assert a + b == a;
    } else {
      var b' := b[..|b| - 1];
      var last := b[|b| - 1];
      assert (a + b)[..|a + b| - 1] == a + b';
      assert (a + b)[|a + b| - 1] == last;
      ItemsOfAppend(a, b', order);
      var tail := if last.order == order then [last] else [];
      calc {
        ItemsOf(a + b, order);
        ItemsOf(a + b', order) + tail;
        ItemsOf(a, order) + ItemsOf(b', order) + tail;
        ItemsOf(a, order) + (ItemsOf(b', order) + tail);
        ItemsOf(a, order) + ItemsOf(b, order);
      }
    }
  }

  lemma ItemsOfSingle(x: ItemRow, order: Id)
    ensures ItemsOf([x], order) == if x.order == order then [x] else []
  {
    assert [x][..0] == [];
  }

  /** Both totals of an order split over a concatenation of tables. */
  lemma TotalsOfAppend(a: seq<ItemRow>, b: seq<ItemRow>, order: Id)
    ensures ItemsOf(a + b, order) == ItemsOf(a, order) + ItemsOf(b, order)
    ensures SumPrices(ItemsOf(a + b, order)) == SumPrices(ItemsOf(a, order)) + SumPrices(ItemsOf(b, order))
    ensures SumQuantities(ItemsOf(a + b, order)) == SumQuantities(ItemsOf(a, order)) + SumQuantities(ItemsOf(b, order))
  {
    ItemsOfAppend(a, b, order);
    SumsOfAppend(ItemsOf(a, order), ItemsOf(b, order));
  }

  lemma {:induction false} SumsOfAppend(a: seq<ItemRow>, b: seq<ItemRow>)
    ensures SumPrices(a + b) == SumPrices(a) + SumPrices(b)
    ensures SumQuantities(a + b) == SumQuantities(a) + SumQuantities(b)
  {
    if b == [] {
      assert a + b == a;
    } else {
      assert (a + b)[..|a + b| - 1] == a + b[..|b| - 1];
      SumsOfAppend(a, b[..|b| - 1]);
    }
  }

  lemma TotalsOfSingle(x: ItemRow, order: Id)
    ensures SumPrices(ItemsOf([x], order)) == PriceShare(x, order)
    ensures SumQuantities(ItemsOf([x], order)) == CountShare(x, order)
  {
    ItemsOfSingle(x, order);
    assert [x][..0] == [];
  }

  /** Replacing one row changes an order's totals by the difference of the two rows' shares. */
  lemma TotalsOfReplace(rows: seq<ItemRow>, k: nat, x: ItemRow, order: Id)
    requires k < |rows|
    ensures SumPrices(ItemsOf(rows[k := x], order))
      == SumPrices(ItemsOf(rows, order)) - PriceShare(rows[k], order) + PriceShare(x, order)
    ensures SumQuantities(ItemsOf(rows[k := x], order))
      == SumQuantities(ItemsOf(rows, order)) - CountShare(rows[k], order) + CountShare(x, order)
  {
    var before, after := rows[..k], rows[k + 1..];
    assert rows == before + [rows[k]] + after;
    assert rows[k := x] == before + [x] + after;
    TotalsOfAppend(before + [rows[k]], after, order);
    TotalsOfAppend(before, [rows[k]], order);
    TotalsOfAppend(before + [x], after, order);
    TotalsOfAppend(before, [x], order);
    TotalsOfSingle(rows[k], order);
    TotalsOfSingle(x, order);
  }

  /** Deleting one row takes its share out of an order's totals. */
  lemma TotalsOfRemove(rows: seq<ItemRow>, k: nat, order: Id)
    requires k < |rows|
    ensures SumPrices(ItemsOf(rows[..k] + rows[k + 1..], order))
      == SumPrices(ItemsOf(rows, order)) - PriceShare(rows[k], order)
    ensures SumQuantities(ItemsOf(rows[..k] + rows[k + 1..], order))
      == SumQuantities(ItemsOf(rows, order)) - CountShare(rows[k], order)
  {
    var before, after := rows[..k], rows[k + 1..];
    assert rows == before + [rows[k]] + after;
    TotalsOfAppend(before + [rows[k]], after, order);
    TotalsOfAppend(before, [rows[k]], order);
    TotalsOfAppend(before, after, order);
    TotalsOfSingle(rows[k], order);
  }

  /** An order that no row points to has no items. */
  lemma {:induction false} ItemsOfAbsent(rows: seq<ItemRow>, order: Id)
    requires forall i :: 0 <= i < |rows| ==> rows[i].order != order
    ensures ItemsOf(rows, order) == []
  {
    if rows != [] {
      ItemsOfAbsent(rows[..|rows| - 1], order);
    }
  }

  /** The other orders' items are untouched by appending a row of order `x.order`. */
  lemma ItemsOfAppendOther(rows: seq<ItemRow>, x: ItemRow)
    ensures forall p :: p != x.order ==> ItemsOf(rows + [x], p) == ItemsOf(rows, p)
  {
    assert (rows + [x])[..|rows|] == rows;
  }

  /** Rewriting a row inside one order leaves every other order's items as they were. */
  lemma ItemsOfReplaceOther(rows: seq<ItemRow>, k: nat, x: ItemRow)
    requires k < |rows| && x.order == rows[k].order
    ensures forall p :: p != x.order ==> ItemsOf(rows[k := x], p) == ItemsOf(rows, p)
  {
    var before, after := rows[..k], rows[k + 1..];
    assert rows == before + [rows[k]] + after;
    assert rows[k := x] == before + [x] + after;
    forall p | p != x.order
      ensures ItemsOf(rows[k := x], p) == ItemsOf(rows, p)
    {
      ItemsOfAppend(before + [rows[k]], after, p);
      ItemsOfAppend(before, [rows[k]], p);
      ItemsOfAppend(before + [x], after, p);
      ItemsOfAppend(before, [x], p);
      ItemsOfSingle(x, p);
      ItemsOfSingle(rows[k], p);
    }
  }

  /** Deleting a row of one order leaves every other order's items as they were. */
  lemma ItemsOfRemoveOther(rows: seq<ItemRow>, k: nat)
    requires k < |rows|
    ensures forall p :: p != rows[k].order ==> ItemsOf(rows[..k] + rows[k + 1..], p) == ItemsOf(rows, p)
  {
    var before, after := rows[..k], rows[k + 1..];
    assert rows == before + [rows[k]] + after;
    forall p | p != rows[k].order
      ensures ItemsOf(before + after, p) == ItemsOf(rows, p)
    {
      ItemsOfSkip(before, rows[k], after, p);
    }
  }

  /** A row of another order contributes nothing to order p's items. */
  lemma ItemsOfSkip(before: seq<ItemRow>, x: ItemRow, after: seq<ItemRow>, p: Id)
    requires x.order != p
    ensures ItemsOf(before + [x] + after, p) == ItemsOf(before + after, p)
  {
    ItemsOfAppend(before + [x], after, p);
    ItemsOfAppend(before, [x], p);
    ItemsOfAppend(before, after, p);
    ItemsOfSingle(x, p);
  }

  /** Position of the row with key `id` (a lookup by primary key), or -1. */
  function IndexOfItem(rows: seq<ItemRow>, id: Id): (k: int)
    ensures -1 <= k < |rows|
    ensures k >= 0 ==> rows[k].id == id
    ensures k == -1 ==> forall i :: 0 <= i < |rows| ==> rows[i].id != id
  {
    if rows == [] then -1
    else if rows[|rows| - 1].id == id then |rows| - 1
    else IndexOfItem(rows[..|rows| - 1], id)
  }

  // ---------------------------------------------------------------------------
  // Order totals as update_totals keeps them

  /** Every order's stored totals are the sum of item totals and of quantities over its items. */
  ghost predicate TotalsConsistent(orders: map<Id, OrderRow>, items: seq<ItemRow>) {
    forall o :: o in orders ==>
      && orders[o].totalFinalPrice == SumPrices(ItemsOf(items, o))
      && orders[o].totalProductsCount == SumQuantities(ItemsOf(items, o))
  }

  /** The row update_totals writes for order `o`: both totals recomputed, nothing else touched. */
  function Recounted(row: OrderRow, items: seq<ItemRow>, o: Id): (r: OrderRow)
    ensures r.id == row.id && r.orderNumber == row.orderNumber && r.status == row.status
    ensures r.totalFinalPrice == SumPrices(ItemsOf(items, o))
    ensures r.totalProductsCount == SumQuantities(ItemsOf(items, o))
  {
    row.(totalFinalPrice := SumPrices(ItemsOf(items, o)), totalProductsCount := SumQuantities(ItemsOf(items, o)))
  }

  /**
   * When a change to the item table touches only order `o`'s items, recounting `o` is enough
   * to make every order's totals right again.
   */
  lemma RecountRestores(orders: map<Id, OrderRow>, before: seq<ItemRow>, after: seq<ItemRow>, o: Id)
    requires TotalsConsistent(orders, before) && o in orders
    requires forall p :: p != o ==> ItemsOf(after, p) == ItemsOf(before, p)
    ensures TotalsConsistent(orders[o := Recounted(orders[o], after, o)], after)
  {
    var now := orders[o := Recounted(orders[o], after, o)];
    forall p | p in now
      ensures now[p].totalFinalPrice == SumPrices(ItemsOf(after, p))
      ensures now[p].totalProductsCount == SumQuantities(ItemsOf(after, p))
    {
      if p != o {
        assert now[p] == orders[p];
      }
    }
  }

  /** Appending a row and recounting its order keeps every order's totals right; the order's totals grow by the row. */
  lemma AppendKeepsTotals(orders: map<Id, OrderRow>, before: seq<ItemRow>, row: ItemRow)
    requires TotalsConsistent(orders, before) && row.order in orders
    ensures TotalsConsistent(orders[row.order := Recounted(orders[row.order], before + [row], row.order)], before + [row])
    ensures SumPrices(ItemsOf(before + [row], row.order)) == orders[row.order].totalFinalPrice + TotalItemPrice(row)
    ensures SumQuantities(ItemsOf(before + [row], row.order)) == orders[row.order].totalProductsCount + row.quantity
  {
    ItemsOfAppendOther(before, row);
    RecountRestores(orders, before, before + [row], row.order);
    TotalsOfAppend(before, [row], row.order);
    TotalsOfSingle(row, row.order);
  }

  /** Rewriting a row in place and recounting its order keeps every order's totals right. */
  lemma ReplaceKeepsTotals(orders: map<Id, OrderRow>, before: seq<ItemRow>, k: nat, row: ItemRow)
    requires TotalsConsistent(orders, before) && k < |before| && row.order == before[k].order && row.order in orders
    ensures TotalsConsistent(orders[row.order := Recounted(orders[row.order], before[k := row], row.order)], before[k := row])
    ensures SumPrices(ItemsOf(before[k := row], row.order)) + TotalItemPrice(before[k])
      == orders[row.order].totalFinalPrice + TotalItemPrice(row)
    ensures SumQuantities(ItemsOf(before[k := row], row.order)) + before[k].quantity
      == orders[row.order].totalProductsCount + row.quantity
  {
    ItemsOfReplaceOther(before, k, row);
    RecountRestores(orders, before, before[k := row], row.order);
    TotalsOfReplace(before, k, row, row.order);
  }

  /** Deleting a row and recounting its order keeps every order's totals right; the row's share leaves. */
  lemma RemoveKeepsTotals(orders: map<Id, OrderRow>, before: seq<ItemRow>, k: nat)
    requires TotalsConsistent(orders, before) && k < |before| && before[k].order in orders
    ensures TotalsConsistent(
      orders[before[k].order := Recounted(orders[before[k].order], before[..k] + before[k + 1..], before[k].order)],
      before[..k] + before[k + 1..])
    ensures SumPrices(ItemsOf(before[..k] + before[k + 1..], before[k].order)) + TotalItemPrice(before[k])
      == orders[before[k].order].totalFinalPrice
    ensures SumQuantities(ItemsOf(before[..k] + before[k + 1..], before[k].order)) + before[k].quantity
      == orders[before[k].order].totalProductsCount
  {
    ItemsOfRemoveOther(before, k);
    RecountRestores(orders, before, before[..k] + before[k + 1..], before[k].order);
    TotalsOfRemove(before, k, before[k].order);
  }

  /** Every stored order number is the one derived from its row's key. */
  ghost predicate NumbersMatch(orders: map<Id, OrderRow>) {
    forall o :: o in orders ==> orders[o].orderNumber == OrderNumber(o)
  }

  /** Rewriting a row without touching its number keeps the numbers right. */
  lemma KeepsNumbers(orders: map<Id, OrderRow>, o: Id, row: OrderRow)
    requires NumbersMatch(orders) && o in orders && row.orderNumber == orders[o].orderNumber
    ensures NumbersMatch(orders[o := row])
  {
  }

  /** A status change leaves every order's totals right. */
  lemma StatusKeepsTotals(orders: map<Id, OrderRow>, items: seq<ItemRow>, id: Id, status: Status)
    requires TotalsConsistent(orders, items) && id in orders
    ensures TotalsConsistent(orders[id := orders[id].(status := status)], items)
  {
  }

  /** A new order that no item points to starts with right (zero) totals. */
  lemma NewOrderKeepsTotals(orders: map<Id, OrderRow>, items: seq<ItemRow>, row: OrderRow)
    requires TotalsConsistent(orders, items)
    requires row.totalFinalPrice == 0 && row.totalProductsCount == 0
    requires forall i :: 0 <= i < |items| ==> items[i].order != row.id
    ensures TotalsConsistent(orders[row.id := row], items)
  {
    ItemsOfAbsent(items, row.id);
  }

  // ---------------------------------------------------------------------------
  // The tables and the saves that change them

  /**
   * The three tables the order logic touches, with the next keys the database will hand out.
   * Each save below returns the tables as they are after it.
   */
  datatype Store = Store(
    productPrices: map<Id, int>,
    orders: map<Id, OrderRow>,
    items: seq<ItemRow>,
    nextOrderId: Id,
    nextItemId: Id)

  /** Keys and foreign keys are consistent, and every stored item has its price snapshot. */
  ghost predicate Tables(s: Store) {
    && (forall o :: o in s.orders ==> s.orders[o].id == o && o < s.nextOrderId)
    && (forall i :: 0 <= i < |s.items| ==>
          && s.items[i].order in s.orders && s.items[i].product in s.productPrices
          && s.items[i].id < s.nextItemId && s.items[i].priceAtTimeOfOrder.Some?)
  }

  /** The tables are consistent, every order number is derived from its key, and every order's totals are the fold over its items. */
  ghost predicate Valid(s: Store) {
    Tables(s) && NumbersMatch(s.orders) && TotalsConsistent(s.orders, s.items)
  }

  /** An empty database over a product catalogue (unit prices in cents). */
  function EmptyStore(catalogue: map<Id, int>): (s: Store)
    ensures Valid(s)
    ensures s.productPrices == catalogue && s.orders == map[] && s.items == []
  {
    Store(catalogue, map[], [], 1, 1)
  }

  /**
   * Order.save on a new order: the row is inserted with the given status (Pending when none
   * is given), zero totals and a blank number; then the number is derived from the new key
   * and written back to the row.
   */
  function CreateOrder(s: Store, status: Option<Status>): (Store, Id) {
    var id := s.nextOrderId;
    var inserted := s.(orders := s.orders[id := OrderRow(id, "", status.GetOr(DefaultStatus), 0, 0)],
                       nextOrderId := s.nextOrderId + 1);
    (inserted.(orders := inserted.orders[id := inserted.orders[id].(orderNumber := OrderNumber(id))]), id)
  }

  /** Order.save on an existing order whose status was changed; `false` when there is no such row. */
  function UpdateOrderStatus(s: Store, id: Id, status: Status): (Store, bool) {
    if id in s.orders then (s.(orders := s.orders[id := s.orders[id].(status := status)]), true)
    else (s, false)
  }

  /** update_totals for order `o`: both totals are recomputed from its current items. */
  function UpdateTotals(s: Store, o: Id): Store
    requires o in s.orders
  {
    s.(orders := s.orders[o := Recounted(s.orders[o], s.items, o)])
  }

  /**
   * Creating an item: OrderItem.save on a new row snapshots the product's current unit price;
   * the post_save receiver then runs update_totals on the item's order. A row naming an
   * unknown order or product, or a negative quantity, is refused with `None`.
   */
  function CreateItem(s: Store, order: Id, product: Id, quantity: int): (Store, Option<Id>) {
    if !(order in s.orders && product in s.productPrices && quantity >= 0) then (s, None)
    else
      var row := ItemRow(s.nextItemId, order, product, quantity,
                         Some(SnapshotPrice(true, None, s.productPrices[product])));
      var saved := s.(items := s.items + [row], nextItemId := s.nextItemId + 1);
      (UpdateTotals(saved, order), Some(row.id))
  }

  /**
   * Changing an item's quantity: OrderItem.save on an existing row, which re-snapshots the
   * price only when the stored one is empty or zero, then update_totals on its order.
   * `false` when no row has that key or the quantity is negative.
   */
  function UpdateItemQuantity(s: Store, itemId: Id, quantity: int): (Store, bool)
    requires Tables(s)
  {
    var k := IndexOfItem(s.items, itemId);
    if k < 0 || quantity < 0 then (s, false)
    else
      var was := s.items[k];
      var now := was.(quantity := quantity,
                      priceAtTimeOfOrder := Some(SnapshotPrice(false, was.priceAtTimeOfOrder, s.productPrices[was.product])));
      (UpdateTotals(s.(items := s.items[k := now]), was.order), true)
  }

  /** Deleting an item; the post_delete receiver then runs update_totals on its order. */
  function DeleteItem(s: Store, itemId: Id): (Store, bool)
    requires Tables(s)
  {
    var k := IndexOfItem(s.items, itemId);
    if k < 0 then (s, false) else (DeleteRow(s, k), true)
  }

  /** The item at position k is deleted, then its order is recounted. */
  function DeleteRow(s: Store, k: nat): Store
    requires Tables(s) && k < |s.items|
  {
    UpdateTotals(s.(items := s.items[..k] + s.items[k + 1..]), s.items[k].order)
  }

  /** Editing a product's unit price; `false` when there is no such product. */
  function UpdateProductPrice(s: Store, product: Id, price: int): (Store, bool) {
    if product in s.productPrices then (s.(productPrices := s.productPrices[product := price]), true)
    else (s, false)
  }

  // ---------------------------------------------------------------------------
  // The order-item create endpoint

  /** The fields of a posted item that reach the new OrderItem row; `None` is a missing order. */
  datatype ItemFields = ItemFields(order: Option<Id>, product: Id, quantity: int)

  /** The item serializer lists no `order` field, so the order key posted with an item is dropped. */
  function ItemFieldsAsWritten(order: Id, product: Id, quantity: int): ItemFields {
    ItemFields(None, product, quantity)
  }

  /** With `order` among the serializer's fields, the posted order key reaches the row. */
  function ItemFieldsCorrected(order: Id, product: Id, quantity: int): ItemFields {
    ItemFields(Some(order), product, quantity)
  }

  /** Saving a posted item: a row without an order breaks the non-null foreign key and is refused. */
  function CreateItemFromFields(s: Store, f: ItemFields): (Store, Option<Id>) {
    match f.order
    case None => (s, None)
    case Some(o) => CreateItem(s, o, f.product, f.quantity)
  }

  /** As written, every item create is refused, whatever the store holds and whatever is posted. */
  lemma ItemPostAsWrittenRefused(s: Store, order: Id, product: Id, quantity: int)
    ensures CreateItemFromFields(s, ItemFieldsAsWritten(order, product, quantity)) == (s, None)
  {
  }

  /**
   * With the field kept, a post creates the item in the posted order, at the product's current
   * price, exactly when the order and product exist and the quantity is not negative.
   */
  lemma ItemPostCorrectedCreates(s: Store, order: Id, product: Id, quantity: int)
    ensures var (t, r) := CreateItemFromFields(s, ItemFieldsCorrected(order, product, quantity));
      && (r.Some? <==> order in s.orders && product in s.productPrices && quantity >= 0)
      && (r.Some? ==> t.items == s.items + [ItemRow(r.value, order, product, quantity, Some(s.productPrices[product]))])
  {
    CreateItemOutcome(s, order, product, quantity);
  }

  // ---------------------------------------------------------------------------
  // What each save guarantees

  /**
   * A new order gets the next key, the number "ORD-" + key padded to five digits, the given
   * status or Pending, zero totals and no items; nothing else changes.
   */
  lemma CreateOrderOutcome(s: Store, status: Option<Status>)
    requires Tables(s)
    ensures var (t, id) := CreateOrder(s, status);
      && id == s.nextOrderId && id !in s.orders && t.orders.Keys == s.orders.Keys + {id}
      && t.orders[id].orderNumber == OrderNumber(id)
      && t.orders[id].status == (if status.Some? then status.value else Pending)
      && t.orders[id].totalFinalPrice == 0 && t.orders[id].totalProductsCount == 0
      && ItemsOf(t.items, id) == []
      && (forall o :: o in s.orders ==> t.orders[o] == s.orders[o])
      && t.items == s.items && t.productPrices == s.productPrices
  {
    ItemsOfAbsent(s.items, s.nextOrderId);
  }

  lemma CreateOrderKeepsValid(s: Store, status: Option<Status>)
    requires Valid(s)
    ensures Valid(CreateOrder(s, status).0)
  {
    var (t, id) := CreateOrder(s, status);
    var row := OrderRow(id, OrderNumber(id), status.GetOr(DefaultStatus), 0, 0);
    assert t.orders == s.orders[id := row];
    NewOrderKeepsTotals(s.orders, s.items, row);
  }

  /**
   * A status change rewrites only that order's status: its number and totals stay as they
   * were, and no status is refused (Completed included).
   */
  lemma UpdateOrderStatusOutcome(s: Store, id: Id, status: Status)
    ensures var (t, found) := UpdateOrderStatus(s, id, status);
      && found == (id in s.orders)
      && t.orders.Keys == s.orders.Keys && t.items == s.items && t.productPrices == s.productPrices
      && (found ==> t.orders[id] == s.orders[id].(status := status))
      && (forall o :: o in s.orders && o != id ==> t.orders[o] == s.orders[o])
  {
  }

  lemma UpdateOrderStatusKeepsValid(s: Store, id: Id, status: Status)
    requires Valid(s)
    ensures Valid(UpdateOrderStatus(s, id, status).0)
  {
    if id in s.orders {
      StatusKeepsTotals(s.orders, s.items, id, status);
      KeepsNumbers(s.orders, id, s.orders[id].(status := status));
    }
  }

  /**
   * Adding an item is refused exactly for an unknown order or product or a negative
   * quantity; otherwise the row gets the next key and the product's current price as its
   * snapshot, and only its order's row is rewritten.
   */
  lemma CreateItemOutcome(s: Store, order: Id, product: Id, quantity: int)
    ensures var (t, r) := CreateItem(s, order, product, quantity);
      && (r.Some? <==> order in s.orders && product in s.productPrices && quantity >= 0)
      && (r.None? ==> t == s)
      && (r.Some? ==>
        && r.value == s.nextItemId
        && t.items == s.items + [ItemRow(r.value, order, product, quantity, Some(s.productPrices[product]))]
        && t.productPrices == s.productPrices
        && t.orders.Keys == s.orders.Keys
        && t.orders[order].status == s.orders[order].status
        && t.orders[order].orderNumber == s.orders[order].orderNumber
        && (forall o :: o in s.orders && o != order ==> t.orders[o] == s.orders[o]))
  {
  }

  /** The new item's key is used by no earlier row. */
  lemma CreateItemFreshKey(s: Store, order: Id, product: Id, quantity: int)
    requires Tables(s)
    ensures var (_, r) := CreateItem(s, order, product, quantity);
      r.Some? ==> forall i :: 0 <= i < |s.items| ==> s.items[i].id != r.value
  {
  }

  /** Adding an item grows its order's totals by exactly quantity × current price, and quantity. */
  lemma CreateItemTotals(s: Store, order: Id, product: Id, quantity: int)
    requires TotalsConsistent(s.orders, s.items)
    ensures var (t, r) := CreateItem(s, order, product, quantity);
      r.Some? ==>
        && t.orders[order].totalFinalPrice == s.orders[order].totalFinalPrice + quantity * s.productPrices[product]
        && t.orders[order].totalProductsCount == s.orders[order].totalProductsCount + quantity
  {
    if order in s.orders && product in s.productPrices && quantity >= 0 {
      var row := ItemRow(s.nextItemId, order, product, quantity, Some(s.productPrices[product]));
      AppendKeepsTotals(s.orders, s.items, row);
    }
  }

  /** Appending a row with the next key, for a known order and product, and recounting keeps keys and foreign keys right. */
  lemma AppendKeepsTables(s: Store, row: ItemRow)
    requires Tables(s) && row.order in s.orders && row.product in s.productPrices
    requires row.id == s.nextItemId && row.priceAtTimeOfOrder.Some?
    ensures Tables(UpdateTotals(s.(items := s.items + [row], nextItemId := s.nextItemId + 1), row.order))
  {
    var t := UpdateTotals(s.(items := s.items + [row], nextItemId := s.nextItemId + 1), row.order);
    forall i | 0 <= i < |t.items|
      ensures t.items[i] == if i < |s.items| then s.items[i] else row
    {
    }
  }

  lemma CreateItemKeepsValid(s: Store, order: Id, product: Id, quantity: int)
    requires Valid(s)
    ensures Valid(CreateItem(s, order, product, quantity).0)
  {
    if order in s.orders && product in s.productPrices && quantity >= 0 {
      var row := ItemRow(s.nextItemId, order, product, quantity, Some(s.productPrices[product]));
      var t := CreateItem(s, order, product, quantity).0;
      var recounted := Recounted(s.orders[order], s.items + [row], order);
      assert t.orders == s.orders[order := recounted] && t.items == s.items + [row];
      assert Tables(t) by {
        AppendKeepsTables(s, row);
      }
      assert NumbersMatch(t.orders) by {
        KeepsNumbers(s.orders, order, recounted);
      }
      assert TotalsConsistent(t.orders, t.items) by {
        AppendKeepsTotals(s.orders, s.items, row);
      }
    }
  }

  /**
   * Changing a quantity rewrites only that row: a nonzero snapshot is kept whatever the
   * product costs now, a zero one is taken again from the product, and only the row's order
   * is rewritten.
   */
  lemma UpdateItemQuantityOutcome(s: Store, itemId: Id, quantity: int)
    requires Tables(s)
    ensures var (t, found) := UpdateItemQuantity(s, itemId, quantity);
      && found == (IndexOfItem(s.items, itemId) >= 0 && quantity >= 0)
      && (!found ==> t == s)
      && (found ==>
        var k := IndexOfItem(s.items, itemId);
        var was := s.items[k];
        && |t.items| == |s.items|
        && (forall i :: 0 <= i < |s.items| && i != k ==> t.items[i] == s.items[i])
        && t.items[k].id == itemId && t.items[k].order == was.order && t.items[k].product == was.product
        && t.items[k].quantity == quantity
        && (was.priceAtTimeOfOrder != Some(0) ==> t.items[k].priceAtTimeOfOrder == was.priceAtTimeOfOrder)
        && (was.priceAtTimeOfOrder == Some(0) ==> t.items[k].priceAtTimeOfOrder == Some(s.productPrices[was.product]))
        && t.productPrices == s.productPrices
        && t.orders.Keys == s.orders.Keys
        && t.orders[was.order].status == s.orders[was.order].status
        && t.orders[was.order].orderNumber == s.orders[was.order].orderNumber
        && (forall o :: o in s.orders && o != was.order ==> t.orders[o] == s.orders[o]))
  {
  }

  /** Changing a quantity swaps the row's old share of its order's totals for the new one. */
  lemma UpdateItemQuantityTotals(s: Store, itemId: Id, quantity: int)
    requires Tables(s) && TotalsConsistent(s.orders, s.items)
    ensures var (t, found) := UpdateItemQuantity(s, itemId, quantity);
      found ==>
        var k := IndexOfItem(s.items, itemId);
        var was := s.items[k];
        && t.orders[was.order].totalFinalPrice + TotalItemPrice(was)
             == s.orders[was.order].totalFinalPrice + TotalItemPrice(t.items[k])
        && t.orders[was.order].totalProductsCount + was.quantity
             == s.orders[was.order].totalProductsCount + quantity
  {
    var k := IndexOfItem(s.items, itemId);
    if k >= 0 && quantity >= 0 {
      var was := s.items[k];
      var now := was.(quantity := quantity,
                      priceAtTimeOfOrder := Some(SnapshotPrice(false, was.priceAtTimeOfOrder, s.productPrices[was.product])));
      ReplaceKeepsTotals(s.orders, s.items, k, now);
    }
  }

  lemma UpdateItemQuantityKeepsValid(s: Store, itemId: Id, quantity: int)
    requires Valid(s)
    ensures Valid(UpdateItemQuantity(s, itemId, quantity).0)
  {
    var k := IndexOfItem(s.items, itemId);
    if k >= 0 && quantity >= 0 {
      var was := s.items[k];
      var now := was.(quantity := quantity,
                      priceAtTimeOfOrder := Some(SnapshotPrice(false, was.priceAtTimeOfOrder, s.productPrices[was.product])));
      ReplaceKeepsTables(s, k, now);
      KeepsNumbers(s.orders, was.order, Recounted(s.orders[was.order], s.items[k := now], was.order));
      ReplaceKeepsTotals(s.orders, s.items, k, now);
    }
  }

  /** Rewriting row k in place (same key, order and product) and recounting keeps keys and foreign keys right. */
  lemma ReplaceKeepsTables(s: Store, k: nat, now: ItemRow)
    requires Tables(s) && k < |s.items|
    requires now.id == s.items[k].id && now.order == s.items[k].order && now.product == s.items[k].product
    requires now.priceAtTimeOfOrder.Some?
    ensures Tables(UpdateTotals(s.(items := s.items[k := now]), now.order))
  {
    var t := UpdateTotals(s.(items := s.items[k := now]), now.order);
    assert t.orders.Keys == s.orders.Keys;
    forall i | 0 <= i < |t.items|
      ensures t.items[i] == if i == k then now else s.items[i]
    {
    }
  }

  /** Deleting row k and recounting its order keeps keys and foreign keys right. */
  lemma RemoveKeepsTables(s: Store, k: nat)
    requires Tables(s) && k < |s.items|
    ensures Tables(DeleteRow(s, k))
  {
    var rest := s.items[..k] + s.items[k + 1..];
    var t := UpdateTotals(s.(items := rest), s.items[k].order);
    assert t.orders.Keys == s.orders.Keys;
    forall i | 0 <= i < |rest|
      ensures rest[i] == s.items[if i < k then i else i + 1]
    {
    }
  }

  /** Deleting an item removes exactly that row, and only its order's row is rewritten. */
  lemma DeleteItemOutcome(s: Store, itemId: Id)
    requires Tables(s)
    ensures var (t, found) := DeleteItem(s, itemId);
      && found == (IndexOfItem(s.items, itemId) >= 0)
      && (!found ==> t == s)
      && (found ==>
        var k := IndexOfItem(s.items, itemId);
        && t.items == s.items[..k] + s.items[k + 1..]
        && t.productPrices == s.productPrices
        && t.orders.Keys == s.orders.Keys
        && (forall o :: o in s.orders && o != s.items[k].order ==> t.orders[o] == s.orders[o]))
  {
  }

  /** Deleting an item takes exactly its share out of its order's totals. */
  lemma DeleteItemTotals(s: Store, itemId: Id)
    requires Tables(s) && TotalsConsistent(s.orders, s.items)
    ensures var (t, found) := DeleteItem(s, itemId);
      found ==>
        var was := s.items[IndexOfItem(s.items, itemId)];
        && t.orders[was.order].totalFinalPrice + TotalItemPrice(was) == s.orders[was.order].totalFinalPrice
        && t.orders[was.order].totalProductsCount + was.quantity == s.orders[was.order].totalProductsCount
  {
    var k := IndexOfItem(s.items, itemId);
    if k >= 0 {
      RemoveKeepsTotals(s.orders, s.items, k);
    }
  }

  lemma DeleteItemKeepsValid(s: Store, itemId: Id)
    requires Valid(s)
    ensures Valid(DeleteItem(s, itemId).0)
  {
    var k := IndexOfItem(s.items, itemId);
    if k >= 0 {
      RemoveKeepsValid(s, k);
    }
  }

  /** Deleting row k and recounting its order keeps the tables valid. */
  lemma RemoveKeepsValid(s: Store, k: nat)
    requires Valid(s) && k < |s.items|
    ensures Valid(DeleteRow(s, k))
  {
    var o := s.items[k].order;
    var rest := s.items[..k] + s.items[k + 1..];
    RemoveKeepsTables(s, k);
    KeepsNumbers(s.orders, o, Recounted(s.orders[o], rest, o));
    RemoveKeepsTotals(s.orders, s.items, k);
  }

  /**
   * A product's new price reaches no stored snapshot: every item row and every order's
   * totals stay exactly as they were, and the tables stay valid.
   */
  lemma UpdateProductPriceOutcome(s: Store, product: Id, price: int)
    requires Valid(s)
    ensures var (t, found) := UpdateProductPrice(s, product, price);
      && Valid(t)
      && found == (product in s.productPrices)
      && t.items == s.items && t.orders == s.orders
      && (found ==> t.productPrices == s.productPrices[product := price])
      && (!found ==> t == s)
  {
  }
}
