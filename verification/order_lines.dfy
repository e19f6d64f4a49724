/**
 * The order editor's item list, as pure transforms: add-or-merge by product, set the quantity
 * of one row, remove one row, and the two folds that give the draft's totals. Money is in cents.
 */
module OrderLines {
  import opened Common

  /** A catalogue product as the products list returns it. */
  datatype Product = Product(id: Id, name: string, unitPrice: int)

  /**
   * What a row holds in its `product` field: a row added in the editor embeds the product
   * object, a row read back from the store carries only the product's key.
   */
  datatype ProductRef = Embedded(product: Product) | Key(key: Id)

  /** One row of the editor's `items`; `None` stands for a field that is absent. */
  datatype Item = Item(
    id: Option<Id>,
    product: ProductRef,
    productId: Option<Id>,
    productName: string,
    quantity: int,
    unitPriceAtOrder: int,
    itemTotal: Option<int>)

  /** An order item as the store serialises it: `product` is the product's key. */
  datatype ServerItem = ServerItem(
    id: Id,
    product: Id,
    productName: string,
    quantity: nat,
    unitPriceAtOrder: int,
    itemTotal: int)

  function FromServer(r: ServerItem): Item {
    Item(Some(r.id), Key(r.product), None, r.productName, r.quantity, r.unitPriceAtOrder, Some(r.itemTotal))
  }

  function FromServerAll(rs: seq<ServerItem>): (items: seq<Item>)
    ensures |items| == |rs| && forall i :: 0 <= i < |rs| ==> items[i] == FromServer(rs[i])
  {
    seq(|rs|, i requires 0 <= i < |rs| => FromServer(rs[i]))
  }

  // ---------------------------------------------------------------------------------------
  // Which product a row is for

  /**
   * The key the editor matches rows by, as written: `product_id`, else the `id` of an embedded
   * product; `None` is `undefined`, which equals no product key.
   */
  function ProductKeyAsWritten(item: Item): Option<Id> {
    if item.productId.Some? then item.productId
    else match item.product
      case Embedded(p) => Some(p.id)
      case Key(_) => None
  }

  /** The product a row is for, in whichever form the row carries it. */
  function ProductKey(item: Item): Id {
    if item.productId.Some? then item.productId.value
    else match item.product
      case Embedded(p) => p.id
      case Key(k) => k
  }

  datatype KeyRule = AsWritten | Corrected

  function KeyOf(rule: KeyRule, item: Item): Option<Id> {
    match rule
    case AsWritten => ProductKeyAsWritten(item)
    case Corrected => Some(ProductKey(item))
  }

  /** `findIndex`: the first row whose key is `pid`, or -1 when there is none. */
  function FindIndex(items: seq<Item>, pid: Id, rule: KeyRule): (k: int)
    ensures -1 <= k < |items|
    ensures k >= 0 ==> KeyOf(rule, items[k]) == Some(pid)
    ensures k >= 0 ==> forall j :: 0 <= j < k ==> KeyOf(rule, items[j]) != Some(pid)
    ensures k < 0 ==> forall j :: 0 <= j < |items| ==> KeyOf(rule, items[j]) != Some(pid)
  {
    if items == [] then -1
    else if KeyOf(rule, items[0]) == Some(pid) then 0
    else
      var k := FindIndex(items[1..], pid, rule);
      if k < 0 then -1 else k + 1
  }

  /** The row holding product `pid`, as the model matches rows. */
  function IndexOfProduct(items: seq<Item>, pid: Id): int {
    FindIndex(items, pid, Corrected)
  }

  // ---------------------------------------------------------------------------------------
  // Rows and their totals

  /**
   * The unit price a row's total is recomputed from: the embedded product's `unit_price`,
   * falling back to the row's `unit_price_at_order`.
   */
  function RowUnitPrice(item: Item): int {
    match item.product
    case Embedded(p) => p.unitPrice
    case Key(_) => item.unitPriceAtOrder
  }

  /** The row with a new quantity and its `item_total` recomputed for it. */
  function Requantified(item: Item, quantity: int): Item {
    item.(quantity := quantity, itemTotal := Some(RowUnitPrice(item) * quantity))
  }

  /** The row the editor appends for a product not yet in the draft. */
  function NewDraftRow(p: Product, quantity: int): Item {
    Item(None, Embedded(p), Some(p.id), p.name, quantity, p.unitPrice, Some(p.unitPrice * quantity))
  }

  /**
   * What the totals fold counts for a row: its `item_total` when present, otherwise the
   * embedded product's unit price times the quantity, otherwise 0.
   */
  function LineTotal(item: Item): int {
    match item.itemTotal
    case Some(t) => t
    case None => if item.product.Embedded? then item.product.product.unitPrice * item.quantity else 0
  }

  /** `items.reduce((sum, item) => sum + quantity, 0)`: the order's product count. */
  function CountTotal(items: seq<Item>): int {
    if items == [] then 0 else CountTotal(items[..|items| - 1]) + items[|items| - 1].quantity
  }

  /** `items.reduce((sum, item) => sum + itemPrice, 0)`: the order's final price. */
  function PriceTotal(items: seq<Item>): int {
    if items == [] then 0 else PriceTotal(items[..|items| - 1]) + LineTotal(items[|items| - 1])
  }

  lemma {:induction false} TotalsOfConcat(a: seq<Item>, b: seq<Item>)
    ensures CountTotal(a + b) == CountTotal(a) + CountTotal(b)
    ensures PriceTotal(a + b) == PriceTotal(a) + PriceTotal(b)
  {
    if b == [] {
      assert a + b == a;
    } else {
      var c := a + b;
      assert c[..|c| - 1] == a + b[..|b| - 1];
      assert c[|c| - 1] == b[|b| - 1];
      TotalsOfConcat(a, b[..|b| - 1]);
    }
  }

  lemma TotalsOfOne(x: Item)
    ensures CountTotal([x]) == x.quantity && PriceTotal([x]) == LineTotal(x)
  {
    assert [x][..0] == [];
  }

  /** Splits the totals of a list at row k. */
  lemma TotalsAround(items: seq<Item>, k: nat)
    requires k < |items|
    ensures CountTotal(items) == CountTotal(items[..k]) + items[k].quantity + CountTotal(items[k + 1..])
    ensures PriceTotal(items) == PriceTotal(items[..k]) + LineTotal(items[k]) + PriceTotal(items[k + 1..])
  {
    assert items == items[..k] + [items[k]] + items[k + 1..];
    TotalsOfConcat(items[..k] + [items[k]], items[k + 1..]);
    TotalsOfConcat(items[..k], [items[k]]);
    TotalsOfOne(items[k]);
  }

  // ---------------------------------------------------------------------------------------
  // Draft rows: what every row added in the editor looks like

  /** A row of a draft order: not saved, embeds its product, and its total is price × quantity. */
  predicate DraftRow(item: Item) {
    && item.id.None?
    && item.product.Embedded?
    && item.productId == Some(item.product.product.id)
    && item.unitPriceAtOrder == item.product.product.unitPrice
    && item.itemTotal == Some(item.product.product.unitPrice * item.quantity)
  }

  predicate DraftRows(items: seq<Item>) {
    forall i :: 0 <= i < |items| ==> DraftRow(items[i])
  }

  /** At most one row per product. */
  predicate UniqueProducts(items: seq<Item>) {
    forall i, j :: 0 <= i < j < |items| ==> ProductKey(items[i]) != ProductKey(items[j])
  }

  // ---------------------------------------------------------------------------------------
  // The three list transforms

  /**
   * Adding `quantity` of product p to a draft: a row already holding p grows by `quantity` and
   * its total is recomputed; otherwise one new row is appended.
   */
  function AddToDraft(items: seq<Item>, p: Product, quantity: int): (r: seq<Item>)
    ensures var k := IndexOfProduct(items, p.id);
      k >= 0 ==>
        && |r| == |items|
        && r[k].quantity == items[k].quantity + quantity
        && r[k].itemTotal == Some(RowUnitPrice(items[k]) * (items[k].quantity + quantity))
        && r[k].product == items[k].product && r[k].id == items[k].id
        && r[k] == items[k].(quantity := items[k].quantity + quantity,
                             itemTotal := Some(RowUnitPrice(items[k]) * (items[k].quantity + quantity)))
        && forall j :: 0 <= j < |items| && j != k ==> r[j] == items[j]
    ensures IndexOfProduct(items, p.id) < 0 ==>
      && |r| == |items| + 1 && r[..|items|] == items
      && ProductKey(r[|items|]) == p.id && r[|items|].quantity == quantity
      && r[|items|].unitPriceAtOrder == p.unitPrice
      && r[|items|].itemTotal == Some(p.unitPrice * quantity)
      && r[|items|].id.None? && r[|items|].product == Embedded(p) && r[|items|].productName == p.name
      && r[|items|] == NewDraftRow(p, quantity)
  {
    var k := IndexOfProduct(items, p.id);
    if k >= 0 then items[k := Requantified(items[k], items[k].quantity + quantity)]
    else items + [NewDraftRow(p, quantity)]
  }

  /** Sets the quantity of row i and recomputes its total; an index outside the list changes nothing. */
  function SetQuantityAt(items: seq<Item>, i: int, quantity: int): (r: seq<Item>)
    ensures |r| == |items|
    ensures 0 <= i < |items| ==>
      && r[i].quantity == quantity
      && r[i].itemTotal == Some(RowUnitPrice(items[i]) * quantity)
      && r[i].product == items[i].product && r[i].id == items[i].id
      && r[i] == items[i].(quantity := quantity, itemTotal := Some(RowUnitPrice(items[i]) * quantity))
    ensures forall j :: 0 <= j < |items| && j != i ==> r[j] == items[j]
  {
    if 0 <= i < |items| then items[i := Requantified(items[i], quantity)] else items
  }

  /** Drops row i, keeping the others in order; an index outside the list changes nothing. */
  function RemoveAt(items: seq<Item>, i: int): (r: seq<Item>)
    ensures 0 <= i < |items| ==> |r| == |items| - 1 && r[..i] == items[..i] && r[i..] == items[i + 1..]
    ensures !(0 <= i < |items|) ==> r == items
  {
    if 0 <= i < |items| then items[..i] + items[i + 1..] else items
  }

  // ---------------------------------------------------------------------------------------
  // Properties of the transforms

  lemma NewDraftRowIsDraft(p: Product, quantity: int)
    ensures DraftRow(NewDraftRow(p, quantity)) && ProductKey(NewDraftRow(p, quantity)) == p.id
  {
  }

  /** Recomputing a draft row's total for a new quantity keeps it a draft row for the same product. */
  lemma RequantifiedIsDraft(item: Item, quantity: int)
    requires DraftRow(item)
    ensures DraftRow(Requantified(item, quantity)) && ProductKey(Requantified(item, quantity)) == ProductKey(item)
  {
  }

  lemma AddToDraftKeepsDraftRows(items: seq<Item>, p: Product, quantity: int)
    requires DraftRows(items)
    ensures DraftRows(AddToDraft(items, p, quantity))
  {
    var r := AddToDraft(items, p, quantity);
    var k := IndexOfProduct(items, p.id);
    forall i | 0 <= i < |r| ensures DraftRow(r[i]) {
      if k >= 0 && i == k {
        RequantifiedIsDraft(items[k], items[k].quantity + quantity);
      } else if k < 0 && i == |items| {
        NewDraftRowIsDraft(p, quantity);
      }
    }
  }

  /** After an add, product p is in the draft exactly once and no other product is repeated. */
  lemma AddToDraftKeepsUnique(items: seq<Item>, p: Product, quantity: int)
    requires UniqueProducts(items)
    ensures UniqueProducts(AddToDraft(items, p, quantity))
    ensures IndexOfProduct(AddToDraft(items, p, quantity), p.id) >= 0
  {
    var r := AddToDraft(items, p, quantity);
    var k := IndexOfProduct(items, p.id);
    assert forall i :: 0 <= i < |items| ==> ProductKey(r[i]) == ProductKey(items[i]);
    if k < 0 {
      assert ProductKey(r[|items|]) == p.id;
      assert KeyOf(Corrected, r[|items|]) == Some(p.id);
    } else {
      assert KeyOf(Corrected, r[k]) == Some(p.id);
    }
  }

  /** An add grows the product count by the quantity added and the price by that quantity's cost. */
  lemma AddToDraftTotals(items: seq<Item>, p: Product, quantity: int)
    requires DraftRows(items)
    ensures var r := AddToDraft(items, p, quantity);
      var k := IndexOfProduct(items, p.id);
      && CountTotal(r) == CountTotal(items) + quantity
      && PriceTotal(r) == PriceTotal(items) + (if k >= 0 then RowUnitPrice(items[k]) else p.unitPrice) * quantity
  {
    var r := AddToDraft(items, p, quantity);
    var k := IndexOfProduct(items, p.id);
    if k >= 0 {
      TotalsAround(items, k);
      TotalsAround(r, k);
      assert r[..k] == items[..k];
      assert r[k + 1..] == items[k + 1..];
      var q := items[k].quantity;
      assert LineTotal(items[k]) == RowUnitPrice(items[k]) * q;
      assert LineTotal(r[k]) == RowUnitPrice(items[k]) * (q + quantity);
      Distribute(RowUnitPrice(items[k]), q, quantity);
    } else {
      TotalsOfConcat(items, [NewDraftRow(p, quantity)]);
      TotalsOfOne(NewDraftRow(p, quantity));
    }
  }

  lemma Distribute(a: int, b: int, c: int)
    ensures a * (b + c) == a * b + a * c
  {
  }

  /** Adding a product twice is adding the sum of the two quantities once. */
  lemma AddTwice(items: seq<Item>, p: Product, a: int, b: int)
    ensures AddToDraft(AddToDraft(items, p, a), p, b) == AddToDraft(items, p, a + b)
  {
    var k := IndexOfProduct(items, p.id);
    var once := AddToDraft(items, p, a);
    if k >= 0 {
      MergeKeepsIndex(items, p, a);
      assert once[k] == Requantified(items[k], items[k].quantity + a);
    } else {
      AppendFindsNewRow(items, p, a);
    }
  }

  /** After a merge the product is still found at the row that was merged into. */
  lemma MergeKeepsIndex(items: seq<Item>, p: Product, quantity: int)
    requires IndexOfProduct(items, p.id) >= 0
    ensures IndexOfProduct(AddToDraft(items, p, quantity), p.id) == IndexOfProduct(items, p.id)
  {
    var k := IndexOfProduct(items, p.id);
    var r := AddToDraft(items, p, quantity);
    assert forall j :: 0 <= j < k ==> r[j] == items[j];
    assert KeyOf(Corrected, r[k]) == Some(p.id);
  }

  /** After an append the product is found at the new last row. */
  lemma AppendFindsNewRow(items: seq<Item>, p: Product, quantity: int)
    requires IndexOfProduct(items, p.id) < 0
    ensures IndexOfProduct(AddToDraft(items, p, quantity), p.id) == |items|
  {
    var r := AddToDraft(items, p, quantity);
    assert forall j :: 0 <= j < |items| ==> r[j] == items[j];
    assert KeyOf(Corrected, r[|items|]) == Some(p.id);
  }

  lemma SetQuantityKeepsDraftRows(items: seq<Item>, i: int, quantity: int)
    requires DraftRows(items)
    ensures DraftRows(SetQuantityAt(items, i, quantity))
  {
    var r := SetQuantityAt(items, i, quantity);
    forall j | 0 <= j < |r| ensures DraftRow(r[j]) {
      if j == i {
        RequantifiedIsDraft(items[i], quantity);
      }
    }
  }

  lemma SetQuantityKeepsUnique(items: seq<Item>, i: int, quantity: int)
    requires UniqueProducts(items)
    ensures UniqueProducts(SetQuantityAt(items, i, quantity))
  {
    var r := SetQuantityAt(items, i, quantity);
    assert forall j :: 0 <= j < |items| ==> ProductKey(r[j]) == ProductKey(items[j]);
  }

  /** A quantity edit moves the count by the change in quantity and the price by the change in row total. */
  lemma SetQuantityTotals(items: seq<Item>, i: int, quantity: int)
    requires 0 <= i < |items|
    ensures var r := SetQuantityAt(items, i, quantity);
      && CountTotal(r) + items[i].quantity == CountTotal(items) + quantity
      && PriceTotal(r) + LineTotal(items[i]) == PriceTotal(items) + RowUnitPrice(items[i]) * quantity
  {
    var r := SetQuantityAt(items, i, quantity);
    TotalsAround(items, i);
    TotalsAround(r, i);
    assert r[..i] == items[..i];
    assert r[i + 1..] == items[i + 1..];
  }

  lemma RemoveKeepsDraftRows(items: seq<Item>, i: int)
    requires DraftRows(items)
    ensures DraftRows(RemoveAt(items, i))
  {
    var r := RemoveAt(items, i);
    if 0 <= i < |items| {
      forall j | 0 <= j < |r| ensures DraftRow(r[j]) {
        if j < i { assert r[j] == items[j]; } else { assert r[j] == items[j + 1]; }
      }
    }
  }

  lemma RemoveKeepsUnique(items: seq<Item>, i: int)
    requires UniqueProducts(items)
    ensures UniqueProducts(RemoveAt(items, i))
  {
    var r := RemoveAt(items, i);
    if 0 <= i < |items| {
      forall a, b | 0 <= a < b < |r| ensures ProductKey(r[a]) != ProductKey(r[b]) {
        var a' := if a < i then a else a + 1;
        var b' := if b < i then b else b + 1;
        assert r[a] == items[a'] && r[b] == items[b'];
      }
    }
  }

  /** Removing row i takes exactly its quantity and its total off the order's totals. */
  lemma RemoveTotals(items: seq<Item>, i: int)
    requires 0 <= i < |items|
    ensures CountTotal(RemoveAt(items, i)) + items[i].quantity == CountTotal(items)
    ensures PriceTotal(RemoveAt(items, i)) + LineTotal(items[i]) == PriceTotal(items)
  {
    TotalsAround(items, i);
    TotalsOfConcat(items[..i], items[i + 1..]);
  }

  /** On a draft the totals fold counts each row at its unit price times its quantity. */
  lemma {:induction false} DraftPriceTotal(items: seq<Item>)
    requires DraftRows(items)
    ensures PriceTotal(items) == CostOf(items)
  {
    if items != [] {
      DraftPriceTotal(items[..|items| - 1]);
    }
  }

  /** Σ unit_price_at_order × quantity over the rows. */
  function CostOf(items: seq<Item>): int {
    if items == [] then 0 else CostOf(items[..|items| - 1]) + items[|items| - 1].unitPriceAtOrder * items[|items| - 1].quantity
  }

  // ---------------------------------------------------------------------------------------
  // The two matching keys

  /** On every draft row the key as written is defined and is the row's product. */
  lemma KeysAgreeOnDraftRows(items: seq<Item>, pid: Id)
    requires DraftRows(items)
    ensures FindIndex(items, pid, AsWritten) == IndexOfProduct(items, pid)
  {
    assert forall j :: 0 <= j < |items| ==> KeyOf(AsWritten, items[j]) == KeyOf(Corrected, items[j]);
  }

  /** As written, no row read back from the store ever matches a product: its key is undefined. */
  lemma FetchedRowsNeverMatchAsWritten(rs: seq<ServerItem>, pid: Id)
    ensures FindIndex(FromServerAll(rs), pid, AsWritten) == -1
  {
    var items := FromServerAll(rs);
    assert forall j :: 0 <= j < |items| ==> KeyOf(AsWritten, items[j]).None?;
  }

  /** With the corrected key, a product present among the fetched rows is found, at a row holding it. */
  lemma FetchedRowFound(rs: seq<ServerItem>, k: nat)
    requires k < |rs|
    ensures var i := IndexOfProduct(FromServerAll(rs), rs[k].product);
      0 <= i <= k && rs[i].product == rs[k].product
  {
    var items := FromServerAll(rs);
    assert KeyOf(Corrected, items[k]) == Some(rs[k].product);
    var i := IndexOfProduct(items, rs[k].product);
    assert KeyOf(Corrected, items[i]) == Some(rs[i].product);
  }
}
