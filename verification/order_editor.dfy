/**
 * The add/edit order view. Without an order key it edits a local draft: item changes are the
 * list transforms of `OrderLines`, and the totals follow the items. With an order key every
 * item change is one remote command followed by a refetch of the order. Saving a draft creates
 * the order and then its items, one at a time and in list order.
 */
module OrderEditor {
  import opened Common
  import opened OrderStore
  import opened OrderLines
  import Decimal
  import Models

  /** The view's `orderData` state object; its creation date is left out. */
  datatype OrderData = OrderData(
    orderNumber: string,
    status: string,
    totalProductsCount: int,
    totalFinalPrice: string,
    items: seq<Item>)

  /** The fields of a fetched order the view reads; "" and `None` stand for absent values. */
  datatype OrderPayload = OrderPayload(
    orderNumber: string,
    status: string,
    totalProductsCount: int,
    totalFinalPrice: string,
    items: Option<seq<ServerItem>>)

  /** The state a new order starts from. */
  function DraftDefaults(): OrderData {
    OrderData("", "Pending", 0, "0.00", [])
  }

  /** `orderData` after a fetch: the fetched fields, each absent one replaced by its default. */
  function FromPayload(p: OrderPayload): OrderData {
    OrderData(
      p.orderNumber,
      if p.status == "" then "Pending" else p.status,
      p.totalProductsCount,
      if p.totalFinalPrice == "" then "0.00" else p.totalFinalPrice,
      match p.items
      case Some(rs) => FromServerAll(rs)
      case None => [])
  }

  /** The draft totals effect: count and price folded over the items, the price with two decimals. */
  function Retotalled(d: OrderData): OrderData {
    d.(totalProductsCount := CountTotal(d.items), totalFinalPrice := Decimal.FormatCents(PriceTotal(d.items)))
  }

  /** What a draft always satisfies: rows made by the editor, one per product, totals in step. */
  predicate DraftValid(d: OrderData) {
    DraftRows(d.items) && UniqueProducts(d.items) && d == Retotalled(d)
  }

  /**
   * A draft's shown totals are its items' totals: the count is the sum of the quantities and
   * the price, read back, is the sum of the row totals.
   */
  lemma DraftShowsTotals(d: OrderData)
    requires DraftValid(d)
    ensures d.totalProductsCount == CountTotal(d.items)
    ensures Decimal.ParseCents(d.totalFinalPrice) == Some(PriceTotal(d.items))
    ensures PriceTotal(d.items) == CostOf(d.items)
  {
    Decimal.FormatCentsRoundTrip(PriceTotal(d.items));
    DraftPriceTotal(d.items);
  }

  lemma DraftDefaultsValid()
    ensures DraftValid(DraftDefaults())
  {
    assert Decimal.NatToString(0) == "0";
    assert Decimal.FormatCents(0) == "0.00";
  }

  /** The three fields a fetch writes. */
  datatype Fetchable = Fetchable(orderData: OrderData, isOrderCompleted: bool, error: Option<string>)

  /**
   * The fetch of an edited order: on success the fetched data, with the lock set exactly when the
   * fetched status is "Completed" and the error cleared; on failure only the error changes.
   */
  function AfterFetch(s: Fetchable, reply: Reply<OrderPayload>): (t: Fetchable)
    ensures reply.Ok? ==> (t.isOrderCompleted <==> reply.value.status == "Completed")
    ensures reply.Ok? ==> t.error.None? && t.orderData.items == FromPayload(reply.value).items
    ensures reply.Failed? ==> t.orderData == s.orderData && t.isOrderCompleted == s.isOrderCompleted
    ensures reply.Failed? ==> t.error.Some? && (reply.failure.message != "" ==> t.error.value == reply.failure.message)
  {
    match reply
    case Ok(p) => Fetchable(FromPayload(p), p.status == "Completed", None)
    case Failed(f) => s.(error := Some(MessageOr(f, "Failed to load order data.")))
  }

  // ---------------------------------------------------------------------------------------
  // Saving

  /** The error text a failed save shows: the server's detail, else the message, else a default. */
  function SaveErrorText(f: Failure): string {
    if f.detail != "" then f.detail else MessageOr(f, "Failed to save order.")
  }

  /** The item creates a draft commit issues for `items`, one per row, in list order. */
  function ItemCreates(order: Id, items: seq<Item>): (cmds: seq<Command>)
    ensures |cmds| == |items|
    ensures forall i :: 0 <= i < |items| ==> cmds[i] == CreateItem(order, ProductKey(items[i]), items[i].quantity)
  {
    if items == [] then [] else ItemCreates(order, items[..|items| - 1]) + [CreateItem(order, ProductKey(items[|items| - 1]), items[|items| - 1].quantity)]
  }

  /** How the store answers the i-th item create: `None` is success; answers beyond the list succeed. */
  function OutcomeAt(fs: seq<Option<Failure>>, i: nat): Option<Failure> {
    if i < |fs| then fs[i] else None
  }

  /** The index of the first failing item create among the first n, or n when all n succeed. */
  function FirstFailure(fs: seq<Option<Failure>>, n: nat): (k: nat)
    ensures k <= n
    ensures forall j :: 0 <= j < k ==> OutcomeAt(fs, j).None?
    ensures k < n ==> OutcomeAt(fs, k).Some?
  {
    if n == 0 then 0
    else
      var k := FirstFailure(fs, n - 1);
      if k < n - 1 then k else if OutcomeAt(fs, n - 1).Some? then n - 1 else n
  }

  /** The calls a save makes and the error it leaves; no error means the view navigates away. */
  datatype SaveOutcome = SaveOutcome(commands: seq<Command>, error: Option<string>)

  /**
   * Saving: an edited order sends its status alone; a draft creates the order with its status,
   * then one item per row in list order until a create fails, then fetches the new order.
   */
  function Save(orderId: Option<Id>, d: OrderData, saveReply: Reply<Id>,
                itemFailures: seq<Option<Failure>>, refetch: Option<Failure>): SaveOutcome
  {
    match orderId
    case Some(id) =>
      SaveOutcome([UpdateOrder(id, d.status)], if saveReply.Failed? then Some(SaveErrorText(saveReply.failure)) else None)
    case None =>
      match saveReply
      case Failed(f) => SaveOutcome([CreateOrder(d.status)], Some(SaveErrorText(f)))
      case Ok(newId) =>
        var k := FirstFailure(itemFailures, |d.items|);
        if k < |d.items| then
          SaveOutcome([CreateOrder(d.status)] + ItemCreates(newId, d.items[..k + 1]), Some(SaveErrorText(itemFailures[k].value)))
        else
          SaveOutcome([CreateOrder(d.status)] + ItemCreates(newId, d.items) + [GetOrder(newId)],
                      if refetch.Some? then Some(SaveErrorText(refetch.value)) else None)
  }

  /** Saving an edited order sends one command, carrying only the order's status. */
  lemma SaveEditSendsStatusOnly(id: Id, d: OrderData, saveReply: Reply<Id>, fs: seq<Option<Failure>>, refetch: Option<Failure>)
    ensures Save(Some(id), d, saveReply, fs, refetch).commands == [UpdateOrder(id, d.status)]
    ensures Save(Some(id), d, saveReply, fs, refetch).error.None? <==> saveReply.Ok?
  {
  }

  lemma Prefixed(head: Command, xs: seq<Command>, tail: seq<Command>)
    ensures |[head] + xs + tail| == 1 + |xs| + |tail| && ([head] + xs + tail)[0] == head
    ensures forall j :: 0 <= j < |xs| ==> ([head] + xs + tail)[1 + j] == xs[j]
    ensures forall j :: 0 <= j < |tail| ==> ([head] + xs + tail)[1 + |xs| + j] == tail[j]
  {
  }

  /**
   * A draft commit first creates the order with the draft's status; the j-th command after it
   * creates the j-th row's product in the row's quantity; no item is created after the first
   * failure; and the new order is fetched only when every create succeeded.
   */
  lemma DraftCommitOrder(d: OrderData, saveReply: Reply<Id>, fs: seq<Option<Failure>>, refetch: Option<Failure>)
    ensures var o := Save(None, d, saveReply, fs, refetch);
      && |o.commands| >= 1 && o.commands[0] == CreateOrder(d.status)
      && (saveReply.Failed? ==> |o.commands| == 1)
      && (saveReply.Ok? ==>
            var k := FirstFailure(fs, |d.items|);
            && (forall j :: 0 <= j <= k && j < |d.items| ==>
                  o.commands[1 + j] == CreateItem(saveReply.value, ProductKey(d.items[j]), d.items[j].quantity))
            && (k < |d.items| ==> |o.commands| == k + 2)
            && (k == |d.items| ==> |o.commands| == |d.items| + 2 && o.commands[|d.items| + 1] == GetOrder(saveReply.value)))
  {
    var o := Save(None, d, saveReply, fs, refetch);
    if saveReply.Ok? {
      var id := saveReply.value;
      var k := FirstFailure(fs, |d.items|);
      if k < |d.items| {
        Prefixed(CreateOrder(d.status), ItemCreates(id, d.items[..k + 1]), []);
      } else {
        Prefixed(CreateOrder(d.status), ItemCreates(id, d.items), [GetOrder(id)]);
      }
    }
  }

  /** A draft commit succeeds exactly when the order create, every item create and the fetch succeed. */
  lemma DraftCommitSucceeds(d: OrderData, saveReply: Reply<Id>, fs: seq<Option<Failure>>, refetch: Option<Failure>)
    ensures Save(None, d, saveReply, fs, refetch).error.None? <==>
      saveReply.Ok? && refetch.None? && forall j :: 0 <= j < |d.items| ==> OutcomeAt(fs, j).None?
  {
    if saveReply.Ok? && FirstFailure(fs, |d.items|) < |d.items| {
      assert OutcomeAt(fs, FirstFailure(fs, |d.items|)).Some?;
    }
  }

  /**
   * Against a store that refuses every item create, committing a non-empty draft creates the
   * order, sends the create of its first row only, and ends with that create's error: the new
   * order is left without items.
   */
  lemma DraftCommitFirstItemRefused(d: OrderData, id: Id, fs: seq<Option<Failure>>, refetch: Option<Failure>)
    requires |d.items| > 0 && |fs| > 0 && fs[0].Some?
    ensures Save(None, d, Ok(id), fs, refetch)
      == SaveOutcome([CreateOrder(d.status), CreateItem(id, ProductKey(d.items[0]), d.items[0].quantity)],
                     Some(SaveErrorText(fs[0].value)))
  {
    var k := FirstFailure(fs, |d.items|);
    assert OutcomeAt(fs, 0).Some?;
    assert k == 0;
    assert ItemCreates(id, d.items[..1]) == [CreateItem(id, ProductKey(d.items[0]), d.items[0].quantity)];
  }

  /**
   * The commit loop: creates the rows' items one at a time, in list order, and stops at the
   * first create that fails, returning its failure.
   */
  method CreateItemsInOrder(newId: Id, rows: seq<Item>, itemFailures: seq<Option<Failure>>)
    returns (creates: seq<Command>, failed: Option<Failure>)
    ensures var k := FirstFailure(itemFailures, |rows|);
      && (k < |rows| ==> creates == ItemCreates(newId, rows[..k + 1]) && failed == itemFailures[k])
      && (k == |rows| ==> creates == ItemCreates(newId, rows) && failed.None?)
  {
    ghost var k := FirstFailure(itemFailures, |rows|);
    creates := [];
    failed := None;
    var i := 0;
    while i < |rows| && failed.None?
      invariant 0 <= i <= |rows|
      invariant creates == ItemCreates(newId, rows[..i])
      invariant failed.None? ==> i <= k
      invariant failed.Some? ==> 0 < i && i - 1 == k && failed == OutcomeAt(itemFailures, k)
    {
      assert rows[..i + 1][..i] == rows[..i];
      creates := creates + [CreateItem(newId, ProductKey(rows[i]), rows[i].quantity)];
      failed := OutcomeAt(itemFailures, i);
      i := i + 1;
    }
    if failed.None? {
      assert rows[..i] == rows;
    }
  }

  // ---------------------------------------------------------------------------------------
  // Edit-mode item changes

  /** Every row has a store key, as every fetched row does. */
  predicate AllSaved(items: seq<Item>) {
    forall i :: 0 <= i < |items| ==> items[i].id.Some?
  }

  lemma FetchedRowsSaved(p: OrderPayload)
    ensures AllSaved(FromPayload(p).items)
  {
  }

  /**
   * The one command an add makes on an edited order: an update of the row already holding the
   * product, to its quantity plus the added amount, or else a create of a new row.
   */
  function EditAddCommand(order: Id, items: seq<Item>, p: Product, quantity: int): (c: Command)
    requires AllSaved(items)
    ensures c.UpdateItem? <==> exists j :: 0 <= j < |items| && ProductKey(items[j]) == p.id
    ensures c.UpdateItem? ==> exists j ::
      && 0 <= j < |items| && ProductKey(items[j]) == p.id
      && items[j].id == Some(c.itemId) && c.quantity == items[j].quantity + quantity
    ensures !c.UpdateItem? ==> c == CreateItem(order, p.id, quantity)
  {
    var k := IndexOfProduct(items, p.id);
    if k >= 0 then
      assert KeyOf(Corrected, items[k]) == Some(p.id);
      UpdateItem(items[k].id.value, items[k].quantity + quantity)
    else
      assert forall j :: 0 <= j < |items| ==> KeyOf(Corrected, items[j]) != Some(p.id);
      CreateItem(order, p.id, quantity)
  }

  /** The same command with rows matched by the key as written. */
  function EditAddCommandAsWritten(order: Id, items: seq<Item>, p: Product, quantity: int): Command
    requires AllSaved(items)
  {
    var k := FindIndex(items, p.id, AsWritten);
    if k >= 0 then UpdateItem(items[k].id.value, items[k].quantity + quantity)
    else CreateItem(order, p.id, quantity)
  }

  /**
   * As written, adding a product the fetched order already holds sends a create instead of the
   * update of its row: order 5 holds 2 of product 7 in item 1, and adding 1 more sends a create
   * of product 7 where the update of item 1 to 3 was meant.
   */
  lemma EditAddAsWrittenCreates()
    ensures var rows := FromPayload(OrderPayload("ORD-00005", "Pending", 2, "3.00", Some([ServerItem(1, 7, "Pen", 2, 150, 300)]))).items;
      && ProductKey(rows[0]) == 7
      && EditAddCommandAsWritten(5, rows, Product(7, "Pen", 150), 1) == CreateItem(5, 7, 1)
      && EditAddCommand(5, rows, Product(7, "Pen", 150), 1) == UpdateItem(1, 3)
  {
    var rows := FromServerAll([ServerItem(1, 7, "Pen", 2, 150, 300)]);
    FetchedRowsNeverMatchAsWritten([ServerItem(1, 7, "Pen", 2, 150, 300)], 7);
    assert KeyOf(Corrected, rows[0]) == Some(7);
  }

  // ---------------------------------------------------------------------------------------
  // What the page shows and enables

  datatype Controls = Controls(
    statusOptions: seq<string>,
    statusDisabled: bool,
    addProductDisabled: bool,
    itemsTableDisabled: bool,
    submitDisabled: bool)

  /**
   * The controls for a lock flag and a saving flag: a completed order offers only "Completed"
   * and disables every control; otherwise all three status values are offered, adding and the
   * items table are enabled and the submit button waits only for a save in progress.
   */
  function ControlsFor(isOrderCompleted: bool, saving: bool): (c: Controls)
    ensures isOrderCompleted ==>
      && c.statusOptions == ["Completed"]
      && c.statusDisabled && c.addProductDisabled && c.itemsTableDisabled && c.submitDisabled
    ensures !isOrderCompleted ==>
      && |c.statusOptions| == |Models.StatusChoices|
      && (forall i :: 0 <= i < |c.statusOptions| ==> c.statusOptions[i] == Models.StatusValue(Models.StatusChoices[i]))
      && !c.statusDisabled && !c.addProductDisabled && !c.itemsTableDisabled && c.submitDisabled == saving
  {
    if isOrderCompleted then Controls(["Completed"], true, true, true, true)
    else Controls(["Pending", "InProgress", "Completed"], false, false, false, saving)
  }

  // ---------------------------------------------------------------------------------------
  // The view

  class AddEditOrderView {
    /** The order key from the route; `None` is a new order (draft mode). */
    const orderId: Option<Id>
    var orderData: OrderData
    var isOrderCompleted: bool
    var error: Option<string>
    var addProductOpen: bool
    var navigatedAway: bool

    ghost predicate Valid()
      reads this
    {
      && (orderId.None? ==> DraftValid(orderData) && !isOrderCompleted)
      && (orderId.Some? ==> AllSaved(orderData.items))
    }

    function Fetched(): Fetchable
      reads this
    {
      Fetchable(orderData, isOrderCompleted, error)
    }

    function ControlsNow(saving: bool): Controls
      reads this
    {
      ControlsFor(isOrderCompleted, saving)
    }

    constructor (orderId: Option<Id>)
      ensures Valid()
      ensures this.orderId == orderId && orderData == DraftDefaults()
      ensures !isOrderCompleted && error.None? && !addProductOpen && !navigatedAway
    {
      this.orderId := orderId;
      orderData := DraftDefaults();
      isOrderCompleted := false;
      error := None;
      addProductOpen := false;
      navigatedAway := false;
      DraftDefaultsValid();
    }

    /** Loads the edited order: one fetch, whose reply decides the data, the lock and the error. */
    method Refetch(reply: Reply<OrderPayload>) returns (cmds: seq<Command>)
      requires orderId.Some?
      modifies this
      ensures cmds == [GetOrder(orderId.value)]
      ensures Fetched() == AfterFetch(old(Fetched()), reply)
      ensures addProductOpen == old(addProductOpen) && navigatedAway == old(navigatedAway)
      ensures old(AllSaved(orderData.items)) ==> AllSaved(orderData.items)
    {
      cmds := [GetOrder(orderId.value)];
      error := None;
      match reply {
        case Ok(p) =>
          orderData := FromPayload(p);
          isOrderCompleted := p.status == "Completed";
          FetchedRowsSaved(p);
        case Failed(f) =>
          error := Some(MessageOr(f, "Failed to load order data."));
      }
    }

    /** The load on mount: the edited order is fetched; a draft is reset to its defaults. */
    method FetchOrderData(reply: Reply<OrderPayload>) returns (cmds: seq<Command>)
      requires Valid()
      modifies this
      ensures Valid()
      ensures orderId.Some? ==> cmds == [GetOrder(orderId.value)] && Fetched() == AfterFetch(old(Fetched()), reply)
      ensures orderId.None? ==> cmds == [] && orderData == DraftDefaults() && !isOrderCompleted && error == old(error)
      ensures addProductOpen == old(addProductOpen) && navigatedAway == old(navigatedAway)
    {
      if orderId.Some? {
        cmds := Refetch(reply);
      } else {
        cmds := [];
        orderData := DraftDefaults();
        isOrderCompleted := false;
        DraftDefaultsValid();
      }
    }

    /** A change of the status select; ignored on a completed order. */
    method InputChange(value: string)
      requires Valid()
      modifies this
      ensures Valid()
      ensures old(isOrderCompleted) ==> unchanged(this)
      ensures !old(isOrderCompleted) ==>
        && orderData == old(orderData).(status := value)
        && isOrderCompleted == old(isOrderCompleted) && error == old(error)
        && addProductOpen == old(addProductOpen) && navigatedAway == old(navigatedAway)
    {
      if isOrderCompleted {
        return;
      }
      orderData := orderData.(status := value);
    }

    /** Opens the add-product dialog; ignored on a completed order. */
    method OpenAddProductModal()
      modifies this
      ensures old(isOrderCompleted) ==> unchanged(this)
      ensures !old(isOrderCompleted) ==>
        && addProductOpen
        && orderData == old(orderData) && isOrderCompleted == old(isOrderCompleted)
        && error == old(error) && navigatedAway == old(navigatedAway)
    {
      if isOrderCompleted {
        return;
      }
      addProductOpen := true;
    }

    method CloseAddProductModal()
      modifies this
      ensures !addProductOpen
      ensures orderData == old(orderData) && isOrderCompleted == old(isOrderCompleted)
        && error == old(error) && navigatedAway == old(navigatedAway)
    {
      addProductOpen := false;
    }

    /** Replaces the draft's items; the totals effect then recomputes the totals. */
    method SetDraftItems(items: seq<Item>)
      requires orderId.None?
      modifies this
      ensures orderData == Retotalled(old(orderData).(items := items))
      ensures isOrderCompleted == old(isOrderCompleted) && error == old(error)
        && addProductOpen == old(addProductOpen) && navigatedAway == old(navigatedAway)
    {
      orderData := Retotalled(orderData.(items := items));
    }

    /**
     * Submits the form. On a completed order nothing happens. Otherwise the calls and the error
     * are those of `Save`, and the view navigates away when it leaves no error.
     */
    method Submit(saveReply: Reply<Id>, itemFailures: seq<Option<Failure>>, refetch: Option<Failure>)
      returns (cmds: seq<Command>)
      requires Valid()
      modifies this
      ensures Valid()
      ensures old(isOrderCompleted) ==> cmds == [] && unchanged(this)
      ensures !old(isOrderCompleted) ==>
        var o := Save(orderId, old(orderData), saveReply, itemFailures, refetch);
        && cmds == o.commands && error == o.error
        && navigatedAway == (old(navigatedAway) || o.error.None?)
        && orderData == old(orderData) && isOrderCompleted == old(isOrderCompleted)
        && addProductOpen == old(addProductOpen)
    {
      if isOrderCompleted {
        return [];
      }
      error := None;
      match orderId {
        case Some(id) =>
          cmds := [UpdateOrder(id, orderData.status)];
          if saveReply.Failed? {
            error := Some(SaveErrorText(saveReply.failure));
          } else {
            navigatedAway := true;
          }
        case None =>
          cmds := [CreateOrder(orderData.status)];
          if saveReply.Failed? {
            error := Some(SaveErrorText(saveReply.failure));
            return;
          }
          var newId := saveReply.value;
          var creates, failed := CreateItemsInOrder(newId, orderData.items, itemFailures);
          cmds := cmds + creates;
          if failed.Some? {
            error := Some(SaveErrorText(failed.value));
            return;
          }
          cmds := cmds + [GetOrder(newId)];
          if refetch.Some? {
            error := Some(SaveErrorText(refetch.value));
          } else {
            navigatedAway := true;
          }
      }
    }

    /**
     * Adds a product chosen in the dialog. A draft merges or appends it locally. An edited order
     * sends the one command of `EditAddCommand`; on success the order is refetched, on failure
     * the items stay as they were and the error is set. The dialog is closed either way.
     */
    method AddProductToOrder(p: Product, quantity: int, reply: Option<Failure>, refetch: Reply<OrderPayload>)
      returns (cmds: seq<Command>)
      requires Valid()
      modifies this
      ensures Valid()
      ensures !addProductOpen && navigatedAway == old(navigatedAway)
      ensures orderId.None? ==>
        && cmds == []
        && orderData == Retotalled(old(orderData).(items := AddToDraft(old(orderData.items), p, quantity)))
        && error == old(error)
      ensures orderId.Some? ==>
        var c := EditAddCommand(orderId.value, old(orderData.items), p, quantity);
        && (reply.None? ==> cmds == [c, GetOrder(orderId.value)] && Fetched() == AfterFetch(old(Fetched()), refetch))
        && (reply.Some? ==>
              && cmds == [c] && orderData == old(orderData) && isOrderCompleted == old(isOrderCompleted)
              && error == Some(MessageOr(reply.value, "Failed to process product.")))
    {
      match orderId {
        case Some(id) =>
          var c := EditAddCommand(id, orderData.items, p, quantity);
          if reply.None? {
            var fetch := Refetch(refetch);
            cmds := [c] + fetch;
          } else {
            cmds := [c];
            error := Some(MessageOr(reply.value, "Failed to process product."));
          }
        case None =>
          cmds := [];
          var items := AddToDraft(orderData.items, p, quantity);
          AddToDraftKeepsDraftRows(orderData.items, p, quantity);
          AddToDraftKeepsUnique(orderData.items, p, quantity);
          SetDraftItems(items);
      }
      CloseAddProductModal();
    }

    /**
     * Removes row i. On an edited order, whose rows all have store keys, the row is deleted
     * remotely and the order refetched; on a draft the row is dropped from the local list and
     * the totals follow. An index outside an edited order's list changes nothing.
     */
    method RemoveItemFromOrder(i: int, reply: Option<Failure>, refetch: Reply<OrderPayload>)
      returns (cmds: seq<Command>)
      requires Valid()
      modifies this
      ensures Valid()
      ensures addProductOpen == old(addProductOpen) && navigatedAway == old(navigatedAway)
      ensures orderId.None? ==>
        && cmds == []
        && orderData == Retotalled(old(orderData).(items := RemoveAt(old(orderData.items), i)))
        && error == old(error)
      ensures orderId.Some? && !(0 <= i < old(|orderData.items|)) ==> cmds == [] && unchanged(this)
      ensures orderId.Some? && 0 <= i < old(|orderData.items|) ==>
        var c := DeleteItem(old(orderData.items[i].id.value));
        && (reply.None? ==> cmds == [c, GetOrder(orderId.value)] && Fetched() == AfterFetch(old(Fetched()), refetch))
        && (reply.Some? ==>
              && cmds == [c] && orderData == old(orderData) && isOrderCompleted == old(isOrderCompleted)
              && error == Some(MessageOr(reply.value, "Failed to remove product.")))
    {
      cmds := [];
      match orderId {
        case Some(id) =>
          if !(0 <= i < |orderData.items|) {
            return;
          }
          var row := orderData.items[i];
          if row.id.Some? {
            if reply.None? {
              var fetch := Refetch(refetch);
              cmds := [DeleteItem(row.id.value)] + fetch;
            } else {
              cmds := [DeleteItem(row.id.value)];
              error := Some(MessageOr(reply.value, "Failed to remove product."));
            }
          } else {
            // every row of an edited order was fetched and has a key
            assert false;
          }
        case None =>
          RemoveKeepsDraftRows(orderData.items, i);
          RemoveKeepsUnique(orderData.items, i);
          SetDraftItems(RemoveAt(orderData.items, i));
      }
    }

    /**
     * Sets the quantity of row i. On an edited order, whose rows all have store keys, the row is
     * updated remotely and the order refetched; on a draft the row is changed in the local list
     * and the totals follow. An index outside an edited order's list changes nothing.
     */
    method EditItemInOrder(i: int, quantity: int, reply: Option<Failure>, refetch: Reply<OrderPayload>)
      returns (cmds: seq<Command>)
      requires Valid()
      modifies this
      ensures Valid()
      ensures addProductOpen == old(addProductOpen) && navigatedAway == old(navigatedAway)
      ensures orderId.None? ==>
        && cmds == []
        && orderData == Retotalled(old(orderData).(items := SetQuantityAt(old(orderData.items), i, quantity)))
        && error == old(error)
      ensures orderId.Some? && !(0 <= i < old(|orderData.items|)) ==> cmds == [] && unchanged(this)
      ensures orderId.Some? && 0 <= i < old(|orderData.items|) ==>
        var c := UpdateItem(old(orderData.items[i].id.value), quantity);
        && (reply.None? ==> cmds == [c, GetOrder(orderId.value)] && Fetched() == AfterFetch(old(Fetched()), refetch))
        && (reply.Some? ==>
              && cmds == [c] && orderData == old(orderData) && isOrderCompleted == old(isOrderCompleted)
              && error == Some(MessageOr(reply.value, "Failed to update quantity.")))
    {
      cmds := [];
      match orderId {
        case Some(id) =>
          if !(0 <= i < |orderData.items|) {
            return;
          }
          var row := orderData.items[i];
          if row.id.Some? {
            if reply.None? {
              var fetch := Refetch(refetch);
              cmds := [UpdateItem(row.id.value, quantity)] + fetch;
            } else {
              cmds := [UpdateItem(row.id.value, quantity)];
              error := Some(MessageOr(reply.value, "Failed to update quantity."));
            }
          } else {
            // every row of an edited order was fetched and has a key
            assert false;
          }
        case None =>
          SetQuantityKeepsDraftRows(orderData.items, i, quantity);
          SetQuantityKeepsUnique(orderData.items, i, quantity);
          SetDraftItems(SetQuantityAt(orderData.items, i, quantity));
      }
    }
  }
}
