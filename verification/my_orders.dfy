/**
 * The list of orders: each order's status is shown as a coloured chip when the order is
 * completed and as a status selector otherwise; completed orders cannot be edited but can be
 * deleted, after a confirmation.
 */
module MyOrders {
  import opened Common
  import opened OrderStore
  import Models

  /** An order as the list shows it. */
  datatype OrderSummary = OrderSummary(
    id: Id,
    orderNumber: string,
    status: string,
    statusDisplay: string,
    totalProductsCount: int,
    totalFinalPrice: string)

  datatype ChipColor = Warning | Info | Success | Default

  /**
   * The colour of a status: each of the three stored status values has its own colour, and any
   * other text gets the default one.
   */
  function StatusChipColor(status: string): (c: ChipColor)
    ensures c == Default <==> Models.ParseStatus(status).None?
    ensures status == Models.StatusValue(Models.Completed) <==> c == Success
    ensures Models.ParseStatus(status) == Some(Models.Pending) <==> c == Warning
    ensures Models.ParseStatus(status) == Some(Models.InProgress) <==> c == Info
  {
    match status
    case "Pending" => Warning
    case "InProgress" => Info
    case "Completed" => Success
    case _ => Default
  }

  /** Different status choices are shown in different colours. */
  lemma StatusColorsDistinct(s: Models.Status, t: Models.Status)
    ensures StatusChipColor(Models.StatusValue(s)) == StatusChipColor(Models.StatusValue(t)) <==> s == t
  {
  }

  /** The status cell: a read-only chip, or a selector offering the three status values. */
  datatype StatusCell = Chip(caption: string, color: ChipColor) | Selector(value: string, options: seq<string>)

  function StatusCellFor(o: OrderSummary): (cell: StatusCell)
    ensures cell.Chip? <==> o.status == "Completed"
    ensures cell.Chip? ==> cell == Chip(o.statusDisplay, Success)
    ensures cell.Selector? ==>
      && cell.value == o.status
      && |cell.options| == |Models.StatusChoices|
      && forall i :: 0 <= i < |cell.options| ==> Models.ParseStatus(cell.options[i]) == Some(Models.StatusChoices[i])
  {
    if o.status == "Completed" then Chip(o.statusDisplay, StatusChipColor(o.status))
    else Selector(o.status, ["Pending", "InProgress", "Completed"])
  }

  /** The edit button is disabled exactly for a completed order, the one whose status is a chip. */
  function EditDisabled(o: OrderSummary): (r: bool)
    ensures r <==> StatusCellFor(o).Chip?
  {
    o.status == "Completed"
  }

  /** The delete button does not depend on the status: it is never disabled. */
  function DeleteDisabled(o: OrderSummary): (r: bool)
    ensures !r
  {
    false
  }

  class MyOrdersView {
    var orders: seq<OrderSummary>
    var error: Option<string>
    var openDeleteModal: bool
    var orderToDelete: Option<OrderSummary>

    constructor ()
      ensures orders == [] && error.None? && !openDeleteModal && orderToDelete.None?
    {
      orders := [];
      error := None;
      openDeleteModal := false;
      orderToDelete := None;
    }

    /** Loads the list: one call, whose reply replaces the list or sets the error. */
    method FetchOrders(reply: Reply<seq<OrderSummary>>) returns (cmds: seq<Command>)
      modifies this
      ensures cmds == [ListOrders]
      ensures reply.Ok? ==> orders == reply.value && error.None?
      ensures reply.Failed? ==> orders == old(orders) && error == Some(MessageOr(reply.failure, "Failed to fetch orders."))
      ensures openDeleteModal == old(openDeleteModal) && orderToDelete == old(orderToDelete)
    {
      cmds := [ListOrders];
      error := None;
      match reply {
        case Ok(list) => orders := list;
        case Failed(f) => error := Some(MessageOr(f, "Failed to fetch orders."));
      }
    }

    /** Asks to confirm the deletion of order o. */
    method DeleteClick(o: OrderSummary)
      modifies this
      ensures orderToDelete == Some(o) && openDeleteModal
      ensures orders == old(orders) && error == old(error)
    {
      orderToDelete := Some(o);
      openDeleteModal := true;
    }

    method CloseDeleteModal()
      modifies this
      ensures !openDeleteModal && orderToDelete.None?
      ensures orders == old(orders) && error == old(error)
    {
      openDeleteModal := false;
      orderToDelete := None;
    }

    /**
     * Confirms the deletion. With no pending order nothing happens. Otherwise the order is
     * deleted; on success the dialog closes, nothing stays pending and the list is refetched;
     * on failure the dialog closes, the error is set and the order stays pending.
     */
    method ConfirmDelete(reply: Option<Failure>, listReply: Reply<seq<OrderSummary>>) returns (cmds: seq<Command>)
      modifies this
      ensures old(orderToDelete).None? ==> cmds == [] && unchanged(this)
      ensures old(orderToDelete).Some? && reply.None? ==>
        && cmds == [DeleteOrder(old(orderToDelete).value.id), ListOrders]
        && !openDeleteModal && orderToDelete.None?
        && (listReply.Ok? ==> orders == listReply.value && error.None?)
        && (listReply.Failed? ==> orders == old(orders) && error == Some(MessageOr(listReply.failure, "Failed to fetch orders.")))
      ensures old(orderToDelete).Some? && reply.Some? ==>
        && cmds == [DeleteOrder(old(orderToDelete).value.id)]
        && !openDeleteModal && orderToDelete == old(orderToDelete)
        && orders == old(orders) && error == Some(MessageOr(reply.value, "Failed to delete order."))
    {
      if orderToDelete.None? {
        return [];
      }
      var doomed := orderToDelete.value;
      if reply.None? {
        openDeleteModal := false;
        orderToDelete := None;
        var fetch := FetchOrders(listReply);
        cmds := [DeleteOrder(doomed.id)] + fetch;
      } else {
        cmds := [DeleteOrder(doomed.id)];
        error := Some(MessageOr(reply.value, "Failed to delete order."));
        openDeleteModal := false;
      }
    }

    /** Changes an order's status from its selector; the list is refetched whether or not the change succeeded. */
    method StatusChange(orderId: Id, newStatus: string, listReply: Reply<seq<OrderSummary>>)
      returns (cmds: seq<Command>)
      modifies this
      ensures cmds == [PatchOrderStatus(orderId, newStatus), ListOrders]
      ensures listReply.Ok? ==> orders == listReply.value && error.None?
      ensures listReply.Failed? ==> orders == old(orders) && error == Some(MessageOr(listReply.failure, "Failed to fetch orders."))
      ensures openDeleteModal == old(openDeleteModal) && orderToDelete == old(orderToDelete)
    {
      var fetch := FetchOrders(listReply);
      cmds := [PatchOrderStatus(orderId, newStatus)] + fetch;
    }
  }
}
