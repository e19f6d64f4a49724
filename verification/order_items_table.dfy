/**
 * The items table of the order editor: one row at a time can be put in quantity-edit mode, and
 * removing a row goes through a confirmation dialog. The table reports a valid new quantity or
 * a confirmed removal to its owner as a `TableEvent`.
 */
module OrderItemsTable {
  import opened Common
  import Decimal

  /** A call the table makes to its owner: `onEditItemQuantity` or `onRemoveItem`. */
  datatype TableEvent = EditQuantity(index: nat, quantity: int) | RemoveItem(index: nat)

  /**
   * Saving the typed quantity of row `index`: the owner is told only when the text parses as
   * an integer greater than 0.
   */
  function SaveDecision(text: string, index: nat): (e: Option<TableEvent>)
    ensures e.Some? <==> Decimal.ParseInt(text).Some? && Decimal.ParseInt(text).value > 0
    ensures e.Some? ==> e.value == EditQuantity(index, Decimal.ParseInt(text).value)
  {
    var n := Decimal.ParseInt(text);
    if n.Some? && n.value > 0 then Some(EditQuantity(index, n.value)) else None
  }

  /**
   * Saving right after the edit click, with the text untouched, reports the row's own quantity
   * when it is positive and nothing otherwise.
   */
  lemma SaveUntouchedQuantity(quantity: int, index: nat)
    ensures SaveDecision(Decimal.IntToString(quantity), index) == if quantity > 0 then Some(EditQuantity(index, quantity)) else None
  {
    Decimal.ParseIntOfIntToString(quantity);
  }

  /** Text without a digit never reaches the owner. */
  lemma SaveWithoutDigits(text: string, index: nat)
    requires forall i :: 0 <= i < |text| ==> !Decimal.IsDigit(text[i])
    ensures SaveDecision(text, index).None?
  {
    Decimal.ParseIntWithoutDigits(text);
  }

  /** What one row shows, given the table state and the owner's `disabled` flag. */
  datatype RowControls = RowControls(
    showsQuantityEditor: bool,
    showsSaveCancel: bool,
    editDisabled: bool,
    deleteDisabled: bool)

  /**
   * A row's controls: the quantity editor only on the row in edit mode and only while the table
   * is enabled; save and cancel on the row in edit mode; edit and delete disabled with the table.
   */
  function RowControlsFor(editRow: Option<nat>, index: nat, disabled: bool): (c: RowControls)
    ensures c.showsQuantityEditor <==> editRow == Some(index) && !disabled
    ensures c.showsSaveCancel <==> editRow == Some(index)
    ensures disabled ==> !c.showsQuantityEditor && c.editDisabled && c.deleteDisabled
    ensures !disabled ==> !c.editDisabled && !c.deleteDisabled
  {
    RowControls(editRow == Some(index) && !disabled, editRow == Some(index), disabled, disabled)
  }

  class ItemsTable {
    var editModeRowIndex: Option<nat>
    var editableQuantity: string
    var openDeleteItemModal: bool
    var itemIndexToDelete: Option<nat>

    constructor ()
      ensures editModeRowIndex.None? && editableQuantity == ""
      ensures !openDeleteItemModal && itemIndexToDelete.None?
    {
      editModeRowIndex := None;
      editableQuantity := "";
      openDeleteItemModal := false;
      itemIndexToDelete := None;
    }

    function Controls(index: nat, disabled: bool): RowControls
      reads this
    {
      RowControlsFor(editModeRowIndex, index, disabled)
    }

    /** Puts row `index` in edit mode with its quantity as the editable text. */
    method EditClick(quantity: int, index: nat)
      modifies this
      ensures editModeRowIndex == Some(index) && editableQuantity == Decimal.IntToString(quantity)
      ensures openDeleteItemModal == old(openDeleteItemModal) && itemIndexToDelete == old(itemIndexToDelete)
    {
      editModeRowIndex := Some(index);
      editableQuantity := Decimal.IntToString(quantity);
    }

    /** The user types in the quantity field. */
    method QuantityTyped(text: string)
      modifies this
      ensures editableQuantity == text && editModeRowIndex == old(editModeRowIndex)
      ensures openDeleteItemModal == old(openDeleteItemModal) && itemIndexToDelete == old(itemIndexToDelete)
    {
      editableQuantity := text;
    }

    /**
     * Saves row `index`: reports the typed quantity when it is a positive integer, and leaves
     * edit mode whether or not it did.
     */
    method SaveClick(index: nat) returns (call: Option<TableEvent>)
      modifies this
      ensures call == SaveDecision(old(editableQuantity), index)
      ensures editModeRowIndex.None? && editableQuantity == ""
      ensures openDeleteItemModal == old(openDeleteItemModal) && itemIndexToDelete == old(itemIndexToDelete)
    {
      var n := Decimal.ParseInt(editableQuantity);
      call := None;
      if n.Some? && n.value > 0 {
        call := Some(EditQuantity(index, n.value));
      }
      editModeRowIndex := None;
      editableQuantity := "";
    }

    /** Leaves edit mode without telling the owner anything. */
    method CancelClick()
      modifies this
      ensures editModeRowIndex.None? && editableQuantity == ""
      ensures openDeleteItemModal == old(openDeleteItemModal) && itemIndexToDelete == old(itemIndexToDelete)
    {
      editModeRowIndex := None;
      editableQuantity := "";
    }

    /** Asks to confirm the removal of row `index`. */
    method DeleteItemClick(index: nat)
      modifies this
      ensures openDeleteItemModal && itemIndexToDelete == Some(index)
      ensures editModeRowIndex == old(editModeRowIndex) && editableQuantity == old(editableQuantity)
    {
      itemIndexToDelete := Some(index);
      openDeleteItemModal := true;
    }

    method CloseDeleteItemModal()
      modifies this
      ensures !openDeleteItemModal && itemIndexToDelete.None?
      ensures editModeRowIndex == old(editModeRowIndex) && editableQuantity == old(editableQuantity)
    {
      openDeleteItemModal := false;
      itemIndexToDelete := None;
    }

    /**
     * Confirms the removal: the owner is told to remove the pending row, if one is pending, and
     * the dialog is closed with no row pending either way.
     */
    method ConfirmDeleteItem() returns (call: Option<TableEvent>)
      modifies this
      ensures call == if old(itemIndexToDelete).Some? then Some(RemoveItem(old(itemIndexToDelete).value)) else None
      ensures !openDeleteItemModal && itemIndexToDelete.None?
      ensures editModeRowIndex == old(editModeRowIndex) && editableQuantity == old(editableQuantity)
    {
      call := None;
      if itemIndexToDelete.Some? {
        call := Some(RemoveItem(itemIndexToDelete.value));
      }
      CloseDeleteItemModal();
    }
  }
}
