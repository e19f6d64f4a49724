/**
 * The dialog that picks a product and a quantity to add to an order. The selection is the
 * product's key as text ("" when nothing is chosen); the quantity field holds a positive whole
 * number or is blank.
 */
module AddProductDialog {
  import opened Common
  import Decimal
  import opened OrderLines

  /** The quantity state: a number, or '' after the field was cleared. */
  datatype QuantityField = Amount(n: int) | Blank

  /** The first product whose key, as text, is `selected`. */
  function Lookup(products: seq<Product>, selected: string): (r: Option<Product>)
    ensures r.Some? ==> r.value in products && Decimal.NatToString(r.value.id) == selected
    ensures r.Some? ==> exists k ::
      && 0 <= k < |products| && products[k] == r.value
      && forall j :: 0 <= j < k ==> Decimal.NatToString(products[j].id) != selected
    ensures r.None? ==> forall i :: 0 <= i < |products| ==> Decimal.NatToString(products[i].id) != selected
  {
    if products == [] then None
    else if Decimal.NatToString(products[0].id) == selected then Some(products[0])
    else
      var r := Lookup(products[1..], selected);
      if r.Some? then
        var k :| 0 <= k < |products[1..]| && products[1..][k] == r.value
          && forall j :: 0 <= j < k ==> Decimal.NatToString(products[1..][j].id) != selected;
        assert products[k + 1] == r.value;
        r
      else r
  }

  /** The selected product's details: none when nothing is selected, else the lookup. */
  function Resolve(products: seq<Product>, selected: string): Option<Product> {
    if selected == "" then None else Lookup(products, selected)
  }

  /** Choosing product k in the list resolves to a product with k's key. */
  lemma ResolveChosen(products: seq<Product>, k: nat)
    requires k < |products|
    ensures var r := Resolve(products, Decimal.NatToString(products[k].id));
      r.Some? && r.value.id == products[k].id
  {
    var r := Resolve(products, Decimal.NatToString(products[k].id));
    assert Decimal.NatToString(products[k].id) != "";
    Decimal.NatToStringInjective(r.value.id, products[k].id);
  }

  /**
   * Typing in the quantity field: a text whose integer value is positive is stored, the empty
   * text blanks the field, and anything else leaves it as it was.
   */
  function QuantityAfter(current: QuantityField, text: string): (q: QuantityField)
    ensures Decimal.ParseInt(text).Some? && Decimal.ParseInt(text).value > 0 ==> q == Amount(Decimal.ParseInt(text).value)
    ensures text == "" ==> q == Blank
    ensures q != current ==> q == Blank || (q.Amount? && q.n > 0)
  {
    var v := Decimal.ParseInt(text);
    if v.Some? && v.value > 0 then Amount(v.value)
    else if text == "" then Blank
    else current
  }

  /** The call `Add` makes: the resolved product and a positive quantity, or nothing. */
  function AddCall(details: Option<Product>, quantity: QuantityField): (r: Option<(Product, int)>)
    ensures r.Some? <==> details.Some? && quantity.Amount? && quantity.n > 0
    ensures r.Some? ==> r.value == (details.value, quantity.n)
  {
    if details.Some? && quantity.Amount? && quantity.n > 0 then Some((details.value, quantity.n)) else None
  }

  /** The Add button is disabled with no selection or with a blank or non-positive quantity. */
  function AddDisabled(selected: string, quantity: QuantityField): bool {
    selected == "" || quantity.Blank? || quantity.n <= 0
  }

  /**
   * With the details resolved from the selection, an enabled Add button makes the call exactly
   * when the selected key names a product of the list; a disabled one never does.
   */
  lemma AddEnabledMeansCall(products: seq<Product>, selected: string, quantity: QuantityField)
    ensures AddDisabled(selected, quantity) ==> AddCall(Resolve(products, selected), quantity).None?
    ensures !AddDisabled(selected, quantity) ==>
      (AddCall(Resolve(products, selected), quantity).Some? <==> exists i :: 0 <= i < |products| && Decimal.NatToString(products[i].id) == selected)
  {
    if !AddDisabled(selected, quantity) && Lookup(products, selected).Some? {
      var p := Lookup(products, selected).value;
      var i :| 0 <= i < |products| && products[i] == p;
      assert Decimal.NatToString(products[i].id) == selected;
    }
  }

  class AddProductToOrderModal {
    var open: bool
    var products: seq<Product>
    var selectedProductId: string
    var quantity: QuantityField
    var selectedProductDetails: Option<Product>

    /** The details always follow the selection, and a stored quantity is positive. */
    ghost predicate Valid()
      reads this
    {
      && selectedProductDetails == Resolve(products, selectedProductId)
      && (quantity.Amount? ==> quantity.n > 0)
    }

    constructor (products: seq<Product>)
      ensures Valid()
      ensures !open && this.products == products && selectedProductId == ""
      ensures quantity == Amount(1) && selectedProductDetails.None?
    {
      open := false;
      this.products := products;
      selectedProductId := "";
      quantity := Amount(1);
      selectedProductDetails := None;
    }

    /** The owner shows or hides the dialog; showing it clears the selection and sets quantity 1. */
    method SetOpen(o: bool)
      requires Valid()
      modifies this
      ensures Valid()
      ensures open == o && products == old(products)
      ensures o ==> selectedProductId == "" && quantity == Amount(1) && selectedProductDetails.None?
      ensures !o ==>
        && selectedProductId == old(selectedProductId) && quantity == old(quantity)
        && selectedProductDetails == old(selectedProductDetails)
    {
      open := o;
      if o {
        selectedProductId := "";
        quantity := Amount(1);
        selectedProductDetails := None;
      }
    }

    /** The owner passes a new product list; an open dialog is reset, and the details follow. */
    method SetProducts(ps: seq<Product>)
      requires Valid()
      modifies this
      ensures Valid()
      ensures products == ps && open == old(open)
      ensures open ==> selectedProductId == "" && quantity == Amount(1)
      ensures !open ==> selectedProductId == old(selectedProductId) && quantity == old(quantity)
    {
      products := ps;
      if open {
        selectedProductId := "";
        quantity := Amount(1);
      }
      selectedProductDetails := Resolve(products, selectedProductId);
    }

    /** A product is picked in the select (or "" for none); the details follow. */
    method SelectProduct(selected: string)
      requires Valid()
      modifies this
      ensures Valid()
      ensures selectedProductId == selected && selectedProductDetails == Resolve(products, selected)
      ensures open == old(open) && products == old(products) && quantity == old(quantity)
    {
      selectedProductId := selected;
      selectedProductDetails := Resolve(products, selected);
    }

    /** Text typed in the quantity field. */
    method QuantityChange(text: string)
      requires Valid()
      modifies this
      ensures Valid()
      ensures quantity == QuantityAfter(old(quantity), text)
      ensures open == old(open) && products == old(products)
      ensures selectedProductId == old(selectedProductId) && selectedProductDetails == old(selectedProductDetails)
    {
      var value := Decimal.ParseInt(text);
      if value.Some? && value.value > 0 {
        quantity := Amount(value.value);
      } else if text == "" {
        quantity := Blank;
      }
    }

    /** The Add button: hands the resolved product and the quantity to the owner, if both are usable. */
    method Add() returns (call: Option<(Product, int)>)
      ensures call == AddCall(selectedProductDetails, quantity)
    {
      call := None;
      if selectedProductDetails.Some? && quantity.Amount? && quantity.n > 0 {
        call := Some((selectedProductDetails.value, quantity.n));
      }
    }

    function AddButtonDisabled(): bool
      reads this
    {
      AddDisabled(selectedProductId, quantity)
    }
  }
}
