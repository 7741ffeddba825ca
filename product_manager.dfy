/** The catalogue editor: the add form, the inline edit of one product and
    the two-step delete of one product. At most one product is being edited
    or awaiting delete confirmation, never both. Prices arrive already
    parsed (`price`), as whole amounts. */
module ProductManager {
  import opened Types
  import opened Text
  import Numeric

  /** The SKU as stored: the input upper-cased, then trimmed. */
  function NormalSku(sku: string): (r: string)
    ensures |r| <= |sku|
    ensures forall i :: 0 <= i < |r| ==> NotSmall(r[i])
  {
    TrimKeepsAll(Upper(sku), NotSmall);
    Trim(Upper(sku))
  }

  predicate NotSmall(c: char) {
    !('a' <= c <= 'z')
  }

  /** A stored SKU is in upper case with no surrounding blanks, and
      normalising it again changes nothing, so saving an edit of an SKU that
      was not retyped keeps it. */
  lemma NormalSkuIsNormal(sku: string)
    ensures Trim(NormalSku(sku)) == NormalSku(sku) && Upper(NormalSku(sku)) == NormalSku(sku)
    ensures NormalSku(NormalSku(sku)) == NormalSku(sku)
  {
    TrimIdempotent(Upper(sku));
    UpperTrimCommute(Upper(sku));
    UpperIdempotent(sku);
    var n := NormalSku(sku);
    assert Upper(n) == n;
  }

  /** A stored SKU neither starts nor ends with white space. */
  lemma NormalSkuNoOuterSpace(sku: string)
    ensures NormalSku(sku) == [] || (!IsSpace(NormalSku(sku)[0]) && !IsSpace(NormalSku(sku)[|NormalSku(sku)| - 1]))
  {
    var u := Upper(sku);
    assert NormalSku(sku) == Trim(u);
    TrimSpec(u);
  }

  /** The product the add form submits, or `None` when the name, the price
      text or the SKU is empty (before trimming). A new product always
      starts with 50 in stock. */
  function NewProduct(name: string, sku: string, priceText: string, price: int, id: string): (r: Option<Product>)
    ensures r.None? <==> name == [] || priceText == [] || sku == []
    ensures r.Some? ==> r.value == Product(id, NormalSku(sku), Trim(name), price, Some(50))
  {
    if name == [] || priceText == [] || sku == [] then None
    else Some(Product(id, NormalSku(sku), Trim(name), price, Some(50)))
  }

  /** The product an edit saves, or `None` when a field is empty. It keeps
      the id and carries no stock figure. */
  function EditedProduct(id: string, name: string, sku: string, priceText: string, price: int): (r: Option<Product>)
    ensures r.None? <==> name == [] || priceText == [] || sku == []
    ensures r.Some? ==> r.value == Product(id, NormalSku(sku), Trim(name), price, None)
  {
    if name == [] || priceText == [] || sku == [] then None
    else Some(Product(id, NormalSku(sku), Trim(name), price, None))
  }

  /** Adding and editing accept the same inputs and normalise them the same
      way; they differ only in the stock figure. */
  lemma AddAndEditAgree(id: string, name: string, sku: string, priceText: string, price: int)
    ensures NewProduct(name, sku, priceText, price, id).Some? == EditedProduct(id, name, sku, priceText, price).Some?
    ensures NewProduct(name, sku, priceText, price, id).Some? ==>
      NewProduct(name, sku, priceText, price, id).value.(stock := None) == EditedProduct(id, name, sku, priceText, price).value
  {
  }

  class Editor {
    var name: string
    var sku: string
    var priceText: string
    var isAdding: bool
    var editingId: Option<string>
    var confirmDeleteId: Option<string>
    var editName: string
    var editSku: string
    var editPrice: string

    /** Never editing one product while confirming the delete of one. */
    predicate Valid()
      reads this
    {
      !(editingId.Some? && confirmDeleteId.Some?)
    }

    constructor ()
      ensures Valid()
      ensures name == [] && sku == [] && priceText == [] && !isAdding
      ensures editingId.None? && confirmDeleteId.None?
      ensures editName == [] && editSku == [] && editPrice == []
    {
      name, sku, priceText, isAdding := [], [], [], false;
      editingId, confirmDeleteId := None, None;
      editName, editSku, editPrice := [], [], [];
    }

    /** The add button opens or closes the add panel. */
    method ToggleAdding()
      modifies this`isAdding
      ensures isAdding == !old(isAdding)
    {
      isAdding := !isAdding;
    }

    /** Submitting the add form: the product to add, or `None` with nothing
      changed when a field is empty. On success the form is emptied and the
      panel closed. */
    method Submit(price: int, newId: string) returns (r: Option<Product>)
      requires Valid()
      modifies this`name, this`sku, this`priceText, this`isAdding
      ensures Valid()
      ensures r == NewProduct(old(name), old(sku), old(priceText), price, newId)
      ensures r.None? ==> name == old(name) && sku == old(sku) && priceText == old(priceText) && isAdding == old(isAdding)
      ensures r.Some? ==> name == [] && sku == [] && priceText == [] && !isAdding
    {
      r := NewProduct(name, sku, priceText, price, newId);
      if r.Some? {
        ClearAddForm();
      }
    }

    /** Empties the add form and closes its panel. */
    method ClearAddForm()
      requires Valid()
      modifies this`name, this`sku, this`priceText, this`isAdding
      ensures Valid()
      ensures name == [] && sku == [] && priceText == [] && !isAdding
    {
      name, sku, priceText, isAdding := [], [], [], false;
    }

    /** Opening the edit of `p`: its fields are copied into the edit inputs
      and any pending delete confirmation is dropped. */
    method StartEditing(p: Product)
      modifies this`editingId, this`editName, this`editSku, this`editPrice, this`confirmDeleteId
      ensures Valid()
      ensures editingId == Some(p.id) && confirmDeleteId.None?
      ensures editName == p.name && editSku == p.sku && editPrice == Numeric.IntToString(p.price)
    {
      editingId := Some(p.id);
      editName, editSku, editPrice := p.name, p.sku, Numeric.IntToString(p.price);
      confirmDeleteId := None;
    }

    method CancelEditing()
      requires Valid()
      modifies this`editingId
      ensures Valid() && editingId.None?
    {
      editingId := None;
    }

    /** Saving the edit of product `id`: the replacement, after which the edit
      closes, or `None` with the edit left open when a field is empty. */
    method SaveEdit(id: string, price: int) returns (r: Option<Product>)
      requires Valid()
      modifies this`editingId
      ensures Valid()
      ensures r == EditedProduct(id, editName, editSku, editPrice, price)
      ensures r.Some? ==> editingId.None?
      ensures r.None? ==> editingId == old(editingId)
    {
      r := EditedProduct(id, editName, editSku, editPrice, price);
      if r.Some? {
        editingId := None;
      }
    }

    /** The first delete click asks for confirmation and closes any edit. */
    method TriggerDelete(id: string)
      modifies this`confirmDeleteId, this`editingId
      ensures Valid()
      ensures confirmDeleteId == Some(id) && editingId.None?
    {
      confirmDeleteId := Some(id);
      editingId := None;
    }

    /** The confirming click: the id to delete, and the confirmation closes. */
    method FinalDelete(id: string) returns (deleted: string)
      requires Valid()
      modifies this`confirmDeleteId
      ensures Valid()
      ensures deleted == id && confirmDeleteId.None?
    {
      deleted := id;
      confirmDeleteId := None;
    }

    method CancelDelete()
      requires Valid()
      modifies this`confirmDeleteId
      ensures Valid() && confirmDeleteId.None?
    {
      confirmDeleteId := None;
    }
  }
}
