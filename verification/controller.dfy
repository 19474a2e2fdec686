/** The catalog controller as a state machine: the module-level edit
    session, the form, the rendered list and count, the loading flag and the
    error banner, beside an abstract remote collection. Each network call is
    replaced by a parameter saying how it ended, and the confirmation prompt
    by a parameter saying whether the user agreed. */
module CatalogController {
  import opened Wrappers
  import opened Decimal
  import opened Catalog

  /** What the controller writes into the form: the edit session, the two
      input values, the submit button's text and whether cancel is shown. */
  datatype FormState = FormState(
    editingId: Option<int>, name: string, price: string,
    submitLabel: string, cancelVisible: bool)

  /** What the list area shows: its children and the count text. */
  datatype ViewState = ViewState(items: seq<ListItem>, countText: string)

  /** Create mode: no edit session, empty inputs, "Add Product", no cancel. */
  const CreateMode := FormState(None, "", "", "Add Product", false)

  /** Edit mode for one product. */
  function EditMode(id: int, name: string, price: string): FormState {
    FormState(Some(id), name, price, "Update Product", true)
  }

  /** The list area after a successful load of `store`. */
  function Loaded(store: seq<Product>): ViewState {
    ViewState(Rendered(store), CountLabel(|store|))
  }

  /** JavaScript truthiness of the edit session: `null` and `0` are false. */
  predicate Truthy(editingId: Option<int>): (t: bool)
    ensures editingId == None ==> !t
    ensures editingId == Some(0) ==> !t
    ensures editingId.Some? && editingId.value != 0 ==> t
  {
    editingId.Some? && editingId.value != 0
  }

  const CreateThrown := "Error creating product"
  const LoadThrown := "Error loading products"
  const UpdateThrown := "Error updating product"
  const DeleteThrown := "Error deleting product"

  class Controller {
    /** The remote collection, the single source of truth. */
    var store: seq<Product>
    /** Every request issued to the collection endpoint, oldest first. */
    var sent: seq<Request>
    /** `editingProductId`: None is `null` (create mode). */
    var editingId: Option<int>
    var nameField: string
    var priceField: string
    var submitLabel: string
    var cancelVisible: bool
    /** The children of the product list element. */
    var listItems: seq<ListItem>
    var countText: string
    var loading: bool
    /** The banner text; None before any error was shown. */
    var error: Option<string>

    ghost predicate Valid()
      reads this
    {
      NumericIds(store)
    }

    ghost function Form(): FormState
      reads this
    {
      FormState(editingId, nameField, priceField, submitLabel, cancelVisible)
    }

    ghost function View(): ViewState
      reads this
    {
      ViewState(listItems, countText)
    }

    /** The page as loaded, before the first list load, over a collection
        whose ids are all numeric. */
    constructor (initial: seq<Product>)
      requires NumericIds(initial)
      ensures Valid() && store == initial && sent == []
      ensures Form() == CreateMode && View() == ViewState([], "")
      ensures !loading && error == None
    {
      store := initial;
      sent := [];
      editingId := None;
      nameField, priceField := "", "";
      submitLabel := "Add Product";
      cancelVisible := false;
      listItems := [];
      countText := "";
      loading := false;
      error := None;
    }

    /** `displayProducts`: clears the list and appends one card per product,
        or the placeholder when there is none. */
    method DisplayProducts(products: seq<Product>)
      modifies this`listItems
      ensures listItems == Rendered(products)
    {
      listItems := [];
      if |products| == 0 {
        listItems := [Placeholder];
        return;
      }
      for i := 0 to |products|
        invariant listItems == Cards(products[..i])
      {
        assert products[..i + 1][..i] == products[..i];
        listItems := listItems + [Card(products[i])];
      }
      assert products[..|products|] == products;
    }

    /** `updateProductCount`. */
    method UpdateProductCount(count: nat)
      modifies this`countText
      ensures countText == CountLabel(count)
    {
      countText := CountLabel(count);
    }

    /** `loadProducts`: reads the collection; on success the list and count
        are rebuilt from it, on failure they stay and the banner shows why.
        Loading ends off either way; the edit session is not touched. */
    method LoadProducts(get: Outcome)
      modifies this
      ensures store == old(store) && Form() == old(Form())
      ensures sent == old(sent) + [Get]
      ensures !loading
      ensures get.Ok? ==> View() == Loaded(store) && error == old(error)
      ensures !get.Ok? ==>
        View() == old(View()) && error == Some(ErrorText(LoadPrefix, LoadThrown, get))
    {
      loading := true;
      sent := sent + [Get];
      if get.Ok? {
        DisplayProducts(store);
        UpdateProductCount(|store|);
      } else {
        error := Some(ErrorText(LoadPrefix, LoadThrown, get));
      }
      loading := false;
    }

    /** `createProduct`: assigns an id from a read of the collection (or the
        clock value `now` when that read fails) and posts the record; the
        result says whether it was stored (the source rethrows otherwise). */
    method CreateProduct(data: ProductData, readOk: bool, now: int, post: Outcome)
      returns (ok: bool)
      requires Valid()
      modifies this
      ensures Valid()
      ensures ok == post.Ok?
      ensures var record := NewRecord(data, GenerateNewId(old(store), readOk, now));
        && sent == old(sent) + [Get, Post(record)]
        && store == if ok then old(store) + [record] else old(store)
      ensures error == if ok then old(error) else Some(ErrorText(CreatePrefix, CreateThrown, post))
      ensures Form() == old(Form()) && View() == old(View()) && loading == old(loading)
    {
      var newId := GenerateNewId(store, readOk, now);
      var record := NewRecord(data, newId);
      sent := sent + [Get, Post(record)];
      ok := post.Ok?;
      if ok {
        store := store + [record];
      } else {
        error := Some(ErrorText(CreatePrefix, CreateThrown, post));
      }
    }

    /** `updateProduct`: a `PUT` addressed to the text of `id`. */
    method UpdateProduct(id: int, data: ProductData, put: Outcome) returns (ok: bool)
      requires Valid()
      modifies this
      ensures Valid()
      ensures ok == put.Ok?
      ensures sent == old(sent) + [Put(IntText(id), data)]
      ensures store == if ok then Updated(old(store), IntText(id), data) else old(store)
      ensures error == if ok then old(error) else Some(ErrorText(UpdatePrefix, UpdateThrown, put))
      ensures Form() == old(Form()) && View() == old(View()) && loading == old(loading)
    {
      sent := sent + [Put(IntText(id), data)];
      ok := put.Ok?;
      if ok {
        UpdatedKeepsIds(store, IntText(id), data);
        store := Updated(store, IntText(id), data);
      } else {
        error := Some(ErrorText(UpdatePrefix, UpdateThrown, put));
      }
    }

    /** `deleteProduct`: nothing happens unless the user confirms; a
        successful delete is followed by a reload (`reload` says how that
        ends). The edit session is never touched. */
    method DeleteProduct(id: int, confirmed: bool, del: Outcome, reload: Outcome)
      requires Valid()
      modifies this
      ensures Valid()
      ensures !confirmed ==> unchanged(this)
      ensures Form() == old(Form())
      ensures confirmed && del.Ok? ==>
        && store == Removed(old(store), IntText(id))
        && sent == old(sent) + [Delete(IntText(id)), Get]
        && !loading
        && (reload.Ok? ==> View() == Loaded(store) && error == old(error))
        && (!reload.Ok? ==>
              View() == old(View()) && error == Some(ErrorText(LoadPrefix, LoadThrown, reload)))
      ensures confirmed && !del.Ok? ==>
        && store == old(store)
        && sent == old(sent) + [Delete(IntText(id))]
        && View() == old(View()) && loading == old(loading)
        && error == Some(ErrorText(DeletePrefix, DeleteThrown, del))
    {
      if !confirmed {
        return;
      }
      sent := sent + [Delete(IntText(id))];
      if del.Ok? {
        RemovedKeepsNumericIds(store, IntText(id));
        store := Removed(store, IntText(id));
        LoadProducts(reload);
      } else {
        error := Some(ErrorText(DeletePrefix, DeleteThrown, del));
      }
    }

    /** `handleFormSubmit` with the values the form holds (`name`, and the
        parsed `price`): an update of the session's id when the session is
        truthy, a create otherwise. On success the form returns to create
        mode and the list is reloaded; on failure the error is swallowed and
        the form and list stay as they were. */
    method HandleFormSubmit(name: string, price: string, readOk: bool, now: int,
                            write: Outcome, reload: Outcome)
      requires Valid()
      modifies this
      ensures Valid()
      ensures Truthy(old(editingId)) ==>
        var target := IntText(old(editingId).value);
        && store == (if write.Ok? then Updated(old(store), target, ProductData(name, price)) else old(store))
        && sent == old(sent) + [Put(target, ProductData(name, price))] + (if write.Ok? then [Get] else [])
      ensures !Truthy(old(editingId)) ==>
        var record := NewRecord(ProductData(name, price), GenerateNewId(old(store), readOk, now));
        && store == (if write.Ok? then old(store) + [record] else old(store))
        && sent == old(sent) + [Get, Post(record)] + (if write.Ok? then [Get] else [])
      ensures write.Ok? ==>
        && Form() == CreateMode
        && !loading
        && (reload.Ok? ==> View() == Loaded(store) && error == old(error))
        && (!reload.Ok? ==>
              View() == old(View()) && error == Some(ErrorText(LoadPrefix, LoadThrown, reload)))
      ensures !write.Ok? ==>
        && Form() == old(Form()) && View() == old(View()) && loading == old(loading)
        && error == Some(
             if Truthy(old(editingId)) then ErrorText(UpdatePrefix, UpdateThrown, write)
             else ErrorText(CreatePrefix, CreateThrown, write))
    {
      var data := ProductData(name, price);
      var ok;
      if Truthy(editingId) {
        ok := UpdateProduct(editingId.value, data, write);
      } else {
        ok := CreateProduct(data, readOk, now, write);
      }
      if ok {
        ResetForm();
        LoadProducts(reload);
      }
    }

    /** `editProduct`: enters edit mode for one product and fills the form
        with its values. */
    method EditProduct(id: int, name: string, price: string)
      modifies this
      ensures Form() == EditMode(id, name, price)
      ensures store == old(store) && sent == old(sent) && View() == old(View())
      ensures loading == old(loading) && error == old(error)
    {
      editingId := Some(id);
      nameField := name;
      priceField := price;
      submitLabel := "Update Product";
      cancelVisible := true;
    }

    /** `cancelEdit`. */
    method CancelEdit()
      modifies this
      ensures Form() == CreateMode
      ensures store == old(store) && sent == old(sent) && View() == old(View())
      ensures loading == old(loading) && error == old(error)
    {
      ResetForm();
    }

    /** `resetForm`: back to create mode with an empty form. */
    method ResetForm()
      modifies this
      ensures Form() == CreateMode
      ensures store == old(store) && sent == old(sent) && View() == old(View())
      ensures loading == old(loading) && error == old(error)
    {
      editingId := None;
      nameField, priceField := "", "";
      submitLabel := "Add Product";
      cancelVisible := false;
    }
  }

  // ---------------- the controller's behaviour on whole user actions ----------------

  /** Edit followed by cancel is back in create mode, with no request sent
      and the collection and list untouched. */
  method EditThenCancel(c: Controller, id: int, name: string, price: string)
    requires c.Valid()
    modifies c
    ensures c.Valid() && c.Form() == CreateMode
    ensures c.store == old(c.store) && c.sent == old(c.sent) && c.View() == old(c.View())
  {
    c.EditProduct(id, name, price);
    c.CancelEdit();
  }

  /** Editing a product and submitting successfully writes to that product's
      id only: same number of records, every other record unchanged, and the
      form back in create mode. */
  method EditThenSubmit(c: Controller, p: Product, n: int, name: string, price: string)
    requires c.Valid() && p in c.store && n != 0 && p.id == IntText(n)
    modifies c
    ensures |c.store| == |old(c.store)|
    ensures forall i :: 0 <= i < |c.store| ==>
      c.store[i] == if old(c.store)[i].id == p.id then Product(p.id, name, price) else old(c.store)[i]
    ensures c.sent == old(c.sent) + [Put(p.id, ProductData(name, price)), Get]
    ensures c.Form() == CreateMode && c.View() == Loaded(c.store)
  {
    c.EditProduct(n, p.name, p.price);
    c.HandleFormSubmit(name, price, true, 0, Ok, Ok);
  }

  /** The edit session 0 is falsy, so submitting while editing id 0 creates a
      new record instead of updating record 0: the requests are a read, a
      POST and a reload, with no PUT among them. */
  method SubmitWhileEditingZeroCreates(c: Controller, name: string, price: string, now: int)
    requires c.Valid() && c.editingId == Some(0)
    modifies c
    ensures var record := NewRecord(ProductData(name, price), GenerateNewId(old(c.store), true, now));
      && c.store == old(c.store) + [record]
      && c.sent == old(c.sent) + [Get, Post(record)] + [Get]
  {
    c.HandleFormSubmit(name, price, true, now, Ok, Ok);
  }

  /** Adding "Pen" at 1.5 to an empty collection stores exactly one record
      with id "1", and the count then reads "Total: 1 product". */
  method CreatePenInEmptyCatalog(now: int) returns (c: Controller)
    ensures c.store == [Product("1", "Pen", "1.5")]
    ensures c.countText == "Total: 1 product"
    ensures c.View().items == [Card(Product("1", "Pen", "1.5"))]
  {
    c := new Controller([]);
    c.HandleFormSubmit("Pen", "1.5", true, now, Ok, Ok);
    assert DigitChar(1) == '1';
  }

  /** Declining the prompt leaves everything as it was. */
  method DeclinedDelete(c: Controller, id: int, del: Outcome, reload: Outcome)
    requires c.Valid()
    modifies c
    ensures c.store == old(c.store) && c.sent == old(c.sent)
    ensures c.View() == old(c.View()) && c.Form() == old(c.Form()) && c.error == old(c.error)
  {
    c.DeleteProduct(id, false, del, reload);
  }
}
