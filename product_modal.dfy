/** The add/edit product dialog (src/components/ProductModal.jsx): its nine
    field checks, and the `ADD_PRODUCT` or `UPDATE_PRODUCT` action it
    dispatches when they all pass. */
module ProductModal {
  import opened Collections
  import opened Text
  import opened Inventory

  // ---------------------------------------------------------------------
  // The error keys and messages of `validateForm`

  /** The form fields, which are also the keys of the error object. */
  datatype Field = Name | Sku | Category | Quantity | MinStock | MaxStock | Price | Supplier | Location

  const NameMessage: string := "Product name is required"
  const SkuMessage: string := "SKU is required"
  const CategoryMessage: string := "Category is required"
  const QuantityMessage: string := "Quantity cannot be negative"
  const MinStockMessage: string := "Min stock cannot be negative"
  const MaxStockMessage: string := "Max stock must be greater than min stock"
  const PriceMessage: string := "Price must be greater than 0"
  const SupplierMessage: string := "Supplier is required"
  const LocationMessage: string := "Location is required"

  /** Every field, in the order `validateForm` checks them. */
  const AllFields: set<Field> :=
    {Name, Sku, Category, Quantity, MinStock, MaxStock, Price, Supplier, Location}

  lemma EveryFieldListed(k: Field)
    ensures k in AllFields
  {
  }

  /** The check of one field fails: the text fields other than the category
      are blank after trimming, the category is empty (it is not trimmed), a
      count is negative, the maximum is below the minimum, or the price is not
      positive. */
  predicate Fails(f: ProductForm, k: Field)
  {
    match k
    case Name => IsBlank(f.name)
    case Sku => IsBlank(f.sku)
    case Category => f.category == ""
    case Quantity => f.quantity < 0
    case MinStock => f.minStock < 0
    case MaxStock => f.maxStock < f.minStock
    case Price => f.price <= 0
    case Supplier => IsBlank(f.supplier)
    case Location => IsBlank(f.location)
  }

  /** The message recorded for a failing field. */
  function Message(k: Field): string
  {
    match k
    case Name => NameMessage
    case Sku => SkuMessage
    case Category => CategoryMessage
    case Quantity => QuantityMessage
    case MinStock => MinStockMessage
    case MaxStock => MaxStockMessage
    case Price => PriceMessage
    case Supplier => SupplierMessage
    case Location => LocationMessage
  }

  /** The form passes every check. */
  predicate FormValid(f: ProductForm)
  {
    && !IsBlank(f.name)
    && !IsBlank(f.sku)
    && f.category != ""
    && f.quantity >= 0
    && f.minStock >= 0
    && f.maxStock >= f.minStock
    && f.price > 0
    && !IsBlank(f.supplier)
    && !IsBlank(f.location)
  }

  /** A form passes exactly when no field fails; a passing form has a maximum
      not below its minimum and a positive price. */
  lemma FormValidIff(f: ProductForm)
    ensures FormValid(f) <==> forall k: Field :: !Fails(f, k)
    ensures FormValid(f) ==> f.maxStock >= f.minStock >= 0 && f.price > 0 && f.quantity >= 0
  {
    if !FormValid(f) {
      var k :| k in AllFields && Fails(f, k);
    }
  }

  /** The errors recorded for the fields checked so far: exactly the failing
      ones, each with its message. */
  ghost predicate Recorded(f: ProductForm, errors: map<Field, string>, checked: set<Field>)
  {
    && (forall k :: k in errors <==> k in checked && Fails(f, k))
    && (forall k :: k in errors ==> errors[k] == Message(k))
  }

  /** One check of `validateForm`: when the field fails, its message is
      recorded under its key. */
  method CheckField(f: ProductForm, errors: map<Field, string>, ghost checked: set<Field>, k: Field)
    returns (r: map<Field, string>)
    requires Recorded(f, errors, checked)
    ensures Recorded(f, r, checked + {k})
  {
    if Fails(f, k) {
      r := errors[k := Message(k)];
    } else {
      r := errors;
    }
  }

  /** `validateForm`: the nine checks in turn, each failing one recording its
      own message under its own key; the form passes when no message was
      recorded. */
  method ValidateProduct(f: ProductForm) returns (errors: map<Field, string>, valid: bool)
    ensures forall k :: k in errors <==> Fails(f, k)
    ensures forall k :: k in errors ==> errors[k] == Message(k)
    ensures valid <==> errors == map[]
    ensures valid <==> FormValid(f)
  {
    errors := map[];
    ghost var checked: set<Field> := {};
    errors := CheckField(f, errors, checked, Name);
    checked := checked + {Name};
    errors := CheckField(f, errors, checked, Sku);
    checked := checked + {Sku};
    errors := CheckField(f, errors, checked, Category);
    checked := checked + {Category};
    errors := CheckField(f, errors, checked, Quantity);
    checked := checked + {Quantity};
    errors := CheckField(f, errors, checked, MinStock);
    checked := checked + {MinStock};
    errors := CheckField(f, errors, checked, MaxStock);
    checked := checked + {MaxStock};
    errors := CheckField(f, errors, checked, Price);
    checked := checked + {Price};
    errors := CheckField(f, errors, checked, Supplier);
    checked := checked + {Supplier};
    errors := CheckField(f, errors, checked, Location);
    checked := checked + {Location};
    forall k ensures k in errors <==> Fails(f, k) {
      EveryFieldListed(k);
    }
    FormValidIff(f);
    valid := |errors| == 0;
  }

  /** The form the dialog opens with when adding a product. */
  const EmptyForm: ProductForm := ProductForm("", "", "", 0, 0, 0, 0, "", "")

  /** The untouched empty form does not pass: blank names and a zero price. */
  lemma EmptyFormRejected()
    ensures !FormValid(EmptyForm)
    ensures IsBlank(EmptyForm.name) && EmptyForm.price <= 0
  {
  }

  // ---------------------------------------------------------------------
  // Editing: the form is the product itself with its fields edited

  /** The nine form fields of a product, as the dialog shows them when it
      opens on that product. */
  function FormOf(p: Product): (f: ProductForm)
  {
    ProductForm(p.name, p.sku, p.category, p.quantity, p.minStock, p.maxStock, p.price,
                p.supplier, p.location)
  }

  /** The product with its nine form fields replaced by the edited ones; the
      id, the timestamp and the status come along unchanged. */
  function WithForm(p: Product, f: ProductForm): (r: Product)
  {
    p.(name := f.name, sku := f.sku, category := f.category, quantity := f.quantity,
       minStock := f.minStock, maxStock := f.maxStock, price := f.price,
       supplier := f.supplier, location := f.location)
  }

  /** Opening a product and saving it untouched sends the product back as it
      was; the form of an edited product is exactly the edited form; and an
      edit touches nothing beyond the form fields. */
  lemma FormRoundTrip(p: Product, f: ProductForm)
    ensures WithForm(p, FormOf(p)) == p
    ensures FormOf(WithForm(p, f)) == f
    ensures var r := WithForm(p, f);
      r.id == p.id && r.lastUpdated == p.lastUpdated && r.status == p.status
    ensures forall q: Product :: q.id == p.id && q.lastUpdated == p.lastUpdated && q.status == p.status ==>
      WithForm(p, FormOf(q)) == q
  {
  }

  /** The action a passing form produces: an update of the product being
      edited, or an addition of a new one. */
  function SubmitAction(f: ProductForm, editing: Option<Product>): Action
  {
    match editing
    case Some(p) => UpdateProduct(WithForm(p, f))
    case None => AddProduct(f)
  }

  /** `handleSubmit`: nothing is dispatched when the form does not pass;
      otherwise `UPDATE_PRODUCT` with the edited product when a product is
      being edited, and `ADD_PRODUCT` with the form when adding. */
  method SubmitProduct(f: ProductForm, editing: Option<Product>) returns (action: Option<Action>)
    ensures action.None? <==> !FormValid(f)
    ensures action.Some? && editing.Some? ==>
      && action.value.UpdateProduct?
      && action.value.product.id == editing.value.id
      && FormOf(action.value.product) == f
      && action.value.product == WithForm(editing.value, f)
    ensures action.Some? && editing.None? ==> action.value == AddProduct(f)
  {
    var errors, valid := ValidateProduct(f);
    if !valid {
      return None;
    }
    if editing.Some? {
      action := Some(UpdateProduct(WithForm(editing.value, f)));
    } else {
      action := Some(AddProduct(f));
    }
  }

  /** What a passing form dispatches keeps a consistent state consistent. */
  lemma SubmitKeepsConsistent(s: State, f: ProductForm, editing: Option<Product>, id: int, now: int)
    requires Consistent(s) && FormValid(f)
    ensures Admissible(SubmitAction(f, editing))
    ensures Consistent(Apply(s, SubmitAction(f, editing), id, now))
  {
    ApplyKeepsConsistent(s, SubmitAction(f, editing), id, now);
  }

  /** Adding a passing form appends one product that carries the form's fields,
      a maximum not below its minimum and a positive price. */
  lemma AddedProductShape(s: State, f: ProductForm, id: int, now: int)
    requires FormValid(f)
    ensures var r := Apply(s, SubmitAction(f, None), id, now);
      && |r.products| == |s.products| + 1
      && r.products[..|s.products|] == s.products
      && var p := r.products[|s.products|];
      && p.id == id && FormOf(p) == f && p.lastUpdated == now
      && ProductOk(p) && p.maxStock >= p.minStock && p.price > 0
  {
    AddAppends(s, f, id, now);
  }

  /** Saving an edit replaces, in place, every product carrying the edited
      product's id with the edited fields, a fresh timestamp and the status
      the new quantities give; no other product changes. */
  lemma EditedProductShape(s: State, p: Product, f: ProductForm, id: int, now: int)
    requires FormValid(f)
    ensures var r := Apply(s, SubmitAction(f, Some(p)), id, now);
      && |r.products| == |s.products|
      && forall k :: 0 <= k < |s.products| ==>
        && (s.products[k].id == p.id ==>
              && r.products[k].id == p.id && FormOf(r.products[k]) == f
              && r.products[k].lastUpdated == now && ProductOk(r.products[k]))
        && (s.products[k].id != p.id ==> r.products[k] == s.products[k])
  {
    UpdateReplacesMatching(s, WithForm(p, f), id, now);
  }
}
