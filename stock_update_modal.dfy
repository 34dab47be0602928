/** The stock adjustment dialog (src/components/StockUpdateModal.jsx): its
    check of the entered quantity, the `UPDATE_STOCK` action it dispatches with
    the note it fills in, and its preview of the new stock level. */
module StockUpdateModal {
  import opened Collections
  import opened Text
  import opened Inventory

  // ---------------------------------------------------------------------
  // Validation

  const QuantityKey: string := "quantity"
  const NotPositiveMessage: string := "Quantity must be greater than 0"
  const TooManyMessage: string := "Cannot remove more items than currently in stock"

  /** A stock-out of more than the product holds; without a product the check
      is skipped. */
  predicate RemovesTooMany(kind: TxType, quantity: int, product: Option<Product>)
  {
    kind == StockOut && product.Some? && quantity > product.value.quantity
  }

  /** The form passes: a positive quantity, and for a stock-out no more than
      the product holds. */
  predicate StockFormValid(kind: TxType, quantity: int, product: Option<Product>)
  {
    quantity > 0 && (kind == StockIn || product.None? || quantity <= product.value.quantity)
  }

  /** `validateForm`: both checks record their message under the one key
      `quantity`, so when both fail the second message is the one kept. */
  method ValidateStock(kind: TxType, quantity: int, product: Option<Product>)
    returns (errors: map<string, string>, valid: bool)
    ensures valid <==> StockFormValid(kind, quantity, product)
    ensures valid <==> errors == map[]
    ensures errors.Keys <= {QuantityKey}
    ensures RemovesTooMany(kind, quantity, product) ==> errors == map[QuantityKey := TooManyMessage]
    ensures quantity <= 0 && !RemovesTooMany(kind, quantity, product) ==>
      errors == map[QuantityKey := NotPositiveMessage]
  {
    errors := map[];
    if quantity <= 0 {
      errors := errors[QuantityKey := NotPositiveMessage];
    }
    if kind == StockOut && product.Some? && quantity > product.value.quantity {
      errors := errors[QuantityKey := TooManyMessage];
    }
    valid := |errors| == 0;
  }

  // ---------------------------------------------------------------------
  // The dispatched action

  function Verb(kind: TxType): string
  {
    if kind == StockIn then "Added" else "Removed"
  }

  /** `${type === 'stock_in' ? 'Added' : 'Removed'} ${quantity} units`. */
  function DefaultNote(kind: TxType, quantity: int): string
  {
    Verb(kind) + " " + IntText(quantity) + " units"
  }

  /** `notes.trim() || DefaultNote`: the trimmed notes, or the default note when
      they are blank. */
  function NoteFor(kind: TxType, quantity: int, notes: string): string
  {
    if Trim(notes) != "" then Trim(notes) else DefaultNote(kind, quantity)
  }

  /** The default note names the direction and the quantity, which can be read
      back from it. */
  lemma DefaultNoteShape(kind: TxType, quantity: int)
    ensures var n := DefaultNote(kind, quantity); var v := |Verb(kind)|;
      && |n| >= v + 7
      && n[..v] == (if kind == StockIn then "Added" else "Removed")
      && n[|n| - 6..] == " units"
      && ParseInt(n[v + 1..|n| - 6]) == quantity
  {
    var n := DefaultNote(kind, quantity);
    var v := |Verb(kind)|;
    assert n[v + 1..|n| - 6] == IntText(quantity);
    IntTextRoundTrip(quantity);
  }

  /** The note the ledger records is never blank: either the user's trimmed
      text or the default note. */
  lemma NoteNeverBlank(kind: TxType, quantity: int, notes: string)
    ensures !IsBlank(NoteFor(kind, quantity, notes))
    ensures !IsBlank(notes) ==> NoteFor(kind, quantity, notes) == Trim(notes)
    ensures IsBlank(notes) ==> NoteFor(kind, quantity, notes) == DefaultNote(kind, quantity)
  {
    var n := NoteFor(kind, quantity, notes);
    if Trim(notes) != "" {
      TrimIdempotent(notes);
    } else {
      BlankIff(n);
      assert !IsWhitespace(n[0]);
    }
  }

  /** `handleSubmit`: nothing is dispatched when the form does not pass or
      there is no product; otherwise one `UPDATE_STOCK` for the product. */
  method SubmitStock(kind: TxType, quantity: int, notes: string, product: Option<Product>)
    returns (action: Option<Action>)
    ensures action.None? <==> !StockFormValid(kind, quantity, product) || product.None?
    ensures action.Some? ==>
      action.value == UpdateStock(StockAdjustment(product.value.id, kind, quantity, NoteFor(kind, quantity, notes)))
  {
    var errors, valid := ValidateStock(kind, quantity, product);
    if !valid || product.None? {
      return None;
    }
    action := Some(UpdateStock(StockAdjustment(product.value.id, kind, quantity, NoteFor(kind, quantity, notes))));
  }

  /** What the dialog dispatches keeps a consistent state consistent, and the
      ledger entry it adds records the adjustment with its note. */
  lemma SubmittedKeepsConsistent(s: State, kind: TxType, quantity: int, notes: string, p: Product,
                                 id: int, now: int)
    requires Consistent(s)
    ensures var r := Apply(s, UpdateStock(StockAdjustment(p.id, kind, quantity, NoteFor(kind, quantity, notes))), id, now);
      && Consistent(r)
      && r.transactions[0] == Transaction(id, p.id, kind, quantity, NoteFor(kind, quantity, notes), now)
      && !IsBlank(r.transactions[0].notes)
  {
    var adj := StockAdjustment(p.id, kind, quantity, NoteFor(kind, quantity, notes));
    ApplyKeepsConsistent(s, UpdateStock(adj), id, now);
    NoteNeverBlank(kind, quantity, notes);
  }

  // ---------------------------------------------------------------------
  // The preview

  /** `newQuantity`: the level after the adjustment, a stock-out clamped at 0. */
  function PreviewQuantity(kind: TxType, current: int, quantity: int): int
  {
    if kind == StockIn then current + quantity else Max(0, current - quantity)
  }

  /** The label under the preview, by the reducer's three-way rule. */
  function PreviewStatus(kind: TxType, p: Product, quantity: int): Status
  {
    StatusOf(PreviewQuantity(kind, p.quantity, quantity), p.minStock)
  }

  /** A stock-out preview is never negative, and neither is any preview of a
      passing form on a product that holds no negative quantity. */
  lemma PreviewNonNegative(kind: TxType, p: Product, quantity: int)
    ensures kind == StockOut ==> PreviewQuantity(kind, p.quantity, quantity) >= 0
    ensures StockFormValid(kind, quantity, Some(p)) && p.quantity >= 0 ==>
      PreviewQuantity(kind, p.quantity, quantity) >= 0
  {
  }

  /** For a passing form the reducer never clamps: it stores exactly the
      previewed level, and the status it stores is the previewed label. */
  lemma PreviewMatchesReducer(kind: TxType, p: Product, quantity: int, notes: string, now: int)
    requires StockFormValid(kind, quantity, Some(p)) && p.quantity >= 0
    ensures var adj := StockAdjustment(p.id, kind, quantity, notes);
      && Moved(p.quantity, adj) == PreviewQuantity(kind, p.quantity, quantity)
      && Adjusted(p, adj, now).quantity == PreviewQuantity(kind, p.quantity, quantity)
      && Adjusted(p, adj, now).status == PreviewStatus(kind, p, quantity)
  {
  }

  /** A passing stock-out takes exactly the quantity away and leaves it at 0
      or more. */
  lemma ValidStockOutIsExact(p: Product, quantity: int, notes: string, now: int)
    requires StockFormValid(StockOut, quantity, Some(p))
    ensures var q := Adjusted(p, StockAdjustment(p.id, StockOut, quantity, notes), now).quantity;
      q == p.quantity - quantity && q >= 0
  {
  }

  /** A stock-out of more than the product holds, were it dispatched, would be
      clamped to 0 while the preview shows 0 too; a stock-in of a negative
      quantity, which the form refuses, would preview a negative level. */
  lemma PreviewOutsideTheForm()
    ensures var p := Product(1, "n", "s", "c", 3, 5, 10, 100, "sup", "loc", 0, LowStock);
      && PreviewQuantity(StockOut, p.quantity, 8) == 0
      && Adjusted(p, StockAdjustment(1, StockOut, 8, ""), 0).quantity == 0
      && PreviewQuantity(StockIn, p.quantity, -4) == -1
      && !StockFormValid(StockIn, -4, Some(p))
  {
  }
}
