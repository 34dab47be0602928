/** The data management part of the settings page (src/pages/Settings.jsx):
    the backup record it exports, the check an imported file must pass before
    it replaces the state, the reset to an empty inventory, and the two stock
    counters it shows. */
module Settings {
  import opened Collections
  import opened Inventory
  import opened Aggregates
  import opened Dashboard

  // ---------------------------------------------------------------------
  // Export

  /** `dataToExport`: the four collections of the state and the export time
      (an ISO date text, supplied by the caller). */
  datatype Backup = Backup(
    products: seq<Product>, transactions: seq<Transaction>,
    categories: seq<string>, suppliers: seq<string>, exportedAt: string)

  /** `exportData`: the state's collections copied verbatim. */
  function Export(s: State, exportedAt: string): (b: Backup)
    ensures b.exportedAt == exportedAt
  {
    Backup(s.products, s.transactions, s.categories, s.suppliers, exportedAt)
  }

  // ---------------------------------------------------------------------
  // Import

  /** What the `products` field of a decoded file holds: nothing (or another
      falsy value), something that is not an array, or an array of products. */
  datatype ProductsField = Missing | NotArray | ArrayOf(items: seq<Product>)

  /** A decoded file: its `products` field and the other three collections. */
  datatype Document = Document(
    products: ProductsField, transactions: seq<Transaction>,
    categories: seq<string>, suppliers: seq<string>)

  /** The document a backup decodes to: `JSON.parse(JSON.stringify(b))`. */
  function Decoded(b: Backup): (d: Document)
    ensures d.products.ArrayOf?
  {
    Document(ArrayOf(b.products), b.transactions, b.categories, b.suppliers)
  }

  /** The three alerts an import ends with. */
  datatype Outcome = Imported | InvalidFormat | ParseError

  const ImportedMessage: string := "Data imported successfully!"
  const InvalidFormatMessage: string := "Invalid file format. Please select a valid backup file."
  const ParseErrorMessage: string := "Error importing data. Please check the file format."

  function AlertText(o: Outcome): string
  {
    match o
    case Imported => ImportedMessage
    case InvalidFormat => InvalidFormatMessage
    case ParseError => ParseErrorMessage
  }

  /** `importedData.products && Array.isArray(importedData.products)`: a file
      is accepted exactly when its `products` field is an array, even an empty
      one. */
  predicate Accepted(d: Document)
  {
    d.products.ArrayOf?
  }

  /** The `LOAD_DATA` action an accepted file dispatches, carrying the file
      itself. */
  function ImportAction(d: Document): (a: Option<Action>)
    ensures a.Some? <==> Accepted(d)
    ensures a.Some? ==>
      && a.value.LoadData?
      && a.value.snapshot.products == d.products.items
      && a.value.snapshot.transactions == d.transactions
      && a.value.snapshot.categories == d.categories
      && a.value.snapshot.suppliers == d.suppliers
  {
    if Accepted(d) then Some(LoadData(State(d.products.items, d.transactions, d.categories, d.suppliers)))
    else None
  }

  /** What `JSON.parse` makes of a file's text: it refuses the text, it yields
      `null` (reading `.products` of which throws), or it yields a value whose
      `products` field can be read. A number, a string, a boolean or an array
      is a value without a `products` field. */
  datatype Parsed = Unparsable | NullValue | Value(doc: Document)

  /** `importData` on the text of a file, already parsed. The state after the
      import and the alert shown; both ways of throwing inside the `try` end
      in the parse-error alert. */
  function Import(s: State, file: Parsed, id: int, now: int): (State, Outcome)
  {
    match file
    case Unparsable => (s, ParseError)
    case NullValue => (s, ParseError)
    case Value(d) =>
      match ImportAction(d)
      case Some(a) => (Apply(s, a, id, now), Imported)
      case None => (s, InvalidFormat)
  }

  /** The import succeeds exactly for a parsed value whose `products` field
      is an array, and then the state is the file's collections; a parse error
      is exactly text that does not parse or parses to `null`; every failed
      import leaves the state as it was. */
  lemma ImportOutcomes(s: State, file: Parsed, id: int, now: int)
    ensures var (r, o) := Import(s, file, id, now);
      && (o == Imported <==> file.Value? && Accepted(file.doc))
      && (o == InvalidFormat <==> file.Value? && !Accepted(file.doc))
      && (o == ParseError <==> file.Unparsable? || file.NullValue?)
      && (o != Imported ==> r == s)
      && (o == Imported ==> r == State(file.doc.products.items, file.doc.transactions,
                                       file.doc.categories, file.doc.suppliers))
  {
    match file
    case Unparsable =>
    case NullValue =>
    case Value(d) =>
      if Accepted(d) {
        LoadAndUnknown(s, ImportAction(d).value.snapshot, id, now);
      }
  }

  /** Importing an exported backup, into whatever state is current then,
      restores the four collections exactly, the ledger in its order. */
  lemma ExportImportRoundTrip(s: State, exportedAt: string, current: State, id: int, now: int)
    ensures Import(current, Value(Decoded(Export(s, exportedAt))), id, now) == (s, Imported)
  {
    ImportOutcomes(current, Value(Decoded(Export(s, exportedAt))), id, now);
  }

  /** An accepted file whose products are all consistent gives a consistent
      state, whatever the state was before. */
  lemma ImportKeepsConsistent(s: State, d: Document, id: int, now: int)
    requires Accepted(d) && forall p :: p in d.products.items ==> ProductOk(p)
    ensures Consistent(Import(s, Value(d), id, now).0)
  {
    LoadAndUnknown(s, ImportAction(d).value.snapshot, id, now);
  }

  // ---------------------------------------------------------------------
  // Clearing all data

  /** The state `clearAllData` loads: no products, no ledger, the five default
      categories and the five default suppliers. */
  const ClearedState: State := State([], [], DefaultCategories, DefaultSuppliers)

  /** `clearAllData` dispatches `LOAD_DATA` with the cleared state. */
  const ClearAction: Action := LoadData(ClearedState)

  /** Clearing replaces any state by the empty inventory with the same
      categories and suppliers as the first start, and is consistent. */
  lemma ClearResets(s: State, id: int, now: int, t: int)
    ensures var r := Apply(s, ClearAction, id, now);
      && r.products == [] && r.transactions == []
      && |r.categories| == 5 && |r.suppliers| == 5
      && r.categories == InitialState(t).categories
      && r.suppliers == InitialState(t).suppliers
      && Consistent(r)
  {
    LoadAndUnknown(s, ClearedState, id, now);
  }

  /** Clearing twice is clearing once. */
  lemma ClearIdempotent(s: State, id: int, now: int, id2: int, now2: int)
    ensures Apply(Apply(s, ClearAction, id, now), ClearAction, id2, now2) == Apply(s, ClearAction, id, now)
  {
    LoadAndUnknown(s, ClearedState, id, now);
    LoadAndUnknown(ClearedState, ClearedState, id2, now2);
  }

  // ---------------------------------------------------------------------
  // The stock alert counters

  /** `filter(p => p.quantity <= p.minStock && p.quantity > 0).length`. */
  function RestockCount(ps: seq<Product>): (n: nat)
    ensures n <= |ps|
  {
    |Filter(ps, NeedsRestock)|
  }

  /** The settings page's low-stock counter leaves out the empty products, so
      the two counters never add up to more than the products there are; when
      no quantity or minimum is negative they add up to the dashboard's
      low-stock counter, which counts the empty products too. */
  lemma CountersSplit(ps: seq<Product>)
    ensures RestockCount(ps) + OutOfStockCount(ps) <= |ps|
    ensures (forall p :: p in ps ==> p.quantity >= 0 && p.minStock >= 0) ==>
      RestockCount(ps) + OutOfStockCount(ps) == LowStockCount(ps)
  {
    FilterDisjoint(ps, NeedsRestock, IsEmptyStock);
    if forall p :: p in ps ==> p.quantity >= 0 && p.minStock >= 0 {
      FilterUnion(ps, NeedsRestock, IsEmptyStock, AtOrBelowMin);
    }
  }

  /** With a negative quantity the two counters fall short of the
      dashboard's. */
  lemma CountersMissNegativeQuantity()
    ensures var ps := [Product(1, "n", "s", "c", -2, 5, 10, 100, "sup", "loc", 0, OutOfStock)];
      RestockCount(ps) + OutOfStockCount(ps) == 0 && LowStockCount(ps) == 1
  {
    var ps := [Product(1, "n", "s", "c", -2, 5, 10, 100, "sup", "loc", 0, OutOfStock)];
    assert ps[1..] == [];
  }
}
