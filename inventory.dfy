/** The state container of the inventory tracker and its only mutation path,
    the reducer `inventoryReducer` of src/context/InventoryContext.jsx.
    Identifiers (`Date.now()`) and timestamps (`new Date()`) are parameters;
    prices are whole cents. */
module Inventory {
  import opened Collections

  datatype Status = InStock | LowStock | OutOfStock

  datatype TxType = StockIn | StockOut

  /** The fields the product form submits (a product without id, status and
      timestamp). */
  datatype ProductForm = ProductForm(
    name: string, sku: string, category: string,
    quantity: int, minStock: int, maxStock: int, price: int,
    supplier: string, location: string)

  datatype Product = Product(
    id: int, name: string, sku: string, category: string,
    quantity: int, minStock: int, maxStock: int, price: int,
    supplier: string, location: string,
    lastUpdated: int, status: Status)

  /** The payload of an `UPDATE_STOCK` action. */
  datatype StockAdjustment = StockAdjustment(productId: int, kind: TxType, quantity: int, notes: string)

  datatype Transaction = Transaction(
    id: int, productId: int, kind: TxType, quantity: int, notes: string, date: int)

  datatype State = State(
    products: seq<Product>, transactions: seq<Transaction>,
    categories: seq<string>, suppliers: seq<string>)

  /** The tagged actions the reducer understands; every other tag is `Unrecognized`. */
  datatype Action =
    | AddProduct(form: ProductForm)
    | UpdateProduct(product: Product)
    | DeleteProduct(id: int)
    | UpdateStock(adjustment: StockAdjustment)
    | LoadData(snapshot: State)
    | Unrecognized

  /** The stock-status rule written inline three times in the reducer. */
  function StatusOf(quantity: int, minStock: int): (r: Status)
    ensures r == InStock <==> quantity > minStock
    ensures r == LowStock <==> 0 < quantity <= minStock
    ensures r == OutOfStock <==> quantity <= 0 && quantity <= minStock
  {
    if quantity > minStock then InStock
    else if quantity > 0 then LowStock
    else OutOfStock
  }

  /** For non-negative inputs the rule reads: none left is out of stock, up to
      the minimum is low, above it is in stock. */
  lemma StatusOfNonNegative(quantity: int, minStock: int)
    requires quantity >= 0 && minStock >= 0
    ensures StatusOf(quantity, minStock) == OutOfStock <==> quantity == 0
    ensures StatusOf(quantity, minStock) == LowStock <==> 0 < quantity <= minStock
    ensures StatusOf(quantity, minStock) == InStock <==> quantity > minStock
  {
  }

  function Max(a: int, b: int): int
  {
    if a >= b then a else b
  }

  /** `{...payload, id, lastUpdated, status}` of `ADD_PRODUCT`. */
  function NewProduct(f: ProductForm, id: int, now: int): Product
  {
    Product(id, f.name, f.sku, f.category, f.quantity, f.minStock, f.maxStock, f.price,
            f.supplier, f.location, now, StatusOf(f.quantity, f.minStock))
  }

  /** `{...payload, lastUpdated, status}` of `UPDATE_PRODUCT`. */
  function Refreshed(p: Product, now: int): Product
  {
    p.(lastUpdated := now, status := StatusOf(p.quantity, p.minStock))
  }

  /** The quantity `UPDATE_STOCK` computes before clamping. */
  function Moved(quantity: int, adj: StockAdjustment): int
  {
    if adj.kind == StockIn then quantity + adj.quantity else quantity - adj.quantity
  }

  /** A product after `UPDATE_STOCK`: the quantity is clamped at zero, the
      status is taken from the unclamped quantity. */
  function Adjusted(p: Product, adj: StockAdjustment, now: int): Product
  {
    var q := Moved(p.quantity, adj);
    p.(quantity := Max(0, q), lastUpdated := now, status := StatusOf(q, p.minStock))
  }

  /** `state.products.map(p => p.id === payload.id ? refreshed : p)`. */
  function ReplaceById(ps: seq<Product>, p: Product, now: int): seq<Product>
  {
    seq(|ps|, k requires 0 <= k < |ps| => if ps[k].id == p.id then Refreshed(p, now) else ps[k])
  }

  /** `state.products.filter(p => p.id !== id)`. */
  function RemoveById(ps: seq<Product>, id: int): seq<Product>
  {
    Filter(ps, (p: Product) => p.id != id)
  }

  /** The product map of `UPDATE_STOCK`. */
  function AdjustById(ps: seq<Product>, adj: StockAdjustment, now: int): seq<Product>
  {
    seq(|ps|, k requires 0 <= k < |ps| =>
      if ps[k].id == adj.productId then Adjusted(ps[k], adj, now) else ps[k])
  }

  /** `{id: Date.now(), ...payload, date}` of `UPDATE_STOCK`. */
  function LedgerEntry(adj: StockAdjustment, id: int, now: int): Transaction
  {
    Transaction(id, adj.productId, adj.kind, adj.quantity, adj.notes, now)
  }

  /** `inventoryReducer(state, action)`; `freshId` stands for `Date.now()` and
      `now` for the current time. */
  function Apply(s: State, a: Action, freshId: int, now: int): State
  {
    match a
    case AddProduct(f) => s.(products := s.products + [NewProduct(f, freshId, now)])
    case UpdateProduct(p) => s.(products := ReplaceById(s.products, p, now))
    case DeleteProduct(id) => s.(products := RemoveById(s.products, id))
    case UpdateStock(adj) =>
      s.(products := AdjustById(s.products, adj, now),
         transactions := [LedgerEntry(adj, freshId, now)] + s.transactions)
    case LoadData(snapshot) => snapshot
    case Unrecognized => s
  }

  // ---------------------------------------------------------------------
  // Properties of the individual actions

  /** `ADD_PRODUCT` appends exactly one product, carrying every field of the
      form, the fresh id, the current time and the status the rule gives, and
      leaves every other part of the state alone. */
  lemma AddAppends(s: State, f: ProductForm, id: int, now: int)
    ensures var r := Apply(s, AddProduct(f), id, now);
      && |r.products| == |s.products| + 1
      && r.products[..|s.products|] == s.products
      && var p := r.products[|s.products|];
      && p.id == id && p.lastUpdated == now
      && p.name == f.name && p.sku == f.sku && p.category == f.category
      && p.quantity == f.quantity && p.minStock == f.minStock && p.maxStock == f.maxStock
      && p.price == f.price && p.supplier == f.supplier && p.location == f.location
      && p.status == StatusOf(f.quantity, f.minStock)
      && r.transactions == s.transactions && r.categories == s.categories
      && r.suppliers == s.suppliers
  {
  }

  /** `UPDATE_PRODUCT` rewrites exactly the products carrying the payload's id,
      keeps length, order and ids, and changes nothing when no id matches. */
  lemma UpdateReplacesMatching(s: State, p: Product, id: int, now: int)
    ensures var r := Apply(s, UpdateProduct(p), id, now);
      && |r.products| == |s.products|
      && (forall k :: 0 <= k < |s.products| ==>
            r.products[k].id == s.products[k].id
            && (s.products[k].id == p.id ==>
                  r.products[k] == p.(lastUpdated := now, status := StatusOf(p.quantity, p.minStock)))
            && (s.products[k].id != p.id ==> r.products[k] == s.products[k]))
      && ((forall k :: 0 <= k < |s.products| ==> s.products[k].id != p.id) ==> r.products == s.products)
      && r.transactions == s.transactions && r.categories == s.categories
      && r.suppliers == s.suppliers
  {
  }

  /** The filter of `DELETE_PRODUCT` keeps the order of the rest and
      distributes over concatenation. */
  lemma RemoveByIdAppend(a: seq<Product>, b: seq<Product>, id: int)
    ensures RemoveById(a + b, id) == RemoveById(a, id) + RemoveById(b, id)
  {
    FilterAppend(a, b, (p: Product) => p.id != id);
  }

  /** What `RemoveById` keeps: every product without the id, and nothing else. */
  lemma RemoveByIdKeeps(ps: seq<Product>, id: int)
    ensures forall p :: p in RemoveById(ps, id) <==> p in ps && p.id != id
    ensures multiset(RemoveById(ps, id)) <= multiset(ps)
    ensures |RemoveById(ps, id)| <= |ps|
    ensures (forall p :: p in ps ==> p.id != id) ==> RemoveById(ps, id) == ps
  {
    FilterSubMultiset(ps, (p: Product) => p.id != id);
    if forall p :: p in ps ==> p.id != id {
      FilterKeepsAll(ps, (p: Product) => p.id != id);
    }
  }

  /** `DELETE_PRODUCT` removes every product with that id, keeps all others and
      leaves transactions, categories and suppliers untouched. */
  lemma DeleteRemoves(s: State, id: int, freshId: int, now: int)
    ensures var r := Apply(s, DeleteProduct(id), freshId, now);
      && (forall p :: p in r.products <==> p in s.products && p.id != id)
      && |r.products| <= |s.products|
      && r.transactions == s.transactions && r.categories == s.categories
      && r.suppliers == s.suppliers
  {
    RemoveByIdKeeps(s.products, id);
  }

  /** `UPDATE_STOCK` adds for stock-in, subtracts and clamps for stock-out, so the
      stored quantity is never negative after stock-out; the status comes from
      the unclamped quantity, the timestamp is the current time, and every
      other field of the product is kept. It always prepends exactly one
      ledger entry carrying the payload, matched or not, and never changes the
      number of products. */
  lemma UpdateStockEffect(s: State, adj: StockAdjustment, id: int, now: int)
    ensures var r := Apply(s, UpdateStock(adj), id, now);
      && |r.products| == |s.products|
      && (forall k :: 0 <= k < |s.products| && s.products[k].id == adj.productId ==>
            var old_q := s.products[k].quantity;
            var q := if adj.kind == StockIn then old_q + adj.quantity else old_q - adj.quantity;
            && r.products[k].id == s.products[k].id
            && (adj.kind == StockIn ==> r.products[k].quantity == Max(0, old_q + adj.quantity))
            && (adj.kind == StockOut ==> r.products[k].quantity == Max(0, old_q - adj.quantity))
            && (adj.kind == StockOut ==> r.products[k].quantity >= 0)
            && r.products[k] == s.products[k].(quantity := Max(0, q), lastUpdated := now,
                                              status := StatusOf(q, s.products[k].minStock)))
      && (forall k :: 0 <= k < |s.products| && s.products[k].id != adj.productId ==>
            r.products[k] == s.products[k])
      && |r.transactions| == |s.transactions| + 1
      && r.transactions[0] == Transaction(id, adj.productId, adj.kind, adj.quantity, adj.notes, now)
      && r.transactions[1..] == s.transactions
      && r.categories == s.categories && r.suppliers == s.suppliers
  {
  }

  /** The status `UPDATE_STOCK` computes from the unclamped quantity equals the
      rule applied to the stored, clamped quantity whenever the minimum is not
      negative. */
  lemma ClampedStatusAgrees(p: Product, adj: StockAdjustment, now: int)
    requires p.minStock >= 0
    ensures Adjusted(p, adj, now).status == StatusOf(Adjusted(p, adj, now).quantity, p.minStock)
  {
  }

  /** With a negative minimum the two differ: 0 stock against a minimum of -5
      after removing 10 from 0 is reported out of stock, though the rule on the
      stored 0 says in stock. */
  lemma ClampedStatusNegativeMinimum()
    ensures var p := Product(1, "n", "s", "c", 0, -5, 0, 1, "sup", "loc", 0, InStock);
      var q := Adjusted(p, StockAdjustment(1, StockOut, 10, ""), 0);
      q.quantity == 0 && q.status == OutOfStock && StatusOf(q.quantity, p.minStock) == InStock
  {
  }

  /** `LOAD_DATA` returns its payload verbatim; an unknown tag returns the state. */
  lemma LoadAndUnknown(s: State, snapshot: State, id: int, now: int)
    ensures Apply(s, LoadData(snapshot), id, now) == snapshot
    ensures Apply(s, Unrecognized, id, now) == s
  {
  }

  /** The ledger only grows at the front: apart from `LOAD_DATA`, the old ledger
      is a suffix of the new one, and only `UPDATE_STOCK` adds an entry. */
  lemma LedgerPrependOnly(s: State, a: Action, id: int, now: int)
    requires !a.LoadData?
    ensures var r := Apply(s, a, id, now);
      && |r.transactions| >= |s.transactions|
      && r.transactions[|r.transactions| - |s.transactions|..] == s.transactions
      && (a.UpdateStock? <==> |r.transactions| == |s.transactions| + 1)
  {
  }

  /** An updated product keeps the id it was added with. */
  lemma AddThenUpdateKeepsId(s: State, f: ProductForm, g: Product, id: int, t1: int, t2: int)
    requires g.id == id
    ensures var s1 := Apply(s, AddProduct(f), id, t1);
      var s2 := Apply(s1, UpdateProduct(g), id, t2);
      |s2.products| == |s.products| + 1 && s2.products[|s.products|].id == id
      && s2.products[|s.products|].quantity == g.quantity
  {
  }

  // ---------------------------------------------------------------------
  // The status invariant

  /** A product whose stored quantity and minimum are not negative and whose
      status is what the rule says. */
  predicate ProductOk(p: Product)
  {
    p.quantity >= 0 && p.minStock >= 0 && p.status == StatusOf(p.quantity, p.minStock)
  }

  predicate Consistent(s: State)
  {
    forall p :: p in s.products ==> ProductOk(p)
  }

  /** What an action must carry for the status invariant to survive it: the
      product forms' non-negative counts, or a consistent snapshot. A stock
      adjustment of any quantity is safe, because the clamp keeps the stored
      quantity at zero or more and the status agrees with it. */
  predicate Admissible(a: Action)
  {
    match a
    case AddProduct(f) => f.quantity >= 0 && f.minStock >= 0
    case UpdateProduct(p) => p.quantity >= 0 && p.minStock >= 0
    case DeleteProduct(_) => true
    case UpdateStock(_) => true
    case LoadData(snapshot) => Consistent(snapshot)
    case Unrecognized => true
  }

  /** Every admissible action keeps every product's status derivable from its
      quantity and minimum, and keeps quantities non-negative. */
  lemma ApplyKeepsConsistent(s: State, a: Action, id: int, now: int)
    requires Consistent(s) && Admissible(a)
    ensures Consistent(Apply(s, a, id, now))
  {
    var r := Apply(s, a, id, now);
    match a
    case AddProduct(f) =>
      assert forall p :: p in r.products ==> p in s.products || p == NewProduct(f, id, now);
    case UpdateProduct(g) =>
      forall p | p in r.products ensures ProductOk(p) {
        var k :| 0 <= k < |r.products| && r.products[k] == p;
        assert s.products[k] in s.products;
      }
    case DeleteProduct(x) =>
      RemoveByIdKeeps(s.products, x);
    case UpdateStock(adj) =>
      forall p | p in r.products ensures ProductOk(p) {
        var k :| 0 <= k < |r.products| && r.products[k] == p;
        assert s.products[k] in s.products;
        if s.products[k].id == adj.productId {
          ClampedStatusAgrees(s.products[k], adj, now);
        }
      }
    case LoadData(_) =>
    case Unrecognized =>
  }

  // ---------------------------------------------------------------------
  // The seed data

  const DefaultCategories: seq<string> := ["Electronics", "Furniture", "Stationery", "Clothing", "Books"]
  const DefaultSuppliers: seq<string> := ["TechCorp", "GameTech", "FurniCorp", "PaperPlus", "StyleCorp"]

  /** `initialState`, with every product stamped `now`. */
  function InitialState(now: int): State
  {
    State(
      [ Product(1, "Wireless Headphones", "WH-001", "Electronics", 45, 10, 100, 9999,
                "TechCorp", "Warehouse A", now, InStock),
        Product(2, "Gaming Mouse", "GM-002", "Electronics", 8, 15, 50, 5999,
                "GameTech", "Warehouse A", now, LowStock),
        Product(3, "Office Chair", "OC-003", "Furniture", 0, 5, 25, 29999,
                "FurniCorp", "Warehouse B", now, OutOfStock),
        Product(4, "Notebook Set", "NB-004", "Stationery", 120, 20, 200, 1299,
                "PaperPlus", "Warehouse C", now, InStock) ],
      [ Transaction(1, 1, StockIn, 20, "Weekly restock", now),
        Transaction(2, 2, StockOut, 7, "Customer order fulfillment", now) ],
      DefaultCategories, DefaultSuppliers)
  }

  /** The hard-coded statuses of the seed agree with the rule. */
  lemma InitialStateConsistent(now: int)
    ensures Consistent(InitialState(now))
  {
  }

  /** Stock-in of 20 on the seed headphones (45, minimum 10) gives 65 in stock
      and prepends a stock-in entry of 20; stock-out of 50 on the seed mouse
      (8, minimum 15) clamps at 0 and reports out of stock. */
  lemma SeedAdjustments(t: int, id: int, now: int)
    ensures var r := Apply(InitialState(t), UpdateStock(StockAdjustment(1, StockIn, 20, "")), id, now);
      r.products[0].quantity == 65 && r.products[0].status == InStock
      && r.transactions[0].kind == StockIn && r.transactions[0].quantity == 20
      && |r.transactions| == 3
    ensures var r := Apply(InitialState(t), UpdateStock(StockAdjustment(2, StockOut, 50, "")), id, now);
      r.products[1].quantity == 0 && r.products[1].status == OutOfStock
  {
  }
}
