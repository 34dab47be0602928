/** The reports page (src/pages/Reports.jsx): the ledger entries of a date
    window with their stock-in and stock-out totals, the overview figures, the
    per-category breakdown and the ten products of highest stock value. */
module Reports {
  import opened Collections
  import opened Inventory
  import opened Aggregates
  import opened Dashboard
  import opened Sorting

  // ---------------------------------------------------------------------
  // The date window

  /** `transactions.filter(t => new Date(t.date) >= cutoffDate)`; the cutoff,
      the start of the day `days` days ago, is an input. */
  function Window(txs: seq<Transaction>, cutoff: int): seq<Transaction>
  {
    Filter(txs, (t: Transaction) => t.date >= cutoff)
  }

  /** The window holds exactly the entries dated at or after the cutoff, each
      at most as often as the ledger does. */
  lemma WindowExact(txs: seq<Transaction>, cutoff: int)
    ensures forall t :: t in Window(txs, cutoff) <==> t in txs && t.date >= cutoff
    ensures multiset(Window(txs, cutoff)) <= multiset(txs)
  {
    FilterSubMultiset(txs, (t: Transaction) => t.date >= cutoff);
  }

  /** The window keeps ledger order: the window of two stretches of the ledger
      is the window of the first followed by that of the second. */
  lemma WindowInLedgerOrder(a: seq<Transaction>, b: seq<Transaction>, cutoff: int)
    ensures Window(a + b, cutoff) == Window(a, cutoff) + Window(b, cutoff)
  {
    FilterAppend(a, b, (t: Transaction) => t.date >= cutoff);
  }

  /** The entry `UPDATE_STOCK` prepends heads the window exactly when it is
      dated at or after the cutoff; the rest of the window is unchanged. */
  lemma WindowAfterStockUpdate(s: State, adj: StockAdjustment, id: int, now: int, cutoff: int)
    ensures Window(Apply(s, UpdateStock(adj), id, now).transactions, cutoff)
      == (if now >= cutoff then [LedgerEntry(adj, id, now)] else []) + Window(s.transactions, cutoff)
  {
    var e := LedgerEntry(adj, id, now);
    assert ([e] + s.transactions)[1..] == s.transactions;
  }

  // ---------------------------------------------------------------------
  // Stock movement

  /** `.reduce((sum, t) => sum + t.quantity, 0)`. */
  function QuantitySum(txs: seq<Transaction>): int
  {
    if txs == [] then 0 else txs[0].quantity + QuantitySum(txs[1..])
  }

  function OfKind(k: TxType): Transaction -> bool
  {
    (t: Transaction) => t.kind == k
  }

  /** `stockIn`: the quantities of the window's stock-in entries. */
  function StockInTotal(window: seq<Transaction>): int
  {
    QuantitySum(Filter(window, OfKind(StockIn)))
  }

  /** `stockOut`: the quantities of the window's stock-out entries. */
  function StockOutTotal(window: seq<Transaction>): int
  {
    QuantitySum(Filter(window, OfKind(StockOut)))
  }

  /** Every entry is either stock-in or stock-out, so the two totals share out
      the window's whole quantity. */
  lemma {:induction false} MovementSplits(window: seq<Transaction>)
    ensures StockInTotal(window) + StockOutTotal(window) == QuantitySum(window)
  {
    if window != [] {
      var t, rest := window[0], window[1..];
      MovementSplits(rest);
      var ins, outs := Filter(rest, OfKind(StockIn)), Filter(rest, OfKind(StockOut));
      if t.kind == StockIn {
        assert Filter(window, OfKind(StockIn)) == [t] + ins;
        assert Filter(window, OfKind(StockOut)) == [] + outs == outs;
        QuantitySumCons(t, ins);
      } else {
        assert Filter(window, OfKind(StockIn)) == [] + ins == ins;
        assert Filter(window, OfKind(StockOut)) == [t] + outs;
        QuantitySumCons(t, outs);
      }
    }
  }

  lemma QuantitySumCons(t: Transaction, txs: seq<Transaction>)
    ensures QuantitySum([t] + txs) == t.quantity + QuantitySum(txs)
  {
    assert ([t] + txs)[1..] == txs;
  }

  /** With no negative quantity in the window neither total is negative. */
  lemma {:induction false} QuantitySumNonNegative(txs: seq<Transaction>)
    requires forall t :: t in txs ==> t.quantity >= 0
    ensures QuantitySum(txs) >= 0
  {
    if txs != [] {
      assert txs[0] in txs;
      QuantitySumNonNegative(txs[1..]);
    }
  }

  /** A stock-in entry inside the window adds its quantity to `stockIn` and
      leaves `stockOut` alone; a stock-out entry the other way round. */
  lemma MovementAfterStockUpdate(s: State, adj: StockAdjustment, id: int, now: int, cutoff: int)
    requires now >= cutoff
    ensures var w0 := Window(s.transactions, cutoff);
      var w1 := Window(Apply(s, UpdateStock(adj), id, now).transactions, cutoff);
      && StockInTotal(w1) == StockInTotal(w0) + (if adj.kind == StockIn then adj.quantity else 0)
      && StockOutTotal(w1) == StockOutTotal(w0) + (if adj.kind == StockOut then adj.quantity else 0)
  {
    var e := LedgerEntry(adj, id, now);
    var w0 := Window(s.transactions, cutoff);
    WindowAfterStockUpdate(s, adj, id, now, cutoff);
    MovementAfterEntry(e, w0);
  }

  /** One more entry at the head of a window moves one of the two totals by
      its quantity. */
  lemma MovementAfterEntry(e: Transaction, w: seq<Transaction>)
    ensures StockInTotal([e] + w) == StockInTotal(w) + (if e.kind == StockIn then e.quantity else 0)
    ensures StockOutTotal([e] + w) == StockOutTotal(w) + (if e.kind == StockOut then e.quantity else 0)
  {
    var ins, outs := Filter(w, OfKind(StockIn)), Filter(w, OfKind(StockOut));
    assert ([e] + w)[0] == e && ([e] + w)[1..] == w;
    if e.kind == StockIn {
      assert Filter([e] + w, OfKind(StockIn)) == [e] + ins;
      assert Filter([e] + w, OfKind(StockOut)) == [] + outs == outs;
      QuantitySumCons(e, ins);
    } else {
      assert Filter([e] + w, OfKind(StockIn)) == [] + ins == ins;
      assert Filter([e] + w, OfKind(StockOut)) == [e] + outs;
      QuantitySumCons(e, outs);
    }
  }

  // ---------------------------------------------------------------------
  // The overview

  datatype Overview = Overview(
    totalProducts: nat, totalValue: int, lowStockItems: nat, outOfStockItems: nat,
    stockIn: int, stockOut: int, netMovement: int)

  /** `reportData.overview` for the products and the window. */
  function OverviewOf(ps: seq<Product>, window: seq<Transaction>): Overview
  {
    var c := CountersOf(ps);
    var i, o := StockInTotal(window), StockOutTotal(window);
    Overview(c.totalProducts, c.totalValue, c.lowStockItems, c.outOfStockItems, i, o, i - o)
  }

  /** The overview repeats the dashboard's counters, and its net movement is
      what came in minus what went out of the window. */
  lemma OverviewMeaning(ps: seq<Product>, window: seq<Transaction>)
    ensures var v := OverviewOf(ps, window);
      && v.totalProducts == |ps| && v.totalValue == Sum(ps, Value)
      && v.lowStockItems == |Filter(ps, AtOrBelowMin)| && v.outOfStockItems == |Filter(ps, IsEmptyStock)|
      && v.netMovement == QuantitySum(Filter(window, OfKind(StockIn))) - QuantitySum(Filter(window, OfKind(StockOut)))
      && v.stockIn + v.stockOut == QuantitySum(window)
  {
    MovementSplits(window);
  }

  // ---------------------------------------------------------------------
  // The in-stock count of the status summary

  /** The "In Stock" figure as written: products minus low stock minus out of
      stock. */
  function ShownInStockAsWritten(ps: seq<Product>): int
  {
    var v := CountersOf(ps);
    v.totalProducts - v.lowStockItems - v.outOfStockItems
  }

  /** The low-stock counter already holds the products with nothing left, so
      one empty product makes the figure -1 where no product is in stock. */
  lemma ShownInStockCountsEmptyTwice()
    ensures var ps := [Product(1, "n", "s", "c", 0, 5, 10, 100, "sup", "loc", 0, OutOfStock)];
      ShownInStockAsWritten(ps) == -1 && InStockCount(ps) == 0
  {
    var ps := [Product(1, "n", "s", "c", 0, 5, 10, 100, "sup", "loc", 0, OutOfStock)];
    assert ps[1..] == [];
  }

  /** The number of products above their minimum. */
  function InStockCount(ps: seq<Product>): nat
  {
    |Filter(ps, AboveMin)|
  }

  /** The figure as intended: every product is either at or below its minimum
      or above it, so the in-stock count is the total minus the low-stock
      counter, which is never negative. */
  lemma InStockSummary(ps: seq<Product>)
    ensures InStockCount(ps) == CountersOf(ps).totalProducts - CountersOf(ps).lowStockItems
    ensures ShownInStockAsWritten(ps) == InStockCount(ps) - OutOfStockCount(ps)
  {
    FilterComplement(ps, AtOrBelowMin, AboveMin);
  }

  // ---------------------------------------------------------------------
  // The category breakdown

  /** `{count, value, quantity}` of one category, with its name as
      `Object.entries` pairs it. */
  datatype CategoryEntry = CategoryEntry(name: string, count: nat, value: int, quantity: int)

  /** The entry the reduce builds for category `c`. */
  function EntryFor(ps: seq<Product>, c: string): CategoryEntry
  {
    var g := Group(ps, c);
    CategoryEntry(c, |g|, Sum(g, Value), Sum(g, Quantity))
  }

  /** The breakdown: one entry per distinct category, in order of first
      occurrence. */
  function Breakdown(ps: seq<Product>): (r: seq<CategoryEntry>)
    ensures |r| == |Distinct(Categories(ps))|
    ensures forall k :: 0 <= k < |r| ==> r[k] == EntryFor(ps, Distinct(Categories(ps))[k])
  {
    var keys := Distinct(Categories(ps));
    seq(|keys|, k requires 0 <= k < |keys| => EntryFor(ps, keys[k]))
  }

  /** What one step of the reduce does to the entry of the product's category. */
  function Count(e: CategoryEntry, p: Product): CategoryEntry
  {
    e.(count := e.count + 1, value := e.value + Value(p), quantity := e.quantity + p.quantity)
  }

  function EmptyEntry(c: string): CategoryEntry
  {
    CategoryEntry(c, 0, 0, 0)
  }

  lemma EntryForAppendSame(ps: seq<Product>, p: Product)
    ensures EntryFor(ps + [p], p.category) == Count(EntryFor(ps, p.category), p)
  {
    var g := Group(ps, p.category);
    GroupAppend(ps, p, p.category);
    SumAppendOne(g, p, Value);
    SumAppendOne(g, p, Quantity);
  }

  lemma EntryForAppendOther(ps: seq<Product>, p: Product, c: string)
    requires p.category != c
    ensures EntryFor(ps + [p], c) == EntryFor(ps, c)
  {
    GroupAppend(ps, p, c);
    assert Group(ps, c) + [] == Group(ps, c);
  }

  /** The accumulator after a prefix: keyed by the categories seen so far, in
      order of first occurrence, each with the entry of that prefix. */
  ghost predicate Tallied(ps: seq<Product>, acc: map<string, CategoryEntry>, keys: seq<string>)
  {
    && keys == Distinct(Categories(ps))
    && (forall c :: c in acc <==> c in keys)
    && (forall c :: c in acc ==> acc[c] == EntryFor(ps, c))
  }

  /** The dictionary the reduce builds from a product list. */
  function Reduce(ps: seq<Product>): map<string, CategoryEntry>
  {
    if ps == [] then map[]
    else
      var acc, p := Reduce(ps[..|ps| - 1]), ps[|ps| - 1];
      acc[p.category := Count(if p.category in acc then acc[p.category] else EmptyEntry(p.category), p)]
  }

  lemma StartEntry(ps: seq<Product>, acc: map<string, CategoryEntry>, keys: seq<string>, c: string)
    requires Tallied(ps, acc, keys)
    ensures (if c in acc then acc[c] else EmptyEntry(c)) == EntryFor(ps, c)
  {
    if c !in acc {
      DistinctSpec(Categories(ps));
      GroupOfAbsent(ps, c);
    }
  }

  lemma EntriesStep(ps: seq<Product>, p: Product, acc: map<string, CategoryEntry>, e: CategoryEntry)
    requires forall d :: d in acc ==> acc[d] == EntryFor(ps, d)
    requires e == EntryFor(ps + [p], p.category)
    ensures forall d :: d in acc[p.category := e] ==> acc[p.category := e][d] == EntryFor(ps + [p], d)
  {
    forall d | d in acc[p.category := e]
      ensures acc[p.category := e][d] == EntryFor(ps + [p], d)
    {
      if d != p.category {
        EntryForAppendOther(ps, p, d);
      }
    }
  }

  lemma DomainStep(acc: map<string, CategoryEntry>, keys: seq<string>, c: string, e: CategoryEntry, keys': seq<string>)
    requires forall d :: d in acc <==> d in keys
    requires keys' == if c in acc then keys else keys + [c]
    ensures forall d :: d in acc[c := e] <==> d in keys'
  {
  }

  /** One step of the reduce keeps the accumulator in step with the prefix. */
  lemma BreakdownStep(ps: seq<Product>, p: Product, acc: map<string, CategoryEntry>, keys: seq<string>,
                      acc': map<string, CategoryEntry>, keys': seq<string>)
    requires Tallied(ps, acc, keys)
    requires acc' == acc[p.category := Count(if p.category in acc then acc[p.category] else EmptyEntry(p.category), p)]
    requires keys' == if p.category in acc then keys else keys + [p.category]
    ensures Tallied(ps + [p], acc', keys')
  {
    var c := p.category;
    CategoryKeysStep(ps, p, keys);
    DomainStep(acc, keys, c, acc'[c], keys');
    StartEntry(ps, acc, keys, c);
    EntryForAppendSame(ps, p);
    EntriesStep(ps, p, acc, acc'[c]);
  }

  lemma {:induction false} ReduceTallied(ps: seq<Product>)
    ensures Tallied(ps, Reduce(ps), Distinct(Categories(ps)))
  {
    if ps != [] {
      var init, p := ps[..|ps| - 1], ps[|ps| - 1];
      ReduceTallied(init);
      assert ps == init + [p];
      var keys := Distinct(Categories(init));
      BreakdownStep(init, p, Reduce(init), keys, Reduce(ps), if p.category in Reduce(init) then keys else keys + [p.category]);
    }
  }

  lemma ReduceKeys(ps: seq<Product>, c: string)
    ensures c in Reduce(ps) <==> c in Distinct(Categories(ps))
  {
    ReduceTallied(ps);
  }

  /** The increments of lines 54-56 on the entry of a product's category. */
  method CountProduct(e: CategoryEntry, p: Product) returns (e': CategoryEntry)
    ensures e' == Count(e, p)
  {
    e' := e.(count := e.count + 1);
    e' := e'.(value := e'.value + p.quantity * p.price);
    e' := e'.(quantity := e'.quantity + p.quantity);
  }

  /** `categoryBreakdown` followed by `Object.entries(...).map(...)`: the
      reduce into a dictionary keyed by category, entries created on first
      sight and counted up in place. */
  method CategoryBreakdown(ps: seq<Product>) returns (entries: seq<CategoryEntry>)
    ensures entries == Breakdown(ps)
  {
    var acc: map<string, CategoryEntry> := map[];
    var keys: seq<string> := [];
    for i := 0 to |ps|
      invariant acc == Reduce(ps[..i])
      invariant keys == Distinct(Categories(ps[..i]))
    {
      var p := ps[i];
      assert ps[..i + 1] == ps[..i] + [p];
      ReduceKeys(ps[..i], p.category);
      CategoryKeysStep(ps[..i], p, keys);
      var e := EmptyEntry(p.category);
      if p.category in acc {
        e := acc[p.category];
      } else {
        keys := keys + [p.category];
      }
      e := CountProduct(e, p);
      acc := acc[p.category := e];
    }
    assert ps[..|ps|] == ps;
    ReduceTallied(ps);
    entries := seq(|keys|, k requires 0 <= k < |keys| => acc[keys[k]]);
  }

  /** The sums of the breakdown's columns. */
  function SumCounts(es: seq<CategoryEntry>): int
  {
    if es == [] then 0 else es[0].count + SumCounts(es[1..])
  }

  function SumValues(es: seq<CategoryEntry>): int
  {
    if es == [] then 0 else es[0].value + SumValues(es[1..])
  }

  function SumQuantities(es: seq<CategoryEntry>): int
  {
    if es == [] then 0 else es[0].quantity + SumQuantities(es[1..])
  }

  /** The entries of the categories `keys`, in that order. */
  function Entries(ps: seq<Product>, keys: seq<string>): (r: seq<CategoryEntry>)
    ensures |r| == |keys| && forall k :: 0 <= k < |keys| ==> r[k] == EntryFor(ps, keys[k])
  {
    if keys == [] then [] else [EntryFor(ps, keys[0])] + Entries(ps, keys[1..])
  }

  lemma {:induction false} EntriesSums(ps: seq<Product>, keys: seq<string>)
    ensures SumCounts(Entries(ps, keys)) == SumOverGroups(keys, ps, One)
    ensures SumValues(Entries(ps, keys)) == SumOverGroups(keys, ps, Value)
    ensures SumQuantities(Entries(ps, keys)) == SumOverGroups(keys, ps, Quantity)
  {
    if keys != [] {
      EntriesSums(ps, keys[1..]);
      SumOne(Group(ps, keys[0]));
      assert Entries(ps, keys)[1..] == Entries(ps, keys[1..]);
    }
  }

  /** The counts add up to the number of products, the values to the total
      stock value and the quantities to the total quantity; every entry is
      named after its category. */
  lemma BreakdownTotals(ps: seq<Product>)
    ensures SumCounts(Breakdown(ps)) == |ps|
    ensures SumValues(Breakdown(ps)) == TotalValue(ps)
    ensures SumQuantities(Breakdown(ps)) == Sum(ps, Quantity)
    ensures forall k :: 0 <= k < |Breakdown(ps)| ==> Breakdown(ps)[k].name == Distinct(Categories(ps))[k]
  {
    var keys := Distinct(Categories(ps));
    assert Breakdown(ps) == Entries(ps, keys);
    EntriesSums(ps, keys);
    PartitionByCategories(ps, One);
    PartitionByCategories(ps, Value);
    PartitionByCategories(ps, Quantity);
    SumOne(ps);
  }

  /** One entry per distinct category, each category once, and none without
      products. */
  lemma BreakdownCategories(ps: seq<Product>)
    ensures forall e :: e in Breakdown(ps) ==> e.count > 0 && exists p :: p in ps && p.category == e.name
    ensures forall c :: c in Categories(ps) ==> exists e :: e in Breakdown(ps) && e.name == c
    ensures ps == [] ==> Breakdown(ps) == []
  {
    var keys := Distinct(Categories(ps));
    DistinctSpec(Categories(ps));
    forall e | e in Breakdown(ps)
      ensures e.count > 0 && exists p :: p in ps && p.category == e.name
    {
      var k :| 0 <= k < |Breakdown(ps)| && Breakdown(ps)[k] == e;
      var c := keys[k];
      assert c in Categories(ps);
      var p :| p in ps && p.category == c;
      assert p in Group(ps, c);
    }
    forall c | c in Categories(ps)
      ensures exists e :: e in Breakdown(ps) && e.name == c
    {
      var k :| 0 <= k < |keys| && keys[k] == c;
      assert Breakdown(ps)[k].name == c;
    }
  }

  // ---------------------------------------------------------------------
  // The ten products of highest value

  const TopCount: nat := 10

  /** The comparator `(a, b) => (b.quantity * b.price) - (a.quantity * a.price)`
      as a key and an order. */
  function ValueKey(p: Product): SortKey
  {
    Num(Value(p))
  }

  /** The key and order give the comparator's sign: negative when `a` has the
      higher value, positive when `b` does, zero on a tie. */
  lemma ComparatorAgrees(a: Product, b: Product)
    ensures Compare(a, b, ValueKey, Desc) < 0 <==> Value(b) - Value(a) < 0
    ensures Compare(a, b, ValueKey, Desc) > 0 <==> Value(b) - Value(a) > 0
    ensures Compare(a, b, ValueKey, Desc) == 0 <==> Value(b) - Value(a) == 0
  {
  }

  /** `products.sort(...)` as written: sorts the state's own product array in
      place, then takes the first ten. */
  method TopProductsAsWritten(products: array<Product>) returns (top: seq<Product>)
    modifies products
    ensures products[..] == SortedBy(old(products[..]), ValueKey, Desc)
    ensures top == Take(products[..], TopCount)
  {
    StableSort(products, ValueKey, Desc);
    top := Take(products[..], TopCount);
  }

  /** Two products listed cheaper first: after the reports page has computed its
      top list, the state's product list is in the other order. */
  lemma SortReordersState()
    ensures var a := Product(1, "a", "s1", "c", 1, 0, 10, 100, "sup", "loc", 0, InStock);
      var b := Product(2, "b", "s2", "c", 2, 0, 10, 100, "sup", "loc", 0, InStock);
      SortedBy([a, b], ValueKey, Desc) == [b, a] != [a, b]
  {
    var a := Product(1, "a", "s1", "c", 1, 0, 10, 100, "sup", "loc", 0, InStock);
    var b := Product(2, "b", "s2", "c", 2, 0, 10, 100, "sup", "loc", 0, InStock);
    assert [a, b][..1] == [a];
    assert [a][..0] == [];
    assert Insert([], a, ValueKey, Desc) == [a];
    assert Insert([a], b, ValueKey, Desc) == [b, a];
  }

  /** The top list as intended: the first ten of a sorted copy. */
  function TopProducts(ps: seq<Product>): seq<Product>
  {
    Take(SortedBy(ps, ValueKey, Desc), TopCount)
  }

  /** The top list computed on a fresh copy, leaving the state's list alone. */
  method TopProductsOfCopy(ps: seq<Product>) returns (top: seq<Product>)
    ensures top == TopProducts(ps)
  {
    var a := new Product[|ps|](k requires 0 <= k < |ps| => ps[k]);
    assert a[..] == ps;
    StableSort(a, ValueKey, Desc);
    top := Take(a[..], TopCount);
  }

  /** At most ten products, drawn from the list. */
  lemma TopProductsFromList(ps: seq<Product>)
    ensures |TopProducts(ps)| <= TopCount && |TopProducts(ps)| <= |ps|
    ensures multiset(TopProducts(ps)) <= multiset(ps)
  {
    var s := SortedBy(ps, ValueKey, Desc);
    var t := TopProducts(ps);
    assert s == t + s[|t|..];
    assert multiset(s) == multiset(t) + multiset(s[|t|..]);
  }

  /** The list is in non-increasing value, and none of the products left out is
      worth more than one listed. */
  lemma TopProductsByValue(ps: seq<Product>)
    ensures forall i, j :: 0 <= i < j < |TopProducts(ps)| ==> Value(TopProducts(ps)[i]) >= Value(TopProducts(ps)[j])
    ensures forall i, j :: 0 <= i < |TopProducts(ps)| <= j < |ps| ==>
      Value(TopProducts(ps)[i]) >= Value(SortedBy(ps, ValueKey, Desc)[j])
  {
    var s := SortedBy(ps, ValueKey, Desc);
    SortedByOrdered(ps, ValueKey, Desc);
    forall i, j | 0 <= i < j < |s|
      ensures Value(s[i]) >= Value(s[j])
    {
      assert !Before(s[j], s[i], ValueKey, Desc);
    }
  }
}
