/** The per-category chart of src/components/InventoryChart.jsx: one row per
    category, in order of first occurrence, with the number of products, their
    stock value and how many of them are in stock, low or empty. */
module InventoryChart {
  import opened Collections
  import opened Inventory
  import opened Aggregates

  datatype ChartRow = ChartRow(
    category: string, totalItems: nat, totalValue: int,
    inStock: nat, lowStock: nat, outOfStock: nat)

  /** The chart's own classification: nothing left first, then at or below
      the minimum, else in stock. */
  function BucketOf(p: Product): Status
  {
    if p.quantity == 0 then OutOfStock
    else if p.quantity <= p.minStock then LowStock
    else InStock
  }

  function InBucket(b: Status): Product -> bool
  {
    (p: Product) => BucketOf(p) == b
  }

  function CountIn(g: seq<Product>, b: Status): nat
  {
    |Filter(g, InBucket(b))|
  }

  /** The row the reduce builds for category `c`. */
  function RowFor(ps: seq<Product>, c: string): ChartRow
  {
    var g := Group(ps, c);
    ChartRow(c, |g|, Sum(g, Value), CountIn(g, InStock), CountIn(g, LowStock), CountIn(g, OutOfStock))
  }

  /** The rows for the categories `keys`, in that order. */
  function Rows(ps: seq<Product>, keys: seq<string>): (r: seq<ChartRow>)
    ensures |r| == |keys| && forall k :: 0 <= k < |keys| ==> r[k] == RowFor(ps, keys[k])
  {
    if keys == [] then [] else [RowFor(ps, keys[0])] + Rows(ps, keys[1..])
  }

  /** `Object.values(categoryData)`: a row per distinct category. */
  function Chart(ps: seq<Product>): seq<ChartRow>
  {
    Rows(ps, Distinct(Categories(ps)))
  }

  lemma CountInAppend(g: seq<Product>, p: Product, b: Status)
    ensures CountIn(g + [p], b) == CountIn(g, b) + (if BucketOf(p) == b then 1 else 0)
  {
    FilterAppend(g, [p], InBucket(b));
    assert [p][1..] == [];
  }

  /** What one step of the reduce does to the row of the product's category. */
  function Tally(r: ChartRow, p: Product): ChartRow
  {
    r.(totalItems := r.totalItems + 1, totalValue := r.totalValue + Value(p),
       inStock := r.inStock + (if BucketOf(p) == InStock then 1 else 0),
       lowStock := r.lowStock + (if BucketOf(p) == LowStock then 1 else 0),
       outOfStock := r.outOfStock + (if BucketOf(p) == OutOfStock then 1 else 0))
  }

  /** One more product tallies itself into its own category's row. */
  lemma RowForAppendSame(ps: seq<Product>, p: Product)
    ensures RowFor(ps + [p], p.category) == Tally(RowFor(ps, p.category), p)
  {
    var c := p.category;
    GroupAppend(ps, p, c);
    var g := Group(ps, c);
    SumAppendOne(g, p, Value);
    CountInAppend(g, p, InStock);
    CountInAppend(g, p, LowStock);
    CountInAppend(g, p, OutOfStock);
  }

  /** One more product leaves the rows of the other categories alone. */
  lemma RowForAppendOther(ps: seq<Product>, p: Product, c: string)
    requires p.category != c
    ensures RowFor(ps + [p], c) == RowFor(ps, c)
  {
    GroupAppend(ps, p, c);
    assert Group(ps, c) + [] == Group(ps, c);
  }

  /** The row a category starts with when its first product is seen. */
  function EmptyRow(c: string): ChartRow
  {
    ChartRow(c, 0, 0, 0, 0, 0)
  }

  /** The accumulator after a prefix holds, keyed by category and in order of
      first occurrence, the rows of that prefix. */
  ghost predicate Accumulated(ps: seq<Product>, acc: map<string, ChartRow>, keys: seq<string>)
  {
    && keys == Distinct(Categories(ps))
    && (forall c :: c in acc <==> c in keys)
    && (forall c :: c in acc ==> acc[c] == RowFor(ps, c))
  }

  /** The start row of a category is its row in the prefix. */
  lemma StartRow(ps: seq<Product>, acc: map<string, ChartRow>, keys: seq<string>, c: string)
    requires Accumulated(ps, acc, keys)
    ensures (if c in acc then acc[c] else EmptyRow(c)) == RowFor(ps, c)
  {
    if c !in acc {
      DistinctSpec(Categories(ps));
      GroupOfAbsent(ps, c);
    }
  }

  /** Replacing the row of the product's category by its new row keeps every
      row in step with the longer prefix. */
  lemma RowsStep(ps: seq<Product>, p: Product, acc: map<string, ChartRow>, row: ChartRow)
    requires forall d :: d in acc ==> acc[d] == RowFor(ps, d)
    requires row == RowFor(ps + [p], p.category)
    ensures forall d :: d in acc[p.category := row] ==> acc[p.category := row][d] == RowFor(ps + [p], d)
  {
    forall d | d in acc[p.category := row]
      ensures acc[p.category := row][d] == RowFor(ps + [p], d)
    {
      if d != p.category {
        RowForAppendOther(ps, p, d);
      }
    }
  }

  /** One step of the reduce over a dictionary keyed by category: the
      product's category gets an empty entry on first sight and the product is
      tallied into it. */
  function Step(acc: map<string, ChartRow>, p: Product): map<string, ChartRow>
  {
    var c := p.category;
    acc[c := Tally(if c in acc then acc[c] else EmptyRow(c), p)]
  }

  /** The dictionary the reduce builds from a product list. */
  function Reduce(ps: seq<Product>): map<string, ChartRow>
  {
    if ps == [] then map[] else Step(Reduce(ps[..|ps| - 1]), ps[|ps| - 1])
  }

  /** A new entry for a key adds the key to the list of keys unless it is
      already there. */
  lemma DomainStep(acc: map<string, ChartRow>, keys: seq<string>, c: string, row: ChartRow, keys': seq<string>)
    requires forall d :: d in acc <==> d in keys
    requires keys' == if c in acc then keys else keys + [c]
    ensures forall d :: d in acc[c := row] <==> d in keys'
  {
  }

  /** One step keeps the accumulator in step with the prefix. */
  lemma ChartStep(ps: seq<Product>, p: Product, acc: map<string, ChartRow>, keys: seq<string>,
                  acc': map<string, ChartRow>, keys': seq<string>)
    requires Accumulated(ps, acc, keys)
    requires acc' == acc[p.category := Tally(if p.category in acc then acc[p.category] else EmptyRow(p.category), p)]
    requires keys' == if p.category in acc then keys else keys + [p.category]
    ensures Accumulated(ps + [p], acc', keys')
  {
    var c := p.category;
    CategoryKeysStep(ps, p, keys);
    DomainStep(acc, keys, c, acc'[c], keys');
    StartRow(ps, acc, keys, c);
    RowForAppendSame(ps, p);
    RowsStep(ps, p, acc, acc'[c]);
  }

  /** The reduce's dictionary holds the row of every category of the list and
      no other key. */
  lemma {:induction false} ReduceAccumulated(ps: seq<Product>)
    ensures Accumulated(ps, Reduce(ps), Distinct(Categories(ps)))
  {
    if ps != [] {
      var init, p := ps[..|ps| - 1], ps[|ps| - 1];
      ReduceAccumulated(init);
      assert ps == init + [p];
      var keys := Distinct(Categories(init));
      ChartStep(init, p, Reduce(init), keys, Reduce(ps), if p.category in Reduce(init) then keys else keys + [p.category]);
    }
  }

  /** A category has an entry exactly when it has been seen. */
  lemma ReduceKeys(ps: seq<Product>, c: string)
    ensures c in Reduce(ps) <==> c in Distinct(Categories(ps))
  {
    ReduceAccumulated(ps);
  }

  /** The increments the reduce applies to the entry of a product's category. */
  method CountProduct(r: ChartRow, p: Product) returns (r': ChartRow)
    ensures r' == Tally(r, p)
  {
    r' := r.(totalItems := r.totalItems + 1, totalValue := r.totalValue + Value(p));
    if p.quantity == 0 {
      r' := r'.(outOfStock := r'.outOfStock + 1);
    } else if p.quantity <= p.minStock {
      r' := r'.(lowStock := r'.lowStock + 1);
    } else {
      r' := r'.(inStock := r'.inStock + 1);
    }
  }

  /** `chartData`: the reduce over the products into a dictionary keyed by
      category, whose entries are created on first sight and counted up in
      place, followed by `Object.values`. */
  method ChartData(ps: seq<Product>) returns (rows: seq<ChartRow>)
    ensures rows == Chart(ps)
  {
    var acc: map<string, ChartRow> := map[];
    var keys: seq<string> := [];
    for i := 0 to |ps|
      invariant acc == Reduce(ps[..i])
      invariant keys == Distinct(Categories(ps[..i]))
    {
      var p := ps[i];
      assert ps[..i + 1] == ps[..i] + [p];
      ReduceKeys(ps[..i], p.category);
      CategoryKeysStep(ps[..i], p, keys);
      var row := EmptyRow(p.category);
      if p.category in acc {
        row := acc[p.category];
      } else {
        keys := keys + [p.category];
      }
      row := CountProduct(row, p);
      acc := acc[p.category := row];
    }
    assert ps[..|ps|] == ps;
    ReduceAccumulated(ps);
    rows := seq(|keys|, k requires 0 <= k < |keys| => acc[keys[k]]);
    ChartOfAccumulated(ps, acc, keys, rows);
  }

  /** `Object.values` of the finished accumulator is the chart. */
  lemma ChartOfAccumulated(ps: seq<Product>, acc: map<string, ChartRow>, keys: seq<string>, rows: seq<ChartRow>)
    requires Accumulated(ps, acc, keys)
    requires |rows| == |keys| && forall k :: 0 <= k < |keys| ==> rows[k] == acc[keys[k]]
    ensures rows == Chart(ps)
  {
  }

  // ---------------------------------------------------------------------
  // Properties of the chart

  /** The three buckets split a group. */
  lemma {:induction false} BucketsSplit(g: seq<Product>)
    ensures CountIn(g, InStock) + CountIn(g, LowStock) + CountIn(g, OutOfStock) == |g|
  {
    if g != [] {
      BucketsSplit(g[1..]);
    }
  }

  /** Every row's status counts add up to its number of items, and its value
      is the stock value of its category. */
  lemma RowsBalanced(ps: seq<Product>)
    ensures forall r :: r in Chart(ps) ==>
      r.inStock + r.lowStock + r.outOfStock == r.totalItems
      && r.totalValue == Sum(Group(ps, r.category), Value)
      && r.totalItems == |Group(ps, r.category)|
  {
    forall r | r in Chart(ps)
      ensures r.inStock + r.lowStock + r.outOfStock == r.totalItems
    {
      BucketsSplit(Group(ps, r.category));
    }
  }

  /** One row per distinct category, in order of first occurrence; no products
      give no rows. */
  lemma ChartCategories(ps: seq<Product>)
    ensures |Chart(ps)| == |Distinct(Categories(ps))|
    ensures forall k :: 0 <= k < |Chart(ps)| ==> Chart(ps)[k].category == Distinct(Categories(ps))[k]
    ensures ps == [] ==> Chart(ps) == []
  {
  }

  /** The sum of a row field over rows. */
  function SumItems(rows: seq<ChartRow>): int
  {
    if rows == [] then 0 else rows[0].totalItems + SumItems(rows[1..])
  }

  function SumValues(rows: seq<ChartRow>): int
  {
    if rows == [] then 0 else rows[0].totalValue + SumValues(rows[1..])
  }

  lemma {:induction false} RowsSums(ps: seq<Product>, keys: seq<string>)
    ensures SumItems(Rows(ps, keys)) == SumOverGroups(keys, ps, One)
    ensures SumValues(Rows(ps, keys)) == SumOverGroups(keys, ps, Value)
  {
    if keys != [] {
      RowsSums(ps, keys[1..]);
      SumOne(Group(ps, keys[0]));
      assert Rows(ps, keys)[1..] == Rows(ps, keys[1..]);
    }
  }

  /** The items of all rows add up to the number of products, and the values
      to the total stock value. */
  lemma ChartTotals(ps: seq<Product>)
    ensures SumItems(Chart(ps)) == |ps|
    ensures SumValues(Chart(ps)) == Sum(ps, Value)
  {
    RowsSums(ps, Distinct(Categories(ps)));
    PartitionByCategories(ps, One);
    PartitionByCategories(ps, Value);
    SumOne(ps);
  }

  /** For quantities and minimums that are not negative the chart's rule is
      the reducer's status rule, so for a consistent state it is the stored
      status. */
  lemma BucketIsStatus(p: Product)
    ensures p.quantity >= 0 && p.minStock >= 0 ==> BucketOf(p) == StatusOf(p.quantity, p.minStock)
    ensures ProductOk(p) ==> BucketOf(p) == p.status
  {
  }

  /** With a negative minimum they differ: an empty product counts as out of
      stock in the chart and the rule calls it in stock. */
  lemma BucketDiffersForNegativeMinimum()
    ensures var p := Product(1, "n", "s", "c", 0, -1, 0, 1, "sup", "loc", 0, InStock);
      BucketOf(p) == OutOfStock && StatusOf(p.quantity, p.minStock) == InStock
  {
  }
}
