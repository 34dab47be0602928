/** The stock predicates, measures, sums and per-category groups that the
    dashboard, the reports page, the alert widget, the chart and the settings
    page compute over the product list. */
module Aggregates {
  import opened Collections
  import opened Inventory

  // ---------------------------------------------------------------------
  // Stock predicates used by the views

  /** `p.quantity <= p.minStock`: the dashboard's and the report's "low stock"
      test, which also holds for products with nothing left. */
  predicate AtOrBelowMin(p: Product)
  {
    p.quantity <= p.minStock
  }

  /** `p.quantity === 0`. */
  predicate IsEmptyStock(p: Product)
  {
    p.quantity == 0
  }

  /** `p.quantity <= p.minStock && p.quantity > 0`: the alert widget's and the
      settings page's "low stock" test, which leaves out empty stock. */
  predicate NeedsRestock(p: Product)
  {
    p.quantity <= p.minStock && p.quantity > 0
  }

  /** `p.quantity > p.minStock`; the complement of `AtOrBelowMin`. */
  predicate AboveMin(p: Product)
  {
    p.quantity > p.minStock
  }

  // ---------------------------------------------------------------------
  // Measures and sums

  /** The stock value of a product, `quantity * price`, in cents. */
  function Value(p: Product): int
  {
    p.quantity * p.price
  }

  function Quantity(p: Product): int
  {
    p.quantity
  }

  function One(p: Product): int
  {
    1
  }

  /** `ps.reduce((sum, p) => sum + m(p), 0)`. */
  function Sum(ps: seq<Product>, m: Product -> int): int
  {
    if ps == [] then 0 else Sum(ps[..|ps| - 1], m) + m(ps[|ps| - 1])
  }

  lemma {:induction false} SumAppend(a: seq<Product>, b: seq<Product>, m: Product -> int)
    ensures Sum(a + b, m) == Sum(a, m) + Sum(b, m)
  {
    if b == [] {
      assert a + b == a;
    } else {
      assert (a + b)[..|a + b| - 1] == a + b[..|b| - 1];
      SumAppend(a, b[..|b| - 1], m);
    }
  }

  /** One more product adds its measure. */
  lemma SumAppendOne(g: seq<Product>, p: Product, m: Product -> int)
    ensures Sum(g + [p], m) == Sum(g, m) + m(p)
  {
    assert (g + [p])[..|g|] == g;
  }

  /** Counting with the measure 1 is the length. */
  lemma {:induction false} SumOne(ps: seq<Product>)
    ensures Sum(ps, One) == |ps|
  {
    if ps != [] {
      SumOne(ps[..|ps| - 1]);
    }
  }

  /** A sum of a measure that is never negative is not negative. */
  lemma {:induction false} SumNonNegative(ps: seq<Product>, m: Product -> int)
    requires forall p :: p in ps ==> m(p) >= 0
    ensures Sum(ps, m) >= 0
  {
    if ps != [] {
      assert ps[|ps| - 1] in ps;
      SumNonNegative(ps[..|ps| - 1], m);
    }
  }

  // ---------------------------------------------------------------------
  // Categories and groups

  /** `products.map(p => p.category)`. */
  function Categories(ps: seq<Product>): (r: seq<string>)
    ensures |r| == |ps|
    ensures forall c :: c in r <==> exists p :: p in ps && p.category == c
  {
    var r := seq(|ps|, k requires 0 <= k < |ps| => ps[k].category);
    assert forall p :: p in ps ==> p.category in r by {
      forall p | p in ps ensures p.category in r {
        var k :| 0 <= k < |ps| && ps[k] == p;
        assert r[k] == p.category;
      }
    }
    r
  }

  lemma CategoriesAppend(ps: seq<Product>, p: Product)
    ensures Categories(ps + [p]) == Categories(ps) + [p.category]
  {
  }

  /** The categories seen so far grow by the product's category exactly when
      it is new. */
  lemma CategoryKeysStep(ps: seq<Product>, p: Product, keys: seq<string>)
    requires keys == Distinct(Categories(ps))
    ensures (if p.category in keys then keys else keys + [p.category]) == Distinct(Categories(ps + [p]))
  {
    CategoriesAppend(ps, p);
    DistinctSnoc(Categories(ps), p.category);
  }

  /** The test `p.category === c`, as a value that filters can take. */
  function InCategory(c: string): Product -> bool
  {
    (p: Product) => p.category == c
  }

  /** The products of one category, in list order. */
  function Group(ps: seq<Product>, c: string): (r: seq<Product>)
    ensures forall p :: p in r <==> p in ps && p.category == c
  {
    Filter(ps, InCategory(c))
  }

  /** Adding a product at the end adds it at the end of its own group only. */
  lemma GroupAppend(ps: seq<Product>, p: Product, c: string)
    ensures Group(ps + [p], c) == Group(ps, c) + (if p.category == c then [p] else [])
  {
    FilterAppend(ps, [p], InCategory(c));
    assert [p][1..] == [];
  }

  /** A category that no product has has an empty group. */
  lemma GroupOfAbsent(ps: seq<Product>, c: string)
    requires c !in Categories(ps)
    ensures Group(ps, c) == []
  {
    FilterKeepsNone(ps, InCategory(c));
  }

  // ---------------------------------------------------------------------
  // The per-category totals add up to the whole

  /** The sum of `m` over the groups of the categories `keys`. */
  function SumOverGroups(keys: seq<string>, ps: seq<Product>, m: Product -> int): int
  {
    if keys == [] then 0 else Sum(Group(ps, keys[0]), m) + SumOverGroups(keys[1..], ps, m)
  }

  lemma {:induction false} SumOverGroupsAppend(keys: seq<string>, ps: seq<Product>, p: Product, m: Product -> int)
    ensures SumOverGroups(keys, ps + [p], m) == SumOverGroups(keys, ps, m) + SumOverGroups(keys, [p], m)
  {
    if keys != [] {
      GroupAppend(ps, p, keys[0]);
      GroupAppend([], p, keys[0]);
      assert [] + [p] == [p];
      SumAppend(Group(ps, keys[0]), Group([p], keys[0]), m);
      SumOverGroupsAppend(keys[1..], ps, p, m);
    }
  }

  /** A single product is counted once, in its own category's group. */
  lemma {:induction false} SumOverGroupsSingle(keys: seq<string>, p: Product, m: Product -> int)
    requires NoDuplicates(keys)
    ensures SumOverGroups(keys, [p], m) == if p.category in keys then m(p) else 0
  {
    if keys != [] {
      GroupAppend([], p, keys[0]);
      assert [] + [p] == [p];
      assert Sum([p], m) == m(p);
      assert NoDuplicates(keys[1..]);
      SumOverGroupsSingle(keys[1..], p, m);
      assert keys == [keys[0]] + keys[1..];
    }
  }

  /** Summing per category over categories that cover every product, each
      named once, gives the sum over all products. */
  lemma {:induction false} Partition(keys: seq<string>, ps: seq<Product>, m: Product -> int)
    requires NoDuplicates(keys)
    requires forall p :: p in ps ==> p.category in keys
    ensures SumOverGroups(keys, ps, m) == Sum(ps, m)
  {
    if ps == [] {
      SumOverGroupsEmpty(keys, m);
    } else {
      var init, last := ps[..|ps| - 1], ps[|ps| - 1];
      assert ps == init + [last];
      assert last in ps;
      Partition(keys, init, m);
      SumOverGroupsAppend(keys, init, last, m);
      SumOverGroupsSingle(keys, last, m);
    }
  }

  lemma {:induction false} SumOverGroupsEmpty(keys: seq<string>, m: Product -> int)
    ensures SumOverGroups(keys, [], m) == 0
  {
    if keys != [] {
      SumOverGroupsEmpty(keys[1..], m);
    }
  }

  /** The distinct categories, in order of first occurrence, partition the list. */
  lemma PartitionByCategories(ps: seq<Product>, m: Product -> int)
    ensures SumOverGroups(Distinct(Categories(ps)), ps, m) == Sum(ps, m)
  {
    DistinctSpec(Categories(ps));
    Partition(Distinct(Categories(ps)), ps, m);
  }
}
