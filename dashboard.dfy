/** The four counters of the dashboard page (src/pages/Dashboard.jsx). The
    reports page computes the same four figures with the same formulas. */
module Dashboard {
  import opened Collections
  import opened Inventory
  import opened Aggregates

  /** `products.filter(p => p.quantity <= p.minStock).length`. */
  function LowStockCount(ps: seq<Product>): (n: nat)
    ensures n <= |ps|
  {
    |Filter(ps, AtOrBelowMin)|
  }

  /** `products.filter(p => p.quantity === 0).length`. */
  function OutOfStockCount(ps: seq<Product>): (n: nat)
    ensures n <= |ps|
  {
    |Filter(ps, IsEmptyStock)|
  }

  /** `products.reduce((sum, p) => sum + p.quantity * p.price, 0)`. */
  function TotalValue(ps: seq<Product>): int
  {
    Sum(ps, Value)
  }

  datatype Counters = Counters(totalProducts: nat, lowStockItems: nat, outOfStockItems: nat, totalValue: int)

  /** The counters of a product list. */
  function CountersOf(ps: seq<Product>): (c: Counters)
    ensures c.totalProducts == |ps|
    ensures c.lowStockItems <= c.totalProducts && c.outOfStockItems <= c.totalProducts
  {
    Counters(|ps|, LowStockCount(ps), OutOfStockCount(ps), TotalValue(ps))
  }

  /** The low-stock counter includes the products with nothing left, so it is
      never below the out-of-stock counter while minimums are not negative. */
  lemma OutWithinLow(ps: seq<Product>)
    requires forall p :: p in ps ==> p.minStock >= 0
    ensures OutOfStockCount(ps) <= LowStockCount(ps)
  {
    FilterMonotone(ps, IsEmptyStock, AtOrBelowMin);
  }

  /** With a negative minimum an empty product is out of stock but not low. */
  lemma OutNotWithinLowForNegativeMinimum()
    ensures var ps := [Product(1, "n", "s", "c", 0, -1, 0, 1, "sup", "loc", 0, OutOfStock)];
      OutOfStockCount(ps) == 1 && LowStockCount(ps) == 0
  {
    var ps := [Product(1, "n", "s", "c", 0, -1, 0, 1, "sup", "loc", 0, OutOfStock)];
    assert ps[1..] == [];
  }

  /** The stock value is 0 without products and never negative when no
      quantity or price is. */
  lemma TotalValueBounds(ps: seq<Product>)
    ensures ps == [] ==> TotalValue(ps) == 0
    ensures (forall p :: p in ps ==> p.quantity >= 0 && p.price >= 0) ==> TotalValue(ps) >= 0
  {
    if forall p :: p in ps ==> p.quantity >= 0 && p.price >= 0 {
      SumNonNegative(ps, Value);
    }
  }
}
