/** The alert widget of src/components/LowStockAlert.jsx: the products with
    nothing left, then the products at or below their minimum, at most eight
    of them, and the notice about the ones that did not fit. */
module LowStockAlert {
  import opened Collections
  import opened Inventory
  import opened Aggregates

  /** How many alerts the widget lists. */
  const AlertLimit: nat := 8

  /** `lowStockItems`: the products with `0 < quantity <= minStock`, in list order. */
  function LowStockItems(ps: seq<Product>): (r: seq<Product>)
    ensures forall p :: p in r <==> p in ps && 0 < p.quantity <= p.minStock
  {
    Filter(ps, NeedsRestock)
  }

  /** `outOfStockItems`: the products with nothing left, in list order. */
  function OutOfStockItems(ps: seq<Product>): (r: seq<Product>)
    ensures forall p :: p in r <==> p in ps && p.quantity == 0
  {
    Filter(ps, IsEmptyStock)
  }

  /** Everything that needs attention: empty stock first, then low stock. */
  function NeedingAttention(ps: seq<Product>): seq<Product>
  {
    OutOfStockItems(ps) + LowStockItems(ps)
  }

  /** `alertItems`: the first eight products needing attention. */
  function AlertItems(ps: seq<Product>): (r: seq<Product>)
    ensures |r| <= AlertLimit && |r| <= |NeedingAttention(ps)|
    ensures r == NeedingAttention(ps)[..|r|]
    ensures |r| == AlertLimit || r == NeedingAttention(ps)
  {
    Take(NeedingAttention(ps), AlertLimit)
  }

  /** The two filters never take the same product, so no product is listed more
      often than it is in the state, and empty-stock alerts come before all
      low-stock ones. */
  lemma AlertItemsFromState(ps: seq<Product>)
    ensures multiset(NeedingAttention(ps)) <= multiset(ps)
    ensures multiset(AlertItems(ps)) <= multiset(ps)
    ensures NoDuplicates(ps) ==> NoDuplicates(AlertItems(ps))
    ensures forall i, j :: 0 <= i < j < |AlertItems(ps)| && AlertItems(ps)[j].quantity == 0 ==>
      AlertItems(ps)[i].quantity == 0
  {
    FilterDisjoint(ps, IsEmptyStock, NeedsRestock);
    var all := NeedingAttention(ps);
    var r := AlertItems(ps);
    assert all == r + all[|r|..];
    assert multiset(all) == multiset(r) + multiset(all[|r|..]);
    if NoDuplicates(ps) {
      SubMultisetNoDuplicates(r, ps);
    }
    var out := OutOfStockItems(ps);
    forall i, j | 0 <= i < j < |r|
      ensures r[j].quantity == 0 ==> r[i].quantity == 0
    {
      if i < |out| {
        assert r[i] in out;
      } else {
        assert r[j] in LowStockItems(ps);
      }
    }
  }

  // ---------------------------------------------------------------------
  // The overflow notice

  /** `alertItems.length > 8`, the condition of the notice as written. */
  predicate OverflowNoticeAsWritten(ps: seq<Product>)
  {
    |AlertItems(ps)| > AlertLimit
  }

  /** The notice as written never shows: the list it measures was already cut
      to eight. */
  lemma OverflowNoticeNeverShown(ps: seq<Product>)
    ensures !OverflowNoticeAsWritten(ps)
  {
  }

  /** Nine products with nothing left: nine need attention, eight are listed,
      and the notice as written stays hidden. */
  lemma NineEmptyProducts()
    ensures var p := Product(1, "n", "s", "c", 0, 5, 10, 100, "sup", "loc", 0, OutOfStock);
      var ps := seq(9, k => p);
      |NeedingAttention(ps)| == 9 && |AlertItems(ps)| == 8 && !OverflowNoticeAsWritten(ps)
  {
    var p := Product(1, "n", "s", "c", 0, 5, 10, 100, "sup", "loc", 0, OutOfStock);
    var ps := seq(9, k => p);
    FilterKeepsAll(ps, IsEmptyStock);
    FilterKeepsNone(ps, NeedsRestock);
    assert NeedingAttention(ps) == ps;
  }

  /** How many products needing attention the list leaves out. */
  function HiddenCount(ps: seq<Product>): (n: nat)
    ensures n == if |NeedingAttention(ps)| > AlertLimit then |NeedingAttention(ps)| - AlertLimit else 0
  {
    |NeedingAttention(ps)| - |AlertItems(ps)|
  }

  /** The notice as intended: shown, with the number of products left out,
      exactly when more than eight products need attention. */
  predicate OverflowNotice(ps: seq<Product>)
  {
    HiddenCount(ps) > 0
  }

  lemma OverflowNoticeShownIff(ps: seq<Product>)
    ensures OverflowNotice(ps) <==> |OutOfStockItems(ps)| + |LowStockItems(ps)| > AlertLimit
    ensures OverflowNotice(ps) ==> |AlertItems(ps)| == AlertLimit
  {
  }
}
