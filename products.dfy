/** The product list of src/pages/Products.jsx: the search and filter
    predicate, the comparator sort of the filtered copy, and the category
    options of the filter drop-down. */
module Products {
  import opened Text
  import opened Collections
  import opened Sorting
  import opened Inventory
  import opened Aggregates

  /** The three sort fields the drop-down offers. */
  datatype SortField = ByName | ByQuantity | ByPrice

  /** The search term occurs, lower-cased, in the lower-cased name or SKU. */
  predicate MatchesSearch(p: Product, term: string)
  {
    Contains(Lower(p.name), Lower(term)) || Contains(Lower(p.sku), Lower(term))
  }

  /** The filter callback: the search plus the category filter (`""` for all)
      and the status filter (`None` for all). */
  predicate Matches(p: Product, term: string, category: string, status: Option<Status>)
  {
    MatchesSearch(p, term)
    && (category == "" || p.category == category)
    && (status.None? || p.status == status.value)
  }

  function Matcher(term: string, category: string, status: Option<Status>): Product -> bool
  {
    (p: Product) => Matches(p, term, category, status)
  }

  /** `products.filter(...)`. */
  function Filtered(ps: seq<Product>, term: string, category: string, status: Option<Status>): (r: seq<Product>)
    ensures forall p :: p in r <==> p in ps && Matches(p, term, category, status)
  {
    Filter(ps, Matcher(term, category, status))
  }

  /** `a[sortBy]`, lower-cased when it is a string. */
  function KeyOf(field: SortField): Product -> SortKey
  {
    match field
    case ByName => (p: Product) => Text(Lower(p.name))
    case ByQuantity => (p: Product) => Num(p.quantity)
    case ByPrice => (p: Product) => Num(p.price)
  }

  /** The list the page shows: the filtered products in comparator order. */
  function View(ps: seq<Product>, term: string, category: string, status: Option<Status>,
                field: SortField, order: SortOrder): seq<Product>
  {
    SortedBy(Filtered(ps, term, category, status), KeyOf(field), order)
  }

  /** `filteredProducts`: filters into a fresh array and sorts that array in place. */
  method FilteredProducts(ps: seq<Product>, term: string, category: string, status: Option<Status>,
                          field: SortField, order: SortOrder) returns (r: seq<Product>)
    ensures r == View(ps, term, category, status, field, order)
  {
    var f := Filtered(ps, term, category, status);
    var a := new Product[|f|](k requires 0 <= k < |f| => f[k]);
    assert a[..] == f;
    StableSort(a, KeyOf(field), order);
    r := a[..];
  }

  /** A product is searched for by a term when the term, lower-cased, occurs at
      some position of its lower-cased name or SKU. */
  lemma MatchesSearchIff(p: Product, term: string)
    ensures MatchesSearch(p, term) <==>
      (exists i :: 0 <= i <= |Lower(p.name)| && StartsWith(Lower(p.name)[i..], Lower(term)))
      || (exists i :: 0 <= i <= |Lower(p.sku)| && StartsWith(Lower(p.sku)[i..], Lower(term)))
  {
    ContainsIff(Lower(p.name), Lower(term));
    ContainsIff(Lower(p.sku), Lower(term));
  }

  /** An empty category or status filter imposes nothing; a set one keeps only
      exact matches. */
  lemma FilterFields(p: Product, term: string, category: string, status: Option<Status>)
    ensures category == "" && status.None? ==> (Matches(p, term, category, status) <==> MatchesSearch(p, term))
    ensures category != "" && Matches(p, term, category, status) ==> p.category == category
    ensures status.Some? && Matches(p, term, category, status) ==> p.status == status.value
  {
  }

  /** The list shows exactly the matching products, each as often as it occurs
      among the matching ones in the state, never more often than in the state. */
  lemma ViewContents(ps: seq<Product>, term: string, category: string, status: Option<Status>,
                     field: SortField, order: SortOrder)
    ensures var v := View(ps, term, category, status, field, order);
      && multiset(v) == multiset(Filtered(ps, term, category, status))
      && multiset(v) <= multiset(ps)
      && (forall p :: p in v <==> p in ps && Matches(p, term, category, status))
  {
    var f := Filtered(ps, term, category, status);
    FilterSubMultiset(ps, Matcher(term, category, status));
    var v := View(ps, term, category, status, field, order);
    forall p ensures p in v <==> p in f {
      assert p in v <==> p in multiset(v);
      assert p in f <==> p in multiset(f);
    }
  }

  /** With an empty search and no filters every product is listed. */
  lemma NoFiltersKeepsAll(ps: seq<Product>, field: SortField, order: SortOrder)
    ensures Filtered(ps, "", "", None) == ps
    ensures multiset(View(ps, "", "", None, field, order)) == multiset(ps)
  {
    forall p | p in ps ensures Matcher("", "", None)(p) {
      ContainsEmpty(Lower(p.name));
    }
    FilterKeepsAll(ps, Matcher("", "", None));
  }

  /** The list is in comparator order. */
  lemma ViewOrdered(ps: seq<Product>, term: string, category: string, status: Option<Status>,
                    field: SortField, order: SortOrder)
    ensures Ordered(View(ps, term, category, status, field, order), KeyOf(field), order)
  {
    SortedByOrdered(Filtered(ps, term, category, status), KeyOf(field), order);
  }

  /** Products with equal sort keys keep the order they have in the state. */
  lemma ViewStable(ps: seq<Product>, term: string, category: string, status: Option<Status>,
                   field: SortField, order: SortOrder, k: SortKey)
    ensures WithKey(View(ps, term, category, status, field, order), KeyOf(field), k)
         == WithKey(Filtered(ps, term, category, status), KeyOf(field), k)
  {
    SortedByStable(Filtered(ps, term, category, status), KeyOf(field), order, k);
  }

  /** Filtering and sorting the shown list again with the same settings shows
      the same list. */
  lemma ViewIdempotent(ps: seq<Product>, term: string, category: string, status: Option<Status>,
                       field: SortField, order: SortOrder)
    ensures View(View(ps, term, category, status, field, order), term, category, status, field, order)
         == View(ps, term, category, status, field, order)
  {
    var v := View(ps, term, category, status, field, order);
    ViewContents(ps, term, category, status, field, order);
    FilterKeepsAll(v, Matcher(term, category, status));
    SortedByIdempotent(Filtered(ps, term, category, status), KeyOf(field), order);
  }

  /** `[...new Set(products.map(p => p.category))]`: every category of the list
      once, in order of first occurrence. */
  function CategoryOptions(ps: seq<Product>): (r: seq<string>)
    ensures NoDuplicates(r)
    ensures forall c :: c in r <==> exists p :: p in ps && p.category == c
    ensures forall i, j :: 0 <= i < j < |r| ==>
      r[i] in Categories(ps) && r[j] in Categories(ps)
      && FirstIndex(Categories(ps), r[i]) < FirstIndex(Categories(ps), r[j])
  {
    DistinctSpec(Categories(ps));
    Distinct(Categories(ps))
  }
}
