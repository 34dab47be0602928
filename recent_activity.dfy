/** The activity feed of src/components/RecentActivity.jsx: the first ten
    ledger entries, each joined with the first product carrying its product id,
    dropping the entries whose product is gone. */
module RecentActivity {
  import opened Collections
  import opened Inventory

  /** How many ledger entries the feed looks at. */
  const FeedLength: nat := 10

  /** A ledger entry together with its product (`{...transaction, product}`). */
  datatype Activity = Activity(transaction: Transaction, product: Product)

  /** The position of the first product with the id, or `|ps|` when none has it. */
  function FirstWithId(ps: seq<Product>, id: int): (k: nat)
    ensures k <= |ps|
    ensures k < |ps| ==> ps[k].id == id
    ensures forall j :: 0 <= j < k ==> ps[j].id != id
  {
    if ps == [] then 0
    else if ps[0].id == id then 0
    else 1 + FirstWithId(ps[1..], id)
  }

  /** `products.find(p => p.id === id)`. */
  function FindById(ps: seq<Product>, id: int): (r: Option<Product>)
    ensures r.None? <==> forall p :: p in ps ==> p.id != id
    ensures r.Some? ==> r.value in ps && r.value.id == id
    ensures r.Some? ==> exists k :: 0 <= k < |ps| && ps[k] == r.value && forall j :: 0 <= j < k ==> ps[j].id != id
  {
    var k := FirstWithId(ps, id);
    if k < |ps| then Some(ps[k]) else None
  }

  /** The entry's product is still in the list. */
  function HasProduct(ps: seq<Product>): Transaction -> bool
  {
    (t: Transaction) => FindById(ps, t.productId).Some?
  }

  /** The entries the join contributes for the first ledger entry. */
  function JoinHead(t: Transaction, ps: seq<Product>): (r: seq<Activity>)
    ensures TransactionsOf(r) == if HasProduct(ps)(t) then [t] else []
    ensures forall e :: e in r ==> e.transaction == t && Some(e.product) == FindById(ps, t.productId)
  {
    match FindById(ps, t.productId)
    case Some(p) => [Activity(t, p)]
    case None => []
  }

  /** `.map(t => ({...t, product: find(...)})).filter(t => t.product)`. */
  function Join(txs: seq<Transaction>, ps: seq<Product>): seq<Activity>
  {
    if txs == [] then []
    else JoinHead(txs[0], ps) + Join(txs[1..], ps)
  }

  function TransactionsOf(es: seq<Activity>): (r: seq<Transaction>)
    ensures |r| == |es| && forall k :: 0 <= k < |es| ==> r[k] == es[k].transaction
  {
    seq(|es|, k requires 0 <= k < |es| => es[k].transaction)
  }

  /** `recentTransactions`. */
  function Recent(s: State): seq<Activity>
  {
    Join(Take(s.transactions, FeedLength), s.products)
  }

  lemma TransactionsOfAppend(a: seq<Activity>, b: seq<Activity>)
    ensures TransactionsOf(a + b) == TransactionsOf(a) + TransactionsOf(b)
  {
  }

  /** The join keeps, in ledger order, exactly the entries whose product exists. */
  lemma {:induction false} JoinKeepsMatched(txs: seq<Transaction>, ps: seq<Product>)
    ensures TransactionsOf(Join(txs, ps)) == Filter(txs, HasProduct(ps))
  {
    if txs != [] {
      JoinKeepsMatched(txs[1..], ps);
      assert Join(txs, ps) == JoinHead(txs[0], ps) + Join(txs[1..], ps);
      TransactionsOfAppend(JoinHead(txs[0], ps), Join(txs[1..], ps));
    }
  }

  /** The join pairs each kept entry with the first product carrying its id. */
  lemma {:induction false} JoinPairsFirstMatch(txs: seq<Transaction>, ps: seq<Product>)
    ensures forall e :: e in Join(txs, ps) ==>
      e.transaction in txs && Some(e.product) == FindById(ps, e.transaction.productId)
  {
    if txs != [] {
      JoinPairsFirstMatch(txs[1..], ps);
      assert Join(txs, ps) == JoinHead(txs[0], ps) + Join(txs[1..], ps);
    }
  }

  /** At most ten entries, drawn from the first ten ledger entries in ledger
      order; each carries the first product whose id is its product id. */
  lemma RecentShape(s: State)
    ensures |Recent(s)| <= FeedLength
    ensures TransactionsOf(Recent(s)) == Filter(Take(s.transactions, FeedLength), HasProduct(s.products))
    ensures forall e :: e in Recent(s) ==>
      && e.transaction in s.transactions[..|Take(s.transactions, FeedLength)|]
      && e.product in s.products
      && e.product.id == e.transaction.productId
      && Some(e.product) == FindById(s.products, e.transaction.productId)
  {
    JoinKeepsMatched(Take(s.transactions, FeedLength), s.products);
    JoinPairsFirstMatch(Take(s.transactions, FeedLength), s.products);
    assert |Recent(s)| == |TransactionsOf(Recent(s))|;
  }

  /** An entry among the first ten is dropped exactly when no product has its
      product id. */
  lemma DroppedIffProductGone(s: State, t: Transaction)
    requires t in Take(s.transactions, FeedLength)
    ensures t in TransactionsOf(Recent(s)) <==> exists p :: p in s.products && p.id == t.productId
  {
    JoinKeepsMatched(Take(s.transactions, FeedLength), s.products);
  }

  /** After a product is deleted, no entry of the feed refers to it. */
  lemma DeletedProductLeavesFeed(s: State, id: int, freshId: int, now: int)
    ensures var r := Apply(s, DeleteProduct(id), freshId, now);
      forall e :: e in Recent(r) ==> e.product.id != id && e.transaction.productId != id
  {
    var r := Apply(s, DeleteProduct(id), freshId, now);
    DeleteRemoves(s, id, freshId, now);
    RecentShape(r);
  }
}
