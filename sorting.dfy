/** `Array.prototype.sort` with the comparators the views pass it. Each
    comparator orders by a key, ascending or descending, and returns 0 for equal
    keys; the sort is stable, as ECMAScript requires. */
module Sorting {
  import opened Text

  /** A comparison key: a (lower-cased) string or a number. */
  datatype SortKey = Text(s: string) | Num(n: int)

  datatype SortOrder = Asc | Desc

  /** `a < b` on keys. Numbers compare numerically, strings lexicographically;
      a comparator never mixes the two, and placing numbers first only makes the
      order total. */
  predicate KeyLess(a: SortKey, b: SortKey)
  {
    match a
    case Num(x) => (match b case Num(y) => x < y case Text(_) => true)
    case Text(x) => (match b case Num(_) => false case Text(y) => LexLess(x, y))
  }

  lemma KeyLessIrreflexive(a: SortKey)
    ensures !KeyLess(a, a)
  {
    if a.Text? {
      LexLessIrreflexive(a.s);
    }
  }

  lemma KeyLessTransitive(a: SortKey, b: SortKey, c: SortKey)
    requires KeyLess(a, b) && KeyLess(b, c)
    ensures KeyLess(a, c)
  {
    if a.Text? && b.Text? && c.Text? {
      LexLessTransitive(a.s, b.s, c.s);
    }
  }

  lemma KeyLessTotal(a: SortKey, b: SortKey)
    requires a != b
    ensures KeyLess(a, b) || KeyLess(b, a)
  {
    if a.Text? && b.Text? {
      LexLessTotal(a.s, b.s);
    }
  }

  /** The comparator `(a, b) => ...` of the views: negative when `a` goes first,
      positive when `b` does, 0 when their keys are equal. */
  function Compare<T>(x: T, y: T, key: T -> SortKey, order: SortOrder): int
  {
    var a, b := key(x), key(y);
    if order == Asc then (if KeyLess(a, b) then -1 else if KeyLess(b, a) then 1 else 0)
    else (if KeyLess(b, a) then -1 else if KeyLess(a, b) then 1 else 0)
  }

  /** `x` must be placed before `y`. */
  predicate Before<T>(x: T, y: T, key: T -> SortKey, order: SortOrder)
  {
    Compare(x, y, key, order) < 0
  }

  /** The comparator is antisymmetric and returns 0 exactly for equal keys. */
  lemma CompareProperties<T>(x: T, y: T, key: T -> SortKey, order: SortOrder)
    ensures Compare(x, y, key, order) == -Compare(y, x, key, order)
    ensures Compare(x, y, key, order) == 0 <==> key(x) == key(y)
  {
    KeyLessIrreflexive(key(x));
    if key(x) != key(y) {
      KeyLessTotal(key(x), key(y));
    }
    if KeyLess(key(x), key(y)) && KeyLess(key(y), key(x)) {
      KeyLessTransitive(key(x), key(y), key(x));
    }
  }

  lemma BeforeTransitive<T>(x: T, y: T, z: T, key: T -> SortKey, order: SortOrder)
    requires Before(x, y, key, order) && Before(y, z, key, order)
    ensures Before(x, z, key, order)
  {
    if order == Asc {
      KeyLessTransitive(key(x), key(y), key(z));
    } else {
      KeyLessTransitive(key(z), key(y), key(x));
    }
    CompareProperties(x, y, key, order);
    CompareProperties(y, z, key, order);
    CompareProperties(x, z, key, order);
  }

  /** If `a < c` then any `b` lies above `a` or below `c`. */
  lemma KeyLessSplit(a: SortKey, b: SortKey, c: SortKey)
    ensures KeyLess(a, c) ==> KeyLess(a, b) || KeyLess(b, c)
  {
    if KeyLess(a, c) && !KeyLess(a, b) && b != a {
      KeyLessTotal(a, b);
      KeyLessTransitive(b, a, c);
    }
  }

  /** Not going before is transitive too: the keys are totally ordered. */
  lemma NotBeforeTransitive<T>(x: T, y: T, z: T, key: T -> SortKey, order: SortOrder)
    ensures !Before(x, y, key, order) && !Before(y, z, key, order) ==> !Before(x, z, key, order)
  {
    if order == Asc {
      KeyLessSplit(key(x), key(y), key(z));
    } else {
      KeyLessSplit(key(z), key(y), key(x));
    }
  }

  /** No element is followed by one that should go before it. */
  predicate Ordered<T>(s: seq<T>, key: T -> SortKey, order: SortOrder)
  {
    forall i, j :: 0 <= i < j < |s| ==> !Before(s[j], s[i], key, order)
  }

  /** Inserting `x` after the last element that does not have to follow it. */
  function Insert<T>(s: seq<T>, x: T, key: T -> SortKey, order: SortOrder): (r: seq<T>)
    ensures multiset(r) == multiset(s) + multiset{x}
    ensures |r| == |s| + 1
  {
    if s == [] then [x]
    else if Before(x, s[|s| - 1], key, order) then
      assert s == s[..|s| - 1] + [s[|s| - 1]];
      Insert(s[..|s| - 1], x, key, order) + [s[|s| - 1]]
    else s + [x]
  }

  /** The result of a stable sort: insertion of each element in turn. */
  function SortedBy<T>(s: seq<T>, key: T -> SortKey, order: SortOrder): (r: seq<T>)
    ensures multiset(r) == multiset(s)
    ensures |r| == |s|
  {
    if s == [] then []
    else
      assert s == s[..|s| - 1] + [s[|s| - 1]];
      Insert(SortedBy(s[..|s| - 1], key, order), s[|s| - 1], key, order)
  }

  lemma {:induction false} InsertOrdered<T>(s: seq<T>, x: T, key: T -> SortKey, order: SortOrder)
    requires Ordered(s, key, order)
    ensures Ordered(Insert(s, x, key, order), key, order)
  {
    if s == [] {
    } else if Before(x, s[|s| - 1], key, order) {
      var init, last := s[..|s| - 1], s[|s| - 1];
      InsertOrdered(init, x, key, order);
      var t := Insert(init, x, key, order);
      forall e | e in t ensures !Before(last, e, key, order) {
        assert e in multiset(t);
        if e == x {
          CompareProperties(x, last, key, order);
        } else {
          assert e in init;
          var k :| 0 <= k < |init| && init[k] == e;
          assert s[k] == e;
        }
      }
      var r := t + [last];
      forall i, j | 0 <= i < j < |r| ensures !Before(r[j], r[i], key, order) {
        if j < |t| {
          assert r[i] == t[i] && r[j] == t[j];
        } else {
          assert r[i] == t[i] && r[i] in t;
        }
      }
    } else {
      var last := s[|s| - 1];
      var r := s + [x];
      forall i, j | 0 <= i < j < |r| ensures !Before(r[j], r[i], key, order) {
        if j == |s| && i < |s| - 1 {
          NotBeforeTransitive(x, last, s[i], key, order);
        }
      }
    }
  }

  /** The specification's result is ordered by the comparator. */
  lemma {:induction false} SortedByOrdered<T>(s: seq<T>, key: T -> SortKey, order: SortOrder)
    ensures Ordered(SortedBy(s, key, order), key, order)
  {
    if s != [] {
      SortedByOrdered(s[..|s| - 1], key, order);
      InsertOrdered(SortedBy(s[..|s| - 1], key, order), s[|s| - 1], key, order);
    }
  }

  /** The elements of `s` whose key is `k`, in order. */
  function WithKey<T>(s: seq<T>, key: T -> SortKey, k: SortKey): seq<T>
  {
    if s == [] then []
    else WithKey(s[..|s| - 1], key, k) + (if key(s[|s| - 1]) == k then [s[|s| - 1]] else [])
  }

  lemma WithKeySnoc<T>(s: seq<T>, y: T, key: T -> SortKey, k: SortKey)
    ensures WithKey(s + [y], key, k) == WithKey(s, key, k) + (if key(y) == k then [y] else [])
  {
    assert (s + [y])[..|s|] == s;
  }

  /** One step of the stability proof: putting an element back behind the
      insertion result, when it and the inserted element do not both have the
      key. */
  lemma StableStep<T>(t: seq<T>, init: seq<T>, last: T, x: T, key: T -> SortKey, k: SortKey)
    requires WithKey(t, key, k) == WithKey(init, key, k) + (if key(x) == k then [x] else [])
    requires !(key(x) == k && key(last) == k)
    ensures WithKey(t + [last], key, k)
         == WithKey(init + [last], key, k) + (if key(x) == k then [x] else [])
  {
    WithKeySnoc(t, last, key, k);
    WithKeySnoc(init, last, key, k);
  }

  lemma {:induction false} InsertStable<T>(s: seq<T>, x: T, key: T -> SortKey, order: SortOrder, k: SortKey)
    ensures WithKey(Insert(s, x, key, order), key, k)
         == WithKey(s, key, k) + (if key(x) == k then [x] else [])
  {
    if s == [] {
      WithKeySnoc(s, x, key, k);
    } else if Before(x, s[|s| - 1], key, order) {
      var init, last := s[..|s| - 1], s[|s| - 1];
      assert s == init + [last];
      InsertStable(init, x, key, order, k);
      CompareProperties(x, last, key, order);
      StableStep(Insert(init, x, key, order), init, last, x, key, k);
    } else {
      WithKeySnoc(s, x, key, k);
    }
  }

  /** Stability: for every key, the elements with that key come out in the order
      they went in. */
  lemma {:induction false} SortedByStable<T>(s: seq<T>, key: T -> SortKey, order: SortOrder, k: SortKey)
    ensures WithKey(SortedBy(s, key, order), key, k) == WithKey(s, key, k)
  {
    if s != [] {
      var init := s[..|s| - 1];
      SortedByStable(init, key, order, k);
      InsertStable(SortedBy(init, key, order), s[|s| - 1], key, order, k);
    }
  }

  /** Sorting an already ordered sequence leaves it as it is. */
  lemma {:induction false} SortedByOfOrdered<T>(s: seq<T>, key: T -> SortKey, order: SortOrder)
    requires Ordered(s, key, order)
    ensures SortedBy(s, key, order) == s
  {
    if s != [] {
      var init := s[..|s| - 1];
      assert Ordered(init, key, order);
      SortedByOfOrdered(init, key, order);
      if |init| > 0 {
        assert !Before(s[|s| - 1], init[|init| - 1], key, order);
      }
      assert init + [s[|s| - 1]] == s;
    }
  }

  /** Sorting twice is sorting once. */
  lemma SortedByIdempotent<T>(s: seq<T>, key: T -> SortKey, order: SortOrder)
    ensures SortedBy(SortedBy(s, key, order), key, order) == SortedBy(s, key, order)
  {
    SortedByOrdered(s, key, order);
    SortedByOfOrdered(SortedBy(s, key, order), key, order);
  }

  /** Where `Insert` puts `x`: after the last element it need not precede. */
  function InsertPos<T>(t: seq<T>, x: T, key: T -> SortKey, order: SortOrder): (p: nat)
    ensures p <= |t|
  {
    if t == [] then 0
    else if Before(x, t[|t| - 1], key, order) then InsertPos(t[..|t| - 1], x, key, order)
    else |t|
  }

  /** Putting an element back behind a sequence with `x` placed at `p`. */
  lemma PlacedSnoc<T>(init: seq<T>, last: T, x: T, p: nat)
    requires p <= |init|
    ensures var t := init + [last];
      init[..p] + [x] + init[p..] + [last] == t[..p] + [x] + t[p..]
  {
    var t := init + [last];
    assert t[..p] == init[..p];
    assert t[p..] == init[p..] + [last];
  }

  /** `Insert` places `x` at `InsertPos` and keeps everything else in order. */
  lemma {:induction false} InsertAt<T>(t: seq<T>, x: T, key: T -> SortKey, order: SortOrder)
    ensures var p := InsertPos(t, x, key, order);
      Insert(t, x, key, order) == t[..p] + [x] + t[p..]
  {
    if t != [] && Before(x, t[|t| - 1], key, order) {
      var init, last := t[..|t| - 1], t[|t| - 1];
      assert t == init + [last];
      InsertAt(init, x, key, order);
      PlacedSnoc(init, last, x, InsertPos(init, x, key, order));
    } else {
      assert t[..|t|] == t && t[|t|..] == [];
    }
  }

  /** One step of the insertion loop: moving past an element that must follow `x`. */
  lemma InsertPosStep<T>(t: seq<T>, j: int, x: T, key: T -> SortKey, order: SortOrder)
    requires 0 < j <= |t| && Before(x, t[j - 1], key, order)
    ensures InsertPos(t[..j], x, key, order) == InsertPos(t[..j - 1], x, key, order)
  {
    assert t[..j][..j - 1] == t[..j - 1];
  }

  /** Where the insertion loop stops is where `Insert` puts `x`. */
  lemma InsertPosStop<T>(t: seq<T>, j: int, x: T, key: T -> SortKey, order: SortOrder)
    requires 0 <= j <= |t| && (j == 0 || !Before(x, t[j - 1], key, order))
    ensures InsertPos(t[..j], x, key, order) == j
  {
  }

  /** One pass of insertion sort: moves `a[i]` back past the elements of the
      sorted prefix that must follow it. */
  method InsertInPlace<T>(a: array<T>, i: int, key: T -> SortKey, order: SortOrder)
    requires 0 <= i < a.Length
    modifies a
    ensures a[..] == Insert(old(a[..i]), old(a[i]), key, order) + old(a[i + 1..])
  {
    ghost var o := a[..];
    ghost var t := a[..i];
    ghost var p := InsertPos(t, a[i], key, order);
    var x := a[i];
    var j := i;
    assert t[..j] == t;
    while j > 0 && Before(x, a[j - 1], key, order)
      invariant 0 <= j <= i
      invariant forall k :: 0 <= k < j ==> a[k] == t[k]
      invariant forall k :: j < k <= i ==> a[k] == t[k - 1]
      invariant forall k :: i < k < a.Length ==> a[k] == o[k]
      invariant p == InsertPos(t[..j], x, key, order)
    {
      InsertPosStep(t, j, x, key, order);
      a[j] := a[j - 1];
      j := j - 1;
    }
    InsertPosStop(t, j, x, key, order);
    a[j] := x;
    Shifted(o, i, x, j, a[..], key, order);
  }

  /** An array that holds the prefix `o[..i]` with `x` placed at `InsertPos`,
      followed by the untouched rest of `o`, holds `Insert(o[..i], x)` there. */
  lemma Shifted<T>(o: seq<T>, i: int, x: T, j: int, b: seq<T>, key: T -> SortKey, order: SortOrder)
    requires 0 <= j <= i < |o| && |b| == |o| && j == InsertPos(o[..i], x, key, order)
    requires forall k :: 0 <= k < j ==> b[k] == o[..i][k]
    requires b[j] == x
    requires forall k :: j < k <= i ==> b[k] == o[..i][k - 1]
    requires forall k :: i < k < |b| ==> b[k] == o[k]
    ensures b == Insert(o[..i], x, key, order) + o[i + 1..]
  {
    var t := o[..i];
    InsertAt(t, x, key, order);
    var r := t[..j] + [x] + t[j..] + o[i + 1..];
    forall k | 0 <= k < |b|
      ensures b[k] == r[k]
    {
      if k < j {
        assert r[k] == t[k];
      } else if j < k <= i {
        assert r[k] == t[k - 1];
      } else if k > i {
        assert r[k] == o[k];
      }
    }
  }

  /** One pass of the sort turns the state before the pass into the state after it. */
  lemma SortStep<T>(s: seq<T>, i: int, b: seq<T>, key: T -> SortKey, order: SortOrder)
    requires 0 <= i < |s| && b == SortedBy(s[..i], key, order) + s[i..]
    ensures i < |b|
    ensures Insert(b[..i], b[i], key, order) + b[i + 1..] == SortedBy(s[..i + 1], key, order) + s[i + 1..]
  {
    SplitAt(SortedBy(s[..i], key, order), s[i..]);
    assert s[i..][1..] == s[i + 1..];
    assert s[..i + 1][..i] == s[..i];
  }

  /** Splitting a concatenation at the seam. */
  lemma SplitAt<T>(u: seq<T>, v: seq<T>)
    requires v != []
    ensures (u + v)[..|u|] == u && (u + v)[|u|] == v[0] && (u + v)[|u| + 1..] == v[1..]
  {
  }

  /** One pass of the sort on the array: the prefix sorted so far grows by one. */
  method SortPass<T>(a: array<T>, i: int, ghost s0: seq<T>, key: T -> SortKey, order: SortOrder)
    requires 0 <= i < |s0| == a.Length
    requires a[..] == SortedBy(s0[..i], key, order) + s0[i..]
    modifies a
    ensures a[..] == SortedBy(s0[..i + 1], key, order) + s0[i + 1..]
  {
    ghost var b := a[..];
    SortStep(s0, i, b, key, order);
    InsertInPlace(a, i, key, order);
    assert a[..] == Insert(b[..i], b[i], key, order) + b[i + 1..];
  }

  /** `a.sort(comparator)` in place: insertion sort, which is stable. */
  method StableSort<T>(a: array<T>, key: T -> SortKey, order: SortOrder)
    modifies a
    ensures a[..] == SortedBy(old(a[..]), key, order)
  {
    ghost var s0 := a[..];
    var i := 0;
    assert s0[..0] == [] && s0[0..] == s0;
    while i < a.Length
      invariant 0 <= i <= a.Length
      invariant a[..] == SortedBy(s0[..i], key, order) + s0[i..]
    {
      SortPass(a, i, s0, key, order);
      i := i + 1;
    }
    assert s0[..a.Length] == s0 && s0[a.Length..] == [];
  }
}
