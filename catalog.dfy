/**
 * The catalogue query shared by the products page and the category page:
 * a chain of `Array.prototype.filter` steps followed by an in-place
 * `Array.prototype.sort` with a comparator chosen by a sort key.
 */
module Catalog {
  import opened Wrappers
  import opened Text
  import opened Types

  // ---------------------------------------------------------------------
  // Filter criteria
  // ---------------------------------------------------------------------

  /** One filter step of the pipeline. */
  datatype Criterion =
    | MatchesSearch(query: string)
    | InCategory(category: string)
    | InSubcategory(subcategory: string)
    | HasCondition(condition: string)
    | PriceWithin(min: real, max: real)

  /** Case-insensitive search: the lower-cased query occurs in the name, the description or some tag. */
  predicate SearchHit(p: Product, query: string) {
    var q := ToLower(query);
    || Contains(ToLower(p.name), q)
    || Contains(ToLower(p.description), q)
    || exists i :: 0 <= i < |p.tags| && Contains(ToLower(p.tags[i]), q)
  }

  predicate Holds(c: Criterion, p: Product) {
    match c
    case MatchesSearch(q) => SearchHit(p, q)
    case InCategory(name) => p.category == name
    case InSubcategory(name) => p.subcategory == Some(name)
    case HasCondition(name) => p.condition.Name() == name
    case PriceWithin(lo, hi) => lo <= p.price && p.price <= hi
  }

  predicate AllHold(cs: seq<Criterion>, p: Product) {
    forall k :: 0 <= k < |cs| ==> Holds(cs[k], p)
  }

  /** The products of `s` that pass every criterion of `cs`, in their original order. */
  function Restrict(s: seq<Product>, cs: seq<Criterion>): seq<Product> {
    if s == [] then []
    else Restrict(s[..|s| - 1], cs) + (if AllHold(cs, s[|s| - 1]) then [s[|s| - 1]] else [])
  }

  /** A product is in the restriction exactly when it is in `s` and passes every criterion. */
  lemma {:induction false} RestrictMembers(s: seq<Product>, cs: seq<Criterion>, x: Product)
    ensures x in Restrict(s, cs) <==> x in s && AllHold(cs, x)
  {
    if s != [] {
      var init := s[..|s| - 1];
      RestrictMembers(init, cs, x);
      assert s == init + [s[|s| - 1]];
    }
  }

  /** Restriction never adds copies: each product occurs at most as often as in `s`. */
  lemma {:induction false} RestrictSubMultiset(s: seq<Product>, cs: seq<Criterion>)
    ensures multiset(Restrict(s, cs)) <= multiset(s)
  {
    if s != [] {
      var init := s[..|s| - 1];
      RestrictSubMultiset(init, cs);
      assert s == init + [s[|s| - 1]];
    }
  }

  /** Each product occurs in the restriction exactly as often as in `s` when it passes, and not at all otherwise. */
  lemma {:induction false} RestrictCount(s: seq<Product>, cs: seq<Criterion>, x: Product)
    ensures multiset(Restrict(s, cs))[x] == if AllHold(cs, x) then multiset(s)[x] else 0
  {
    if s != [] {
      var init := s[..|s| - 1];
      RestrictCount(init, cs, x);
      assert s == init + [s[|s| - 1]];
    }
  }

  /** Passing `cs1 + cs2` is passing both lists. */
  lemma AllHoldAppend(cs1: seq<Criterion>, cs2: seq<Criterion>, p: Product)
    ensures AllHold(cs1 + cs2, p) <==> AllHold(cs1, p) && AllHold(cs2, p)
  {
    if AllHold(cs1 + cs2, p) {
      forall k | 0 <= k < |cs1| ensures Holds(cs1[k], p) {
        assert (cs1 + cs2)[k] == cs1[k];
      }
      forall k | 0 <= k < |cs2| ensures Holds(cs2[k], p) {
        assert (cs1 + cs2)[|cs1| + k] == cs2[k];
      }
    }
    if AllHold(cs1, p) && AllHold(cs2, p) {
      forall k | 0 <= k < |cs1 + cs2| ensures Holds((cs1 + cs2)[k], p) {
        if k < |cs1| { assert (cs1 + cs2)[k] == cs1[k]; } else { assert (cs1 + cs2)[k] == cs2[k - |cs1|]; }
      }
    }
  }

  /** No criteria keep everything. */
  lemma {:induction false} RestrictNothing(s: seq<Product>)
    ensures Restrict(s, []) == s
  {
    if s != [] {
      RestrictNothing(s[..|s| - 1]);
    }
  }

  /** Passing a one-criterion list is passing that criterion. */
  lemma AllHoldSingle(c: Criterion, p: Product)
    ensures AllHold([c], p) <==> Holds(c, p)
  {
    assert [c][0] == c;
  }

  /** Passing `cs + [c]` is passing `cs` and `c`. */
  lemma AllHoldSnoc(cs: seq<Criterion>, c: Criterion, p: Product)
    ensures AllHold(cs + [c], p) <==> AllHold(cs, p) && Holds(c, p)
  {
    if AllHold(cs + [c], p) {
      forall k | 0 <= k < |cs| ensures Holds(cs[k], p) {
        assert (cs + [c])[k] == cs[k];
      }
      assert (cs + [c])[|cs|] == c;
    }
    if AllHold(cs, p) && Holds(c, p) {
      forall k | 0 <= k < |cs + [c]| ensures Holds((cs + [c])[k], p) {
        if k < |cs| { assert (cs + [c])[k] == cs[k]; }
      }
    }
  }

  /** Restricting a sequence that ends in `x` restricts its front and then considers `x`. */
  lemma RestrictSnoc(s: seq<Product>, x: Product, cs: seq<Criterion>)
    ensures Restrict(s + [x], cs) == Restrict(s, cs) + (if AllHold(cs, x) then [x] else [])
  {
    assert (s + [x])[..|s|] == s;
  }

  /** Filtering the restriction by one more criterion is restricting by both. */
  lemma {:induction false} RestrictStep(s: seq<Product>, cs: seq<Criterion>, c: Criterion)
    ensures Restrict(Restrict(s, cs), [c]) == Restrict(s, cs + [c])
  {
    if s != [] {
      var init := s[..|s| - 1];
      var last := s[|s| - 1];
      assert s == init + [last];
      RestrictStep(init, cs, c);
      RestrictSnoc(init, last, cs);
      RestrictSnoc(init, last, cs + [c]);
      AllHoldSnoc(cs, c, last);
      var r := Restrict(init, cs);
      if AllHold(cs, last) {
        assert Restrict(s, cs) == r + [last];
        RestrictSnoc(r, last, [c]);
        AllHoldSingle(c, last);
      } else {
        assert Restrict(s, cs) == r;
        assert Restrict(s, cs + [c]) == Restrict(init, cs + [c]);
      }
    }
  }

  /** Running the same filters twice gives what running them once gives. */
  lemma {:induction false} RestrictIdempotent(s: seq<Product>, cs: seq<Criterion>)
    ensures Restrict(Restrict(s, cs), cs) == Restrict(s, cs)
  {
    if s != [] {
      var init := s[..|s| - 1];
      var last := s[|s| - 1];
      assert s == init + [last];
      RestrictIdempotent(init, cs);
      RestrictSnoc(init, last, cs);
      var r := Restrict(init, cs);
      if AllHold(cs, last) {
        assert Restrict(s, cs) == r + [last];
        RestrictSnoc(r, last, cs);
      } else {
        assert Restrict(s, cs) == r;
      }
    }
  }

  /**
   * One `filtered = filtered.filter(...)` step: keeps, in order, the products
   * that pass `c`.
   */
  method Select(s: seq<Product>, c: Criterion) returns (r: seq<Product>)
    ensures r == Restrict(s, [c])
  {
    r := [];
    var i := 0;
    while i < |s|
      invariant 0 <= i <= |s|
      invariant r == Restrict(s[..i], [c])
    {
      assert s[..i + 1] == s[..i] + [s[i]];
      RestrictSnoc(s[..i], s[i], [c]);
      AllHoldSingle(c, s[i]);
      if Holds(c, s[i]) {
        r := r + [s[i]];
      }
      i := i + 1;
    }
    assert s[..i] == s;
  }

  // ---------------------------------------------------------------------
  // Sorting
  // ---------------------------------------------------------------------

  /**
   * The comparator handed to `sort`: negative or zero when `a` may stay
   * before `b`. Unknown keys, `"name"` among them, compare names.
   */
  function Compare(sortBy: string, a: Product, b: Product): real {
    if sortBy == "price-low" then a.price - b.price
    else if sortBy == "price-high" then b.price - a.price
    else if sortBy == "rating" then b.averageRating - a.averageRating
    else if sortBy == "newest" then (b.createdAt - a.createdAt) as real
    else if sortBy == "popular" then (b.views - a.views) as real
    else LexCompare(a.name, b.name) as real
  }

  /** The five keys the comparator's `switch` names; every other key sorts by name. */
  predicate NumericKey(sortBy: string) {
    sortBy in {"price-low", "price-high", "rating", "newest", "popular"}
  }

  predicate InOrder(sortBy: string, a: Product, b: Product) {
    Compare(sortBy, a, b) <= 0.0
  }

  /** Every earlier product may stay before every later one. */
  predicate SortedBy(sortBy: string, s: seq<Product>) {
    forall i, j :: 0 <= i < j < |s| ==> InOrder(sortBy, s[i], s[j])
  }

  /** The comparator relates every pair one way or the other. */
  lemma InOrderTotal(sortBy: string, a: Product, b: Product)
    ensures InOrder(sortBy, a, b) || InOrder(sortBy, b, a)
  {
    LexCompareAntisymmetric(a.name, b.name);
  }

  lemma InOrderTransitive(sortBy: string, a: Product, b: Product, c: Product)
    requires InOrder(sortBy, a, b) && InOrder(sortBy, b, c)
    ensures InOrder(sortBy, a, c)
  {
    if !NumericKey(sortBy) {
      LexCompareTransitive(a.name, b.name, c.name);
    }
  }

  /** What sortedness says of neighbours, key by key. */
  lemma SortedNeighbours(sortBy: string, s: seq<Product>, i: int)
    requires SortedBy(sortBy, s) && 0 <= i < |s| - 1
    ensures sortBy == "price-low" ==> s[i].price <= s[i + 1].price
    ensures sortBy == "price-high" ==> s[i].price >= s[i + 1].price
    ensures sortBy == "rating" ==> s[i].averageRating >= s[i + 1].averageRating
    ensures sortBy == "newest" ==> s[i].createdAt >= s[i + 1].createdAt
    ensures sortBy == "popular" ==> s[i].views >= s[i + 1].views
    ensures !NumericKey(sortBy) ==>
              LexCompare(s[i].name, s[i + 1].name) <= 0
  {
    assert InOrder(sortBy, s[i], s[i + 1]);
  }

  /**
   * `filtered.sort(comparator)`: reorders `a` in place into comparator
   * order, by insertion.
   */
  method SortInPlace(a: array<Product>, sortBy: string)
    modifies a
    ensures SortedBy(sortBy, a[..])
    ensures multiset(a[..]) == multiset(old(a[..]))
  {
    var i := 0;
    while i < a.Length
      invariant 0 <= i <= a.Length
      invariant forall p, q :: 0 <= p < q < i ==> InOrder(sortBy, a[p], a[q])
      invariant multiset(a[..]) == multiset(old(a[..]))
    {
      InsertLeft(a, i, sortBy);
      i := i + 1;
    }
  }

  /**
   * One insertion step: moves `a[i]` left while the comparator says its
   * left neighbour should follow it, so that `a[..i + 1]` ends up sorted.
   */
  method InsertLeft(a: array<Product>, i: int, sortBy: string)
    requires 0 <= i < a.Length
    requires forall p, q :: 0 <= p < q < i ==> InOrder(sortBy, a[p], a[q])
    modifies a
    ensures forall p, q :: 0 <= p < q <= i ==> InOrder(sortBy, a[p], a[q])
    ensures multiset(a[..]) == multiset(old(a[..]))
  {
    var j := i;
    while j > 0 && !InOrder(sortBy, a[j - 1], a[j])
      invariant 0 <= j <= i
      invariant forall p, q :: 0 <= p < q <= i && p != j && q != j ==> InOrder(sortBy, a[p], a[q])
      invariant forall q :: j < q <= i ==> InOrder(sortBy, a[j], a[q])
      invariant multiset(a[..]) == multiset(old(a[..]))
    {
      InOrderTotal(sortBy, a[j - 1], a[j]);
      a[j - 1], a[j] := a[j], a[j - 1];
      j := j - 1;
    }
    forall p | 0 <= p < j ensures InOrder(sortBy, a[p], a[j]) {
      if p < j - 1 {
        InOrderTransitive(sortBy, a[p], a[j - 1], a[j]);
      }
    }
  }

  /** Copies `s` into a fresh array, sorts it there and returns its contents. */
  method SortedCopy(s: seq<Product>, sortBy: string) returns (r: seq<Product>)
    ensures SortedBy(sortBy, r)
    ensures multiset(r) == multiset(s)
  {
    var a := new Product[|s|](k requires 0 <= k < |s| => s[k]);
    assert a[..] == s;
    SortInPlace(a, sortBy);
    r := a[..];
  }
}
