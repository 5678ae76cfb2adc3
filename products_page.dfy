/**
 * The browse page: a search parameter from the address bar, category,
 * condition and price filters, and a sort key, re-applied to the whole
 * catalogue whenever one of them changes.
 */
module ProductsPage {
  import opened Wrappers
  import opened Types
  import opened Catalog

  /** Only a present, non-empty search parameter filters. */
  predicate SearchActive(search: Option<string>) {
    search.Some? && search.value != ""
  }

  /** The filter steps the page runs, in its order: search, category, condition, price. */
  function ProductsCriteria(search: Option<string>, category: string, condition: string, min: real, max: real): seq<Criterion> {
    (if SearchActive(search) then [MatchesSearch(search.value)] else [])
    + (if category != "all" then [InCategory(category)] else [])
    + (if condition != "all" then [HasCondition(condition)] else [])
    + [PriceWithin(min, max)]
  }

  /** The page's conjunctive filter, field by field. */
  predicate ProductsMatch(p: Product, search: Option<string>, category: string, condition: string, min: real, max: real) {
    && (SearchActive(search) ==> SearchHit(p, search.value))
    && (category != "all" ==> p.category == category)
    && (condition != "all" ==> p.condition.Name() == condition)
    && min <= p.price <= max
  }

  /** Passing the filter steps is passing the field-by-field filter. */
  lemma ProductsCriteriaMeaning(p: Product, search: Option<string>, category: string, condition: string, min: real, max: real)
    ensures AllHold(ProductsCriteria(search, category, condition, min, max), p) <==> ProductsMatch(p, search, category, condition, min, max)
  {
    var s := if SearchActive(search) then [MatchesSearch(search.value)] else [];
    var c := if category != "all" then [InCategory(category)] else [];
    var d := if condition != "all" then [HasCondition(condition)] else [];
    var e := [PriceWithin(min, max)];
    AllHoldAppend(s + c + d, e, p);
    AllHoldAppend(s + c, d, p);
    AllHoldAppend(s, c, p);
    assert e[0] == PriceWithin(min, max);
    if SearchActive(search) { AllHoldSingle(MatchesSearch(search.value), p); }
    if category != "all" { AllHoldSingle(InCategory(category), p); }
    if condition != "all" { AllHoldSingle(HasCondition(condition), p); }
  }

  /** The filter half of the effect: `filtered` reassigned by each active step in turn. */
  method FilterSteps(products: seq<Product>, search: Option<string>, category: string, condition: string, min: real, max: real)
    returns (filtered: seq<Product>)
    ensures filtered == Restrict(products, ProductsCriteria(search, category, condition, min, max))
  {
    var s := if SearchActive(search) then [MatchesSearch(search.value)] else [];
    var c := if category != "all" then [InCategory(category)] else [];
    var d := if condition != "all" then [HasCondition(condition)] else [];
    filtered := products;
    RestrictNothing(products);
    if SearchActive(search) {
      filtered := Select(filtered, MatchesSearch(search.value));
      RestrictStep(products, [], MatchesSearch(search.value));
    }
    assert filtered == Restrict(products, s);
    if category != "all" {
      filtered := Select(filtered, InCategory(category));
      RestrictStep(products, s, InCategory(category));
    } else {
      assert s + c == s;
    }
    assert filtered == Restrict(products, s + c);
    if condition != "all" {
      filtered := Select(filtered, HasCondition(condition));
      RestrictStep(products, s + c, HasCondition(condition));
    } else {
      assert s + c + d == s + c;
    }
    assert filtered == Restrict(products, s + c + d);
    filtered := Select(filtered, PriceWithin(min, max));
    RestrictStep(products, s + c + d, PriceWithin(min, max));
  }

  /** A product is among the page's matches exactly when it is in the catalogue and passes the field-by-field filter. */
  lemma ProductsMembers(products: seq<Product>, search: Option<string>, category: string, condition: string, min: real, max: real, x: Product)
    ensures x in Restrict(products, ProductsCriteria(search, category, condition, min, max)) <==>
              x in products && ProductsMatch(x, search, category, condition, min, max)
  {
    RestrictMembers(products, ProductsCriteria(search, category, condition, min, max), x);
    ProductsCriteriaMeaning(x, search, category, condition, min, max);
  }

  /**
   * The body of the page's effect: copy the catalogue, filter it step by
   * step, sort the copy in place. The result holds exactly the matching
   * products, each as often as among the matching subset, in key order.
   */
  method Browse(products: seq<Product>, search: Option<string>, category: string, condition: string, min: real, max: real, sortBy: string)
    returns (r: seq<Product>)
    ensures forall x :: x in r <==> x in products && ProductsMatch(x, search, category, condition, min, max)
    ensures multiset(r) == multiset(Restrict(products, ProductsCriteria(search, category, condition, min, max)))
    ensures SortedBy(sortBy, r)
  {
    var filtered := FilterSteps(products, search, category, condition, min, max);
    r := SortedCopy(filtered, sortBy);
    forall x ensures x in r <==> x in products && ProductsMatch(x, search, category, condition, min, max) {
      assert x in r <==> x in multiset(r);
      assert x in filtered <==> x in multiset(filtered);
      ProductsMembers(products, search, category, condition, min, max, x);
    }
  }

  /** With the initial price range, nothing dearer than 1000 is listed. */
  lemma DefaultRangeExcludesAbove(p: Product, search: Option<string>, category: string, condition: string)
    requires p.price > 1000.0
    ensures !ProductsMatch(p, search, category, condition, 0.0, 1000.0)
  {
  }

  /** The page's state: its filters, its sort key and the list it shows. */
  class ProductsPage {
    var filteredProducts: seq<Product>
    var selectedCategory: string
    var selectedCondition: string
    var priceMin: real
    var priceMax: real
    var sortBy: string

    /** Before the effect first runs the page shows the catalogue as it is. */
    constructor (products: seq<Product>)
      ensures filteredProducts == products
      ensures selectedCategory == "all" && selectedCondition == "all"
      ensures priceMin == 0.0 && priceMax == 1000.0 && sortBy == "newest"
    {
      filteredProducts := products;
      selectedCategory := "all";
      selectedCondition := "all";
      priceMin, priceMax := 0.0, 1000.0;
      sortBy := "newest";
    }

    /** The effect: recompute the shown list from the catalogue and the current filters. */
    method Refresh(products: seq<Product>, search: Option<string>)
      modifies this
      ensures forall x :: x in filteredProducts <==>
                x in products && ProductsMatch(x, search, selectedCategory, selectedCondition, priceMin, priceMax)
      ensures multiset(filteredProducts) ==
                multiset(Restrict(products, ProductsCriteria(search, selectedCategory, selectedCondition, priceMin, priceMax)))
      ensures SortedBy(sortBy, filteredProducts)
      ensures selectedCategory == old(selectedCategory) && selectedCondition == old(selectedCondition)
      ensures priceMin == old(priceMin) && priceMax == old(priceMax) && sortBy == old(sortBy)
    {
      filteredProducts := Browse(products, search, selectedCategory, selectedCondition, priceMin, priceMax, sortBy);
    }

    /** "Reset Filters" and "Clear all filters": every filter back to its initial value; the sort key stays. */
    method ResetFilters()
      modifies this
      ensures selectedCategory == "all" && selectedCondition == "all"
      ensures priceMin == 0.0 && priceMax == 1000.0
      ensures sortBy == old(sortBy) && filteredProducts == old(filteredProducts)
    {
      selectedCategory := "all";
      selectedCondition := "all";
      priceMin, priceMax := 0.0, 1000.0;
    }

    method SelectCategory(category: string)
      modifies this
      ensures selectedCategory == category
      ensures selectedCondition == old(selectedCondition) && priceMin == old(priceMin) && priceMax == old(priceMax)
      ensures sortBy == old(sortBy) && filteredProducts == old(filteredProducts)
    {
      selectedCategory := category;
    }

    method SelectCondition(condition: string)
      modifies this
      ensures selectedCondition == condition
      ensures selectedCategory == old(selectedCategory) && priceMin == old(priceMin) && priceMax == old(priceMax)
      ensures sortBy == old(sortBy) && filteredProducts == old(filteredProducts)
    {
      selectedCondition := condition;
    }

    /** The "Min" number input: replaces the lower end of the range. */
    method SetMinPrice(min: real)
      modifies this
      ensures priceMin == min && priceMax == old(priceMax)
      ensures selectedCategory == old(selectedCategory) && selectedCondition == old(selectedCondition)
      ensures sortBy == old(sortBy) && filteredProducts == old(filteredProducts)
    {
      priceMin := min;
    }

    /** The "Max" number input: replaces the upper end of the range. */
    method SetMaxPrice(max: real)
      modifies this
      ensures priceMax == max && priceMin == old(priceMin)
      ensures selectedCategory == old(selectedCategory) && selectedCondition == old(selectedCondition)
      ensures sortBy == old(sortBy) && filteredProducts == old(filteredProducts)
    {
      priceMax := max;
    }

    method SelectSort(key: string)
      modifies this
      ensures sortBy == key
      ensures selectedCategory == old(selectedCategory) && selectedCondition == old(selectedCondition)
      ensures priceMin == old(priceMin) && priceMax == old(priceMax) && filteredProducts == old(filteredProducts)
    {
      sortBy := key;
    }
  }
}
