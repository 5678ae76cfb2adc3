/**
 * The category page: the category named by the route's slug, its products
 * filtered by subcategory, condition and price, sorted by a key.
 */
module CategoryPage {
  import opened Wrappers
  import opened Types
  import opened Lookup
  import opened Catalog

  /** `categories.find(cat => cat.slug === slug)`. */
  function FindCategory(categories: seq<Category>, slug: string): (r: Option<Category>)
    ensures r.None? <==> forall j :: 0 <= j < |categories| ==> categories[j].slug != slug
    ensures r.Some? ==> exists j :: 0 <= j < |categories| && categories[j] == r.value && r.value.slug == slug &&
                          forall k :: 0 <= k < j ==> categories[k].slug != slug
  {
    Find(categories, (c: Category) => c.slug == slug)
  }

  /** The filter steps of the page, in its order: category, subcategory, condition, price. */
  function CategoryCriteria(category: string, subcategory: string, condition: string, min: real, max: real): seq<Criterion> {
    [InCategory(category)]
    + (if subcategory != "all" then [InSubcategory(subcategory)] else [])
    + (if condition != "all" then [HasCondition(condition)] else [])
    + [PriceWithin(min, max)]
  }

  /** The page's conjunctive filter, field by field. */
  predicate CategoryMatch(p: Product, category: string, subcategory: string, condition: string, min: real, max: real) {
    && p.category == category
    && (subcategory != "all" ==> p.subcategory == Some(subcategory))
    && (condition != "all" ==> p.condition.Name() == condition)
    && min <= p.price <= max
  }

  /** Passing the filter steps is passing the field-by-field filter. */
  lemma CategoryCriteriaMeaning(p: Product, category: string, subcategory: string, condition: string, min: real, max: real)
    ensures AllHold(CategoryCriteria(category, subcategory, condition, min, max), p) <==>
              CategoryMatch(p, category, subcategory, condition, min, max)
  {
    var s := [InCategory(category)];
    var c := if subcategory != "all" then [InSubcategory(subcategory)] else [];
    var d := if condition != "all" then [HasCondition(condition)] else [];
    var e := [PriceWithin(min, max)];
    AllHoldAppend(s + c + d, e, p);
    AllHoldAppend(s + c, d, p);
    AllHoldAppend(s, c, p);
    AllHoldSingle(InCategory(category), p);
    AllHoldSingle(PriceWithin(min, max), p);
    if subcategory != "all" { AllHoldSingle(InSubcategory(subcategory), p); }
    if condition != "all" { AllHoldSingle(HasCondition(condition), p); }
  }

  /** The filter half of the effect: the category's products, then each active step in turn. */
  method FilterSteps(products: seq<Product>, category: string, subcategory: string, condition: string, min: real, max: real)
    returns (filtered: seq<Product>)
    ensures filtered == Restrict(products, CategoryCriteria(category, subcategory, condition, min, max))
  {
    var s := [InCategory(category)];
    var c := if subcategory != "all" then [InSubcategory(subcategory)] else [];
    var d := if condition != "all" then [HasCondition(condition)] else [];
    RestrictNothing(products);
    filtered := Select(products, InCategory(category));
    RestrictStep(products, [], InCategory(category));
    assert filtered == Restrict(products, s);
    if subcategory != "all" {
      filtered := Select(filtered, InSubcategory(subcategory));
      RestrictStep(products, s, InSubcategory(subcategory));
    } else {
      assert s + c == s;
    }
    assert filtered == Restrict(products, s + c);
    if condition != "all" {
      filtered := Select(filtered, HasCondition(condition));
      RestrictStep(products, s + c, HasCondition(condition));
    } else {
      assert s + c + d == s + c;
    }
    assert filtered == Restrict(products, s + c + d);
    filtered := Select(filtered, PriceWithin(min, max));
    RestrictStep(products, s + c + d, PriceWithin(min, max));
  }

  /** A product is among the page's matches exactly when it is in the catalogue and passes the field-by-field filter. */
  lemma CategoryMembers(products: seq<Product>, category: string, subcategory: string, condition: string, min: real, max: real, x: Product)
    ensures x in Restrict(products, CategoryCriteria(category, subcategory, condition, min, max)) <==>
              x in products && CategoryMatch(x, category, subcategory, condition, min, max)
  {
    RestrictMembers(products, CategoryCriteria(category, subcategory, condition, min, max), x);
    CategoryCriteriaMeaning(x, category, subcategory, condition, min, max);
  }

  /**
   * The body of the effect once the category is known: its products,
   * filtered, then sorted in place. The first `filter` already yields a
   * fresh array, so the catalogue itself is not reordered.
   */
  method Browse(products: seq<Product>, category: Category, subcategory: string, condition: string, min: real, max: real, sortBy: string)
    returns (r: seq<Product>)
    ensures forall x :: x in r <==> x in products && CategoryMatch(x, category.name, subcategory, condition, min, max)
    ensures forall x :: x in r ==> x.category == category.name
    ensures multiset(r) == multiset(Restrict(products, CategoryCriteria(category.name, subcategory, condition, min, max)))
    ensures SortedBy(sortBy, r)
  {
    var filtered := FilterSteps(products, category.name, subcategory, condition, min, max);
    r := SortedCopy(filtered, sortBy);
    forall x ensures x in r <==> x in products && CategoryMatch(x, category.name, subcategory, condition, min, max) {
      assert x in r <==> x in multiset(r);
      assert x in filtered <==> x in multiset(filtered);
      CategoryMembers(products, category.name, subcategory, condition, min, max, x);
    }
  }

  /** The page's state: its filters, its sort key and the list it shows. */
  class CategoryPage {
    var filteredProducts: seq<Product>
    var selectedSubcategory: string
    var selectedCondition: string
    var priceMin: real
    var priceMax: real
    var sortBy: string

    /** The list starts empty; the default sort key is "newest". */
    constructor ()
      ensures filteredProducts == []
      ensures selectedSubcategory == "all" && selectedCondition == "all"
      ensures priceMin == 0.0 && priceMax == 1000.0 && sortBy == "newest"
    {
      filteredProducts := [];
      selectedSubcategory := "all";
      selectedCondition := "all";
      priceMin, priceMax := 0.0, 1000.0;
      sortBy := "newest";
    }

    /**
     * The effect. With an unknown slug it returns at once and the list
     * stays as it was; otherwise the list becomes the category's matching
     * products in key order.
     */
    method Refresh(categories: seq<Category>, products: seq<Product>, slug: string)
      modifies this
      ensures FindCategory(categories, slug).None? ==> filteredProducts == old(filteredProducts)
      ensures FindCategory(categories, slug).Some? ==>
                var category := FindCategory(categories, slug).value;
                && (forall x :: x in filteredProducts <==>
                      x in products && CategoryMatch(x, category.name, selectedSubcategory, selectedCondition, priceMin, priceMax))
                && multiset(filteredProducts) ==
                     multiset(Restrict(products, CategoryCriteria(category.name, selectedSubcategory, selectedCondition, priceMin, priceMax)))
                && SortedBy(sortBy, filteredProducts)
      ensures selectedSubcategory == old(selectedSubcategory) && selectedCondition == old(selectedCondition)
      ensures priceMin == old(priceMin) && priceMax == old(priceMax) && sortBy == old(sortBy)
    {
      var category := FindCategory(categories, slug);
      if category.None? {
        return;
      }
      filteredProducts := Browse(products, category.value, selectedSubcategory, selectedCondition, priceMin, priceMax, sortBy);
    }

    /** Both "Reset Filters" and "Clear all filters". */
    method ResetFilters()
      modifies this
      ensures selectedSubcategory == "all" && selectedCondition == "all"
      ensures priceMin == 0.0 && priceMax == 1000.0
      ensures sortBy == old(sortBy) && filteredProducts == old(filteredProducts)
    {
      selectedSubcategory := "all";
      selectedCondition := "all";
      priceMin, priceMax := 0.0, 1000.0;
    }

    /** A subcategory button, or the "All" button with `"all"`. */
    method SelectSubcategory(subcategory: string)
      modifies this
      ensures selectedSubcategory == subcategory
      ensures selectedCondition == old(selectedCondition) && priceMin == old(priceMin) && priceMax == old(priceMax)
      ensures sortBy == old(sortBy) && filteredProducts == old(filteredProducts)
    {
      selectedSubcategory := subcategory;
    }

    method SelectCondition(condition: string)
      modifies this
      ensures selectedCondition == condition
      ensures selectedSubcategory == old(selectedSubcategory) && priceMin == old(priceMin) && priceMax == old(priceMax)
      ensures sortBy == old(sortBy) && filteredProducts == old(filteredProducts)
    {
      selectedCondition := condition;
    }

    /** The "Min" number input: replaces the lower end of the range. */
    method SetMinPrice(min: real)
      modifies this
      ensures priceMin == min && priceMax == old(priceMax)
      ensures selectedSubcategory == old(selectedSubcategory) && selectedCondition == old(selectedCondition)
      ensures sortBy == old(sortBy) && filteredProducts == old(filteredProducts)
    {
      priceMin := min;
    }

    /** The "Max" number input: replaces the upper end of the range. */
    method SetMaxPrice(max: real)
      modifies this
      ensures priceMax == max && priceMin == old(priceMin)
      ensures selectedSubcategory == old(selectedSubcategory) && selectedCondition == old(selectedCondition)
      ensures sortBy == old(sortBy) && filteredProducts == old(filteredProducts)
    {
      priceMax := max;
    }

    method SelectSort(key: string)
      modifies this
      ensures sortBy == key
      ensures selectedSubcategory == old(selectedSubcategory) && selectedCondition == old(selectedCondition)
      ensures priceMin == old(priceMin) && priceMax == old(priceMax) && filteredProducts == old(filteredProducts)
    {
      sortBy := key;
    }
  }

  /** A fresh page visited with an unknown slug shows no products and so renders "Category not found". */
  method VisitUnknownSlug(categories: seq<Category>, products: seq<Product>, slug: string) returns (shown: seq<Product>)
    requires forall j :: 0 <= j < |categories| ==> categories[j].slug != slug
    ensures shown == []
  {
    var page := new CategoryPage();
    page.Refresh(categories, products, slug);
    shown := page.filteredProducts;
  }
}
