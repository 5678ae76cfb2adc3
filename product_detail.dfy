/**
 * The product page: the lookup of the product named by the route, the
 * selected photo, the contact panel toggle and the page's own stock and
 * rating lines. Its condition colour and label are the card's.
 */
module ProductDetail {
  import opened Wrappers
  import opened Types
  import opened Lookup
  import opened ProductCard

  /** `products.find(p => p.id === id)`: the first product with that id, or none (the not-found page). */
  function FindProduct(products: seq<Product>, id: string): (r: Option<Product>)
    ensures r.None? <==> forall j :: 0 <= j < |products| ==> products[j].id != id
    ensures r.Some? ==> exists j :: 0 <= j < |products| && products[j] == r.value && r.value.id == id &&
                          forall k :: 0 <= k < j ==> products[k].id != id
  {
    Find(products, (p: Product) => p.id == id)
  }

  /** The page's stock line; unlike the card it has no tick or cross. */
  function DetailStockText(stock: int): string {
    if stock > 0 then "Available (" + Decimal(stock) + " left)" else "Sold Out"
  }

  /** The stock line reads "Available" with the count exactly when there is stock, and "Sold Out" otherwise. */
  lemma DetailStockTextCases(stock: int)
    ensures stock > 0 ==> DetailStockText(stock) == "Available (" + Decimal(stock) + " left)" && DigitsValue(Decimal(stock)) == stock
    ensures stock <= 0 <==> DetailStockText(stock) == "Sold Out"
  {
    if stock > 0 {
      DecimalValue(stock);
      assert DetailStockText(stock)[0] == 'A';
    }
  }

  /** What the page's rating line shows: the average with the number of reviews, or "No reviews yet". */
  datatype DetailRating = Rated(average: real, reviews: nat) | NoReviewsYet

  function DetailRatingOf(p: Product): (r: DetailRating)
    ensures r == NoReviewsYet <==> p.averageRating <= 0.0
    ensures r.Rated? ==> r.average == p.averageRating && r.reviews == |p.ratings|
  {
    if p.averageRating > 0.0 then Rated(p.averageRating, |p.ratings|) else NoReviewsYet
  }

  /** The page's state once the product is found. */
  class ProductDetailPage {
    const product: Product
    var selectedImage: nat
    var showContactInfo: bool

    /** The selected photo is one of the product's, or the first slot of a product without photos. */
    ghost predicate Valid()
      reads this
    {
      selectedImage == 0 || selectedImage < |product.images|
    }

    /** The first photo selected, contact details hidden. */
    constructor (product: Product)
      ensures Valid()
      ensures this.product == product && selectedImage == 0 && !showContactInfo
    {
      this.product := product;
      selectedImage := 0;
      showContactInfo := false;
    }

    /** Clicking thumbnail `index`, one of the product's photos. */
    method SelectImage(index: nat)
      requires Valid() && index < |product.images|
      modifies this
      ensures Valid()
      ensures selectedImage == index && showContactInfo == old(showContactInfo)
    {
      selectedImage := index;
    }

    /** The Contact Seller button shows or hides the contact details. */
    method ToggleContactInfo()
      requires Valid()
      modifies this
      ensures Valid()
      ensures showContactInfo == !old(showContactInfo) && selectedImage == old(selectedImage)
    {
      showContactInfo := !showContactInfo;
    }

    /** A product with photos always shows one of them. */
    lemma SelectedImageShown()
      requires Valid() && product.images != []
      ensures selectedImage < |product.images|
    {
    }
  }

  /** Pressing Contact Seller twice leaves the page as it was. */
  method ToggleContactTwice(page: ProductDetailPage)
    requires page.Valid()
    modifies page
    ensures page.Valid()
    ensures page.showContactInfo == old(page.showContactInfo) && page.selectedImage == old(page.selectedImage)
  {
    page.ToggleContactInfo();
    page.ToggleContactInfo();
  }
}
