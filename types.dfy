/**
 * The record shapes of the marketplace: users, products, comments and
 * categories. Dates are integer timestamps (milliseconds since the epoch);
 * prices and ratings are reals.
 */
module Types {
  import opened Wrappers

  /** The `role` values: "user", "seller", "admin". */
  datatype Role = Member | Seller | Admin

  datatype User = User(
    id: string,
    name: string,
    email: string,
    phone: Option<string>,
    role: Role,
    avatar: Option<string>,
    location: Option<string>,
    rating: real,
    totalSales: int,
    joinedDate: int,
    verified: bool,
    createdAt: int)

  /** The five wear states a listing can be in. */
  datatype Condition = New | LikeNew | Good | Fair | Poor {
    /** The wire spelling of the condition. */
    function Name(): string {
      match this
      case New => "new"
      case LikeNew => "like-new"
      case Good => "good"
      case Fair => "fair"
      case Poor => "poor"
    }
  }

  datatype Rating = Rating(id: string, userId: string, userName: string, rating: real, comment: string, createdAt: int)

  datatype PreferredContact = ByEmail | ByPhone | ByBoth

  datatype ContactInfo = ContactInfo(
    email: string,
    phone: Option<string>,
    preferredContact: PreferredContact,
    meetupLocation: Option<string>)

  datatype Reply = Reply(id: string, userId: string, userName: string, userAvatar: Option<string>, content: string, createdAt: int)

  datatype Comment = Comment(
    id: string,
    userId: string,
    userName: string,
    userAvatar: Option<string>,
    content: string,
    replies: seq<Reply>,
    createdAt: int)

  datatype Product = Product(
    id: string,
    name: string,
    description: string,
    price: real,
    originalPrice: Option<real>,
    condition: Condition,
    category: string,
    subcategory: Option<string>,
    images: seq<string>,
    seller: User,
    stock: int,
    ratings: seq<Rating>,
    averageRating: real,
    specifications: map<string, string>,
    tags: seq<string>,
    featured: bool,
    sold: bool,
    views: int,
    location: string,
    contactInfo: ContactInfo,
    comments: seq<Comment>,
    createdAt: int,
    updatedAt: int)

  datatype Subcategory = Subcategory(id: string, name: string, slug: string, description: string, productCount: int)

  datatype Category = Category(
    id: string,
    name: string,
    slug: string,
    description: string,
    icon: string,
    subcategories: seq<Subcategory>,
    productCount: int,
    image: string)

  /** A file picked in the browser's file dialog; only its identity matters here. */
  datatype ImageFile = ImageFile(name: string, size: nat)

  /** The listing being composed on the sell page. */
  datatype ListingFormData = ListingFormData(
    name: string,
    description: string,
    price: real,
    originalPrice: Option<real>,
    condition: string,
    category: string,
    subcategory: string,
    images: seq<ImageFile>,
    specifications: map<string, string>,
    tags: seq<string>,
    location: string,
    contactInfo: ContactInfo)
}
