/**
 * The request validators of the server: one rule per field, each a
 * length, range, membership or format check, and the list of field errors
 * a request collects. The format checks of the validation library (e-mail,
 * phone, UUID, number parsing) are parameters, not modelled.
 */
module Validation {
  import opened Wrappers
  import opened Text

  /** The library's format checks, taken as given. */
  datatype Formats = Formats(
    isEmail: string -> bool,
    isMobilePhone: string -> bool,
    isUUID: string -> bool,
    /** The number `isFloat` accepts the string as, if it accepts it at all. */
    asFloat: string -> Option<real>,
    /** The number `isInt` accepts the string as, if it accepts it at all. */
    asInt: string -> Option<int>)

  /** Where a checked field comes from. */
  datatype Location = InBody | InParams | InQuery

  datatype FieldError = FieldError(location: Location, field: string, msg: string)

  /** One field's check: the error it reports and whether the field passed. */
  datatype Rule = Rule(error: FieldError, passes: bool)

  /**
   * The errors a request collects: one per failing rule, in the order the
   * rules are declared.
   */
  function Errors(rules: seq<Rule>): (es: seq<FieldError>)
    ensures |es| <= |rules|
    ensures es == [] <==> forall i :: 0 <= i < |rules| ==> rules[i].passes
    ensures forall e :: e in es <==> exists i :: 0 <= i < |rules| && !rules[i].passes && rules[i].error == e
  {
    if rules == [] then []
    else
      var rest := Errors(rules[1..]);
      assert forall i :: 1 <= i < |rules| ==> rules[i] == rules[1..][i - 1];
      if rules[0].passes then rest else [rules[0].error] + rest
  }

  /**
   * The errors of a rule list are the errors of its first part followed by
   * those of its second; with `Errors` of a single rule being its error
   * exactly when it fails, this fixes the order as the rules' order.
   */
  lemma {:induction false} ErrorsAppend(a: seq<Rule>, b: seq<Rule>)
    ensures Errors(a + b) == Errors(a) + Errors(b)
  {
    if a == [] {
      assert a + b == b;
    } else {
      assert (a + b)[0] == a[0];
      assert (a + b)[1..] == a[1..] + b;
      ErrorsAppend(a[1..], b);
    }
  }

  /** One rule contributes its error exactly when it fails. */
  lemma ErrorsSingle(r: Rule)
    ensures Errors([r]) == if r.passes then [] else [r.error]
  {
    assert [r][1..] == [];
  }

  /** A missing field is checked as the empty string. */
  function Value(field: Option<string>): string {
    field.GetOr("")
  }

  /** `isLength({ min, max })`, counting code points. */
  predicate LengthWithin(s: string, min: nat, max: nat) {
    min <= |s| <= max
  }

  /** `isFloat({ min })`: a number no less than `min`. */
  predicate FloatAtLeast(f: Formats, s: string, min: real) {
    match f.asFloat(s)
    case Some(x) => x >= min
    case None => false
  }

  /** `isInt({ min, max })`; `max` is absent when the rule gives none. */
  predicate IntWithin(f: Formats, s: string, min: int, max: Option<int>) {
    match f.asInt(s)
    case Some(n) => min <= n && (max.None? || n <= max.value)
    case None => false
  }

  /** `optional()`: an absent field passes, a present one must satisfy `check`. */
  predicate Optional(field: Option<string>, check: string -> bool) {
    field.None? || check(field.value)
  }

  /** The five condition names `isIn` accepts. */
  const Conditions: seq<string> := ["new", "like-new", "good", "fair", "poor"]

  const NameMessage := "Name must be between 2 and 100 characters"
  const EmailMessage := "Please provide a valid email"
  const PasswordMessage := "Password must be at least 6 characters long"
  const PhoneMessage := "Please provide a valid phone number"
  const PasswordRequiredMessage := "Password is required"
  const ProductNameMessage := "Product name must be between 5 and 200 characters"
  const DescriptionMessage := "Description must be between 20 and 2000 characters"
  const PriceMessage := "Price must be a positive number"
  const ConditionMessage := "Invalid condition"
  const CategoryMessage := "Invalid category ID"
  const StockMessage := "Stock must be at least 1"
  const LocationMessage := "Location must be between 2 and 100 characters"
  const CommentMessage := "Comment must be between 1 and 1000 characters"
  const ProductIdMessage := "Invalid product ID"
  const PageMessage := "Page must be a positive integer"
  const LimitMessage := "Limit must be between 1 and 100"

  // ---------------------------------------------------------------------------
  // validateRegister

  datatype RegisterBody = RegisterBody(name: Option<string>, email: Option<string>, password: Option<string>, phone: Option<string>)

  function RegisterRules(f: Formats, b: RegisterBody): seq<Rule> {
    [ Rule(FieldError(InBody, "name", NameMessage), LengthWithin(Trim(Value(b.name)), 2, 100)),
      Rule(FieldError(InBody, "email", EmailMessage), f.isEmail(Value(b.email))),
      Rule(FieldError(InBody, "password", PasswordMessage), |Value(b.password)| >= 6),
      Rule(FieldError(InBody, "phone", PhoneMessage), Optional(b.phone, f.isMobilePhone)) ]
  }

  function RegisterErrors(f: Formats, b: RegisterBody): seq<FieldError> {
    Errors(RegisterRules(f, b))
  }

  /**
   * A registration passes exactly when the trimmed name has 2 to 100
   * characters, the e-mail is well formed, the untrimmed password has at
   * least 6 characters and the phone, if given, is well formed.
   */
  lemma RegisterAccepted(f: Formats, b: RegisterBody)
    ensures RegisterErrors(f, b) == [] <==>
              && 2 <= |Trim(Value(b.name))| <= 100
              && f.isEmail(Value(b.email))
              && |Value(b.password)| >= 6
              && (b.phone.None? || f.isMobilePhone(b.phone.value))
  {
    var rs := RegisterRules(f, b);
    assert rs[0].passes && rs[1].passes && rs[2].passes && rs[3].passes ==> forall i :: 0 <= i < |rs| ==> rs[i].passes;
  }

  /** A one-letter name, a malformed e-mail and a three-character password give exactly three errors, in that order. */
  lemma RegisterThreeErrors(f: Formats)
    requires !f.isEmail("bad-email")
    ensures RegisterErrors(f, RegisterBody(Some("A"), Some("bad-email"), Some("123"), None)) ==
              [ FieldError(InBody, "name", NameMessage),
                FieldError(InBody, "email", EmailMessage),
                FieldError(InBody, "password", PasswordMessage) ]
  {
    TrimmedFixed("A");
    var rs := RegisterRules(f, RegisterBody(Some("A"), Some("bad-email"), Some("123"), None));
    assert rs[1..][1..][1..][1..] == [];
    assert Errors(rs[1..][1..][1..]) == [];
    assert Errors(rs[1..][1..]) == [FieldError(InBody, "password", PasswordMessage)];
    assert Errors(rs[1..]) == [FieldError(InBody, "email", EmailMessage), FieldError(InBody, "password", PasswordMessage)];
  }

  // ---------------------------------------------------------------------------
  // validateLogin

  datatype LoginBody = LoginBody(email: Option<string>, password: Option<string>)

  function LoginRules(f: Formats, b: LoginBody): seq<Rule> {
    [ Rule(FieldError(InBody, "email", EmailMessage), f.isEmail(Value(b.email))),
      Rule(FieldError(InBody, "password", PasswordRequiredMessage), Value(b.password) != "") ]
  }

  function LoginErrors(f: Formats, b: LoginBody): seq<FieldError> {
    Errors(LoginRules(f, b))
  }

  /** A login passes exactly when the e-mail is well formed and the password is not empty; a blank password counts. */
  lemma LoginAccepted(f: Formats, b: LoginBody)
    ensures LoginErrors(f, b) == [] <==> f.isEmail(Value(b.email)) && Value(b.password) != ""
  {
    var rs := LoginRules(f, b);
    assert rs[0].passes && rs[1].passes ==> forall i :: 0 <= i < |rs| ==> rs[i].passes;
  }

  /** A password of 1 to 5 characters lets a user log in but not register. */
  lemma ShortPasswordLoginOnly(f: Formats, email: string, password: string)
    requires 1 <= |password| < 6
    ensures Rule(FieldError(InBody, "password", PasswordRequiredMessage), true) in LoginRules(f, LoginBody(Some(email), Some(password)))
    ensures FieldError(InBody, "password", PasswordMessage) in RegisterErrors(f, RegisterBody(None, Some(email), Some(password), None))
  {
    var rs := RegisterRules(f, RegisterBody(None, Some(email), Some(password), None));
    assert !rs[2].passes;
  }

  // ---------------------------------------------------------------------------
  // validateProduct

  datatype ProductBody = ProductBody(
    name: Option<string>, description: Option<string>, price: Option<string>, condition: Option<string>,
    categoryId: Option<string>, stock: Option<string>, location: Option<string>)

  function ProductRules(f: Formats, b: ProductBody): seq<Rule> {
    [ Rule(FieldError(InBody, "name", ProductNameMessage), LengthWithin(Trim(Value(b.name)), 5, 200)),
      Rule(FieldError(InBody, "description", DescriptionMessage), LengthWithin(Trim(Value(b.description)), 20, 2000)),
      Rule(FieldError(InBody, "price", PriceMessage), FloatAtLeast(f, Value(b.price), 0.01)),
      Rule(FieldError(InBody, "condition", ConditionMessage), Value(b.condition) in Conditions),
      Rule(FieldError(InBody, "category_id", CategoryMessage), f.isUUID(Value(b.categoryId))),
      Rule(FieldError(InBody, "stock", StockMessage), IntWithin(f, Value(b.stock), 1, None)),
      Rule(FieldError(InBody, "location", LocationMessage), LengthWithin(Trim(Value(b.location)), 2, 100)) ]
  }

  function ProductErrors(f: Formats, b: ProductBody): seq<FieldError> {
    Errors(ProductRules(f, b))
  }

  /**
   * A product passes exactly when its trimmed name, description and
   * location have 5–200, 20–2000 and 2–100 characters, its price is a
   * number of at least 0.01, its condition is one of the five names, its
   * category id is a UUID and its stock an integer of at least 1.
   */
  lemma ProductAccepted(f: Formats, b: ProductBody)
    ensures ProductErrors(f, b) == [] <==>
              && 5 <= |Trim(Value(b.name))| <= 200
              && 20 <= |Trim(Value(b.description))| <= 2000
              && (f.asFloat(Value(b.price)).Some? && f.asFloat(Value(b.price)).value >= 0.01)
              && Value(b.condition) in {"new", "like-new", "good", "fair", "poor"}
              && f.isUUID(Value(b.categoryId))
              && (f.asInt(Value(b.stock)).Some? && f.asInt(Value(b.stock)).value >= 1)
              && 2 <= |Trim(Value(b.location))| <= 100
  {
    var rs := ProductRules(f, b);
    assert rs[0].passes && rs[1].passes && rs[2].passes && rs[3].passes && rs[4].passes && rs[5].passes && rs[6].passes
           ==> forall i :: 0 <= i < |rs| ==> rs[i].passes;
  }

  // ---------------------------------------------------------------------------
  // validateComment

  datatype CommentRequest = CommentRequest(content: Option<string>, productId: string)

  function CommentRules(f: Formats, r: CommentRequest): seq<Rule> {
    [ Rule(FieldError(InBody, "content", CommentMessage), LengthWithin(Trim(Value(r.content)), 1, 1000)),
      Rule(FieldError(InParams, "productId", ProductIdMessage), f.isUUID(r.productId)) ]
  }

  function CommentErrors(f: Formats, r: CommentRequest): seq<FieldError> {
    Errors(CommentRules(f, r))
  }

  /**
   * A comment passes exactly when its content is not all white space, its
   * trimmed content has at most 1000 characters and the product id is a UUID.
   */
  lemma CommentAccepted(f: Formats, r: CommentRequest)
    ensures CommentErrors(f, r) == [] <==>
              !AllSpace(Value(r.content)) && |Trim(Value(r.content))| <= 1000 && f.isUUID(r.productId)
  {
    TrimEmptyIff(Value(r.content));
    var rs := CommentRules(f, r);
    assert rs[0].passes && rs[1].passes ==> forall i :: 0 <= i < |rs| ==> rs[i].passes;
  }

  /** White-space-only content, such as three spaces, is refused with the length message. */
  lemma BlankCommentRefused(f: Formats, content: string, productId: string)
    requires AllSpace(content)
    ensures FieldError(InBody, "content", CommentMessage) in CommentErrors(f, CommentRequest(Some(content), productId))
  {
    TrimEmptyIff(content);
    var rs := CommentRules(f, CommentRequest(Some(content), productId));
    assert !rs[0].passes;
  }

  // ---------------------------------------------------------------------------
  // validateProductId

  function ProductIdRules(f: Formats, id: string): seq<Rule> {
    [ Rule(FieldError(InParams, "id", ProductIdMessage), f.isUUID(id)) ]
  }

  function ProductIdErrors(f: Formats, id: string): seq<FieldError> {
    Errors(ProductIdRules(f, id))
  }

  /** A product id passes exactly when it is a UUID; otherwise it reports one error. */
  lemma ProductIdAccepted(f: Formats, id: string)
    ensures ProductIdErrors(f, id) == if f.isUUID(id) then [] else [FieldError(InParams, "id", ProductIdMessage)]
  {
    assert ProductIdRules(f, id)[1..] == [];
  }

  // ---------------------------------------------------------------------------
  // validatePagination

  datatype PageQuery = PageQuery(page: Option<string>, limit: Option<string>)

  function PaginationRules(f: Formats, q: PageQuery): seq<Rule> {
    [ Rule(FieldError(InQuery, "page", PageMessage), Optional(q.page, s => IntWithin(f, s, 1, None))),
      Rule(FieldError(InQuery, "limit", LimitMessage), Optional(q.limit, s => IntWithin(f, s, 1, Some(100)))) ]
  }

  function PaginationErrors(f: Formats, q: PageQuery): seq<FieldError> {
    Errors(PaginationRules(f, q))
  }

  /**
   * Pagination passes exactly when the page, if given, is an integer of at
   * least 1 and the limit, if given, an integer from 1 to 100.
   */
  lemma PaginationAccepted(f: Formats, q: PageQuery)
    ensures PaginationErrors(f, q) == [] <==>
              && (q.page.None? || (f.asInt(q.page.value).Some? && f.asInt(q.page.value).value >= 1))
              && (q.limit.None? || (f.asInt(q.limit.value).Some? && 1 <= f.asInt(q.limit.value).value <= 100))
  {
    var rs := PaginationRules(f, q);
    assert rs[0].passes && rs[1].passes ==> forall i :: 0 <= i < |rs| ==> rs[i].passes;
  }

  /** A request with neither parameter passes. */
  lemma NoPaginationPasses(f: Formats)
    ensures PaginationErrors(f, PageQuery(None, None)) == []
  {
    assert PaginationRules(f, PageQuery(None, None))[1..][1..] == [];
  }
}
