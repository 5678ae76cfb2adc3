# UsedTech marketplace — a Dafny model of its logic

UsedTech is a React/Express marketplace for used electronics parts. Its
logic lives in a handful of React components and one Express middleware
file. This project models that logic and proves what each piece promises:

- **The catalogue query** (`Catalog`, `ProductsPage`, `CategoryPage`). The
  products page and the category page re-run one pipeline whenever a
  filter changes:
  - they copy the catalogue, or filter it down to one category;
  - they reassign a local `filtered` list through a chain of `filter`
    steps: search, category or subcategory, condition, price range;
  - they sort the list in place with a `switch` comparator chosen by a
    sort key.

  The model keeps this imperative shape:
  - each `filter` step is a loop (`Catalog.Select`);
  - the sort is an insertion sort on an `array` (`Catalog.SortInPlace`);
  - both are proved against the specification function `Catalog.Restrict`
    and the predicate `Catalog.SortedBy`.

  The result holds exactly the matching products. It is a permutation of
  the matching subset, and it is sorted by the chosen key. The page state
  (filters, sort key, shown list) is a class per page.
- **The listing editor** (`SellItem.ListingForm`). This is the sell page's
  state: photos and their preview URLs, tags, a specification table, and
  the category and subcategory. Each handler is a method that states the
  whole new state. The class invariant says:
  - there are at most five photos, each with exactly one distinct, live
    preview URL;
  - every stored tag is trimmed, non-empty and lower case;
  - every specification entry is trimmed and non-empty.
- **The comment box** (`Comments.CommentBox`). This covers the comment and
  reply drafts, the single open reply form, and the guarded calls of the
  two callbacks. The callbacks are recorded in a `posted` log. The signed-in
  user can change while the box is open.
- **The request validators** (`Validation`). Each validator is a list of
  per-field rules. The errors are the failing rules in declaration order.
  For each validator a lemma states when it accepts a request, field by
  field.
- **Display helpers** (`ProductCard`, `ProductDetail`). These are:
  - the condition badge colour and label;
  - the stock, discount and rating lines;
  - the product lookup by id;
  - the product page's selected photo and contact-panel toggle.

Shared pieces:
- `Text` models the JavaScript string operations the code uses (`trim`,
  `toLowerCase`, `includes`, `localeCompare`, `split`, `join`).
- `Lookup` models `Array.prototype.find`.
- `Types` holds the record shapes of `usedt/Usedtech/src/types/index.ts`.

Two rules of the code worth stating up front:
- a product price must be at least 0.01 (`isFloat({ min: 0.01 })` in
  `server/src/middleware/validation.ts`);
- tags are a list and may hold the same tag twice (`addTag` in
  `src/pages/SellItem.tsx` tests for a duplicate before lower-casing).

## Model

| member | source | states |
|---|---|---|
| Catalog.Restrict | src/pages/Products.tsx:24-44 | the specification of a chain of `filter` steps: the products that pass every criterion, in catalogue order |
| Catalog.RestrictMembers | src/pages/Products.tsx:24-44 | a product survives the filter chain exactly when it is in the input and passes every criterion |
| Catalog.RestrictSubMultiset | src/pages/Products.tsx:24-44 | filtering never adds a product nor duplicates one: the result's multiset is contained in the input's |
| Catalog.RestrictCount | src/pages/Products.tsx:24-44 | a product occurs in the filtered list exactly as often as in the input when it passes every criterion, and not at all otherwise |
| Catalog.RestrictStep | src/pages/Products.tsx:32-34 | filtering an already filtered list by one more criterion equals filtering the original by the extended criteria list |
| Catalog.RestrictIdempotent | src/pages/Products.tsx:24-44 | applying the same filters twice gives the same list as applying them once |
| Catalog.RestrictNothing | src/pages/Products.tsx:19 | with no active criterion the list is the catalogue unchanged |
| Catalog.AllHoldAppend | src/pages/Products.tsx:24-44 | passing the criteria of two consecutive filter groups is passing each group |
| Catalog.Select | src/pages/Products.tsx:33 | one `filter` step, as a loop: keeps, in order, exactly the products that pass the criterion |
| Catalog.InOrderTotal | src/pages/Products.tsx:47-62 | for every key the comparator puts any two products in some order |
| Catalog.InOrderTransitive | src/pages/Products.tsx:47-62 | for every key "may stay before" is transitive, including the name order of the default branch |
| Catalog.SortedNeighbours | src/pages/Products.tsx:47-62 | in a sorted list neighbours have non-decreasing price for `price-low`; non-increasing price, rating, date or views for `price-high`, `rating`, `newest`, `popular`; name order for any other key |
| Catalog.SortInPlace | src/pages/Products.tsx:47 | sorting the array in place leaves it sorted by the chosen key and a permutation of what it held |
| Catalog.SortedCopy | src/pages/CategoryDetail.tsx:40 | sorting a fresh array copy yields a sorted permutation of the input list |
| Catalog.Compare | src/pages/Products.tsx:47-62 | the `switch` comparator: price ascending, price, rating, date or views descending, and `localeCompare` of names for every other key; its properties are stated by InOrderTotal, InOrderTransitive and SortedNeighbours |
| Catalog.SearchHit | src/pages/Products.tsx:24-28 | the search predicate: the lower-cased query occurs in the lower-cased name, description or some tag; its meaning inside the filter chain is stated by ProductsCriteriaMeaning |
| ProductsPage.ProductsCriteriaMeaning | src/pages/Products.tsx:22-44 | the page's filter steps accept a product exactly when: the search hits its name, description or a tag (if a non-empty search is given); its category matches (unless `all`); its condition matches (unless `all`); its price is within the range, both ends included |
| ProductsPage.FilterSteps | src/pages/Products.tsx:19-44 | reassigning `filtered` by each active step in turn yields exactly the filter chain's specification |
| ProductsPage.ProductsMembers | src/pages/Products.tsx:22-44 | a product is listed exactly when it is in the catalogue and passes every active filter |
| ProductsPage.Browse | src/pages/Products.tsx:18-65 | the effect's result: exactly the matching products, a permutation of the matching subset, sorted by the key |
| ProductsPage.DefaultRangeExcludesAbove | src/pages/Products.tsx:13 | with the initial range [0, 1000] no product priced above 1000 is listed |
| ProductsPage.ProductsPage.constructor | src/pages/Products.tsx:10-14 | the page starts with the whole catalogue shown, filters `all`, range [0, 1000] and key `newest` |
| ProductsPage.ProductsPage.Refresh | src/pages/Products.tsx:18-65 | re-running the effect shows exactly the matching products in key order and changes no filter |
| ProductsPage.ProductsPage.ResetFilters | src/pages/Products.tsx:196-204 | reset puts category and condition back to `all` and the range to [0, 1000], keeping the sort key |
| ProductsPage.ProductsPage.SelectCategory | src/pages/Products.tsx:112 | choosing a category changes only the category filter |
| ProductsPage.ProductsPage.SelectCondition | src/pages/Products.tsx:143 | choosing a condition changes only the condition filter |
| ProductsPage.ProductsPage.SetMinPrice | src/pages/Products.tsx:174 | the Min input replaces only the lower end of the range |
| ProductsPage.ProductsPage.SetMaxPrice | src/pages/Products.tsx:183 | the Max input replaces only the upper end of the range |
| ProductsPage.ProductsPage.SelectSort | src/pages/Products.tsx:218 | choosing a sort key changes only the key |
| CategoryPage.FindCategory | src/pages/CategoryDetail.tsx:17 | the first category with the route's slug, or none exactly when no category has it |
| CategoryPage.CategoryCriteriaMeaning | src/pages/CategoryDetail.tsx:22-37 | the page's steps accept a product exactly when: it is in the category; its subcategory matches (unless `all`); its condition matches (unless `all`); its price is within the inclusive range |
| CategoryPage.FilterSteps | src/pages/CategoryDetail.tsx:22-37 | the category filter followed by each active step yields exactly the filter chain's specification |
| CategoryPage.CategoryMembers | src/pages/CategoryDetail.tsx:22-37 | a product is listed exactly when it is in the catalogue and passes every filter of the page |
| CategoryPage.Browse | src/pages/CategoryDetail.tsx:19-58 | the effect's result for a found category: only that category's products, exactly the matching ones, a permutation of the matching subset, sorted by the key |
| CategoryPage.CategoryPage.constructor | src/pages/CategoryDetail.tsx:10-14 | the page starts with an empty list, filters `all`, range [0, 1000] and key `newest` |
| CategoryPage.CategoryPage.Refresh | src/pages/CategoryDetail.tsx:19-58 | an unknown slug returns early and leaves the list as it was; a known one shows exactly the matching products in key order |
| CategoryPage.CategoryPage.ResetFilters | src/pages/CategoryDetail.tsx:214-219 | both reset buttons put subcategory and condition back to `all` and the range to [0, 1000] |
| CategoryPage.CategoryPage.SelectSubcategory | src/pages/CategoryDetail.tsx:131 | choosing a subcategory changes only the subcategory filter |
| CategoryPage.CategoryPage.SelectCondition | src/pages/CategoryDetail.tsx:164 | choosing a condition changes only the condition filter |
| CategoryPage.CategoryPage.SetMinPrice | src/pages/CategoryDetail.tsx:195 | the Min input replaces only the lower end of the range |
| CategoryPage.CategoryPage.SetMaxPrice | src/pages/CategoryDetail.tsx:204 | the Max input replaces only the upper end of the range |
| CategoryPage.CategoryPage.SelectSort | src/pages/CategoryDetail.tsx:236 | choosing a sort key changes only the key |
| CategoryPage.VisitUnknownSlug | src/pages/CategoryDetail.tsx:60-71 | a fresh page with an unknown slug shows no products, so the not-found branch renders |
| SellItem.RemoveAt | src/pages/SellItem.tsx:76-77 | filtering out position `index` drops exactly that position and keeps the rest in order; an index out of range changes nothing |
| SellItem.ElementsRemoveAt | src/pages/SellItem.tsx:77-80 | dropping one preview URL from a list without repeats revokes exactly that URL and keeps the others distinct |
| SellItem.WithoutTag | src/pages/SellItem.tsx:99 | removing a tag keeps every other tag, with its multiplicity, and leaves no copy of the removed one |
| SellItem.WithoutTagAppend | src/pages/SellItem.tsx:99 | the surviving tags keep their relative order |
| SellItem.WithoutAbsentTag | src/pages/SellItem.tsx:99 | removing a tag that is not there changes nothing |
| SellItem.MixedCaseTagAcceptedTwice | src/pages/SellItem.tsx:87-90 | the duplicate test compares the trimmed input before lower-casing, so an input with an upper-case letter passes it again after being stored |
| SellItem.TagAccepted | src/pages/SellItem.tsx:87 | `addTag`'s guard: the trimmed draft is non-empty and not already among the tags; used by AddTag's contract |
| SellItem.StoredTag | src/pages/SellItem.tsx:90 | the value `addTag` stores, the trimmed draft lower-cased; StoredTagWellFormed states what it guarantees |
| SellItem.LowerCaseTagRefusedTwice | src/pages/SellItem.tsx:87-90 | an input already in lower case is refused the second time |
| SellItem.ArduinoTwice | src/pages/SellItem.tsx:87-90 | entering "Arduino" twice stores "arduino" twice |
| SellItem.StoredTagWellFormed | src/pages/SellItem.tsx:90 | every tag `addTag` stores is non-empty, has no surrounding white space and is lower case |
| SellItem.SpecsWellFormedUpdate | src/pages/SellItem.tsx:107-110 | storing a well-formed entry keeps the whole specification table well formed |
| SellItem.ListingForm.constructor | src/pages/SellItem.tsx:11-32 | the empty form: condition `good`, no photos, tags or specifications; location, e-mail and phone from the user signed in at mount, or empty when nobody is |
| SellItem.ListingForm.UploadImages | src/pages/SellItem.tsx:60-73 | a selection that would exceed five photos is refused and changes nothing; otherwise the files are appended in order, each with one fresh preview URL, and the cap of five holds |
| SellItem.ListingForm.RemoveImage | src/pages/SellItem.tsx:75-84 | drops position `index` from both the photos and the previews and revokes that URL; an out-of-range index changes nothing |
| SellItem.ListingForm.EditTag | src/pages/SellItem.tsx:399 | typing changes only the tag draft |
| SellItem.ListingForm.AddTag | src/pages/SellItem.tsx:86-94 | appends the trimmed, lower-cased draft and clears it exactly when the trimmed draft is non-empty and not yet among the tags; otherwise nothing changes |
| SellItem.ListingForm.RemoveTag | src/pages/SellItem.tsx:96-101 | removes every copy of the tag and keeps the others in order; nothing else changes |
| SellItem.ListingForm.EditSpecKey | src/pages/SellItem.tsx:350 | typing changes only the key draft |
| SellItem.ListingForm.EditSpecValue | src/pages/SellItem.tsx:357 | typing changes only the value draft |
| SellItem.ListingForm.AddSpecification | src/pages/SellItem.tsx:103-114 | when both trimmed drafts are non-empty, maps the trimmed key to the trimmed value, overwriting any earlier entry, and clears both drafts; otherwise nothing changes |
| SellItem.ListingForm.RemoveSpecification | src/pages/SellItem.tsx:116-120 | deletes only that key, and an absent key changes nothing |
| SellItem.ListingForm.SelectCategory | src/pages/SellItem.tsx:177 | choosing a category resets the subcategory to the empty string |
| SellItem.ListingForm.SelectSubcategory | src/pages/SellItem.tsx:195 | choosing a subcategory changes only the subcategory |
| Comments.CanSubmitMeaning | src/components/CommentSection.tsx:24 | the submit guard refuses exactly white-space-only drafts and a visitor who is not signed in |
| Comments.CommentBox.constructor | src/components/CommentSection.tsx:17-20 | both drafts start empty with no reply form open |
| Comments.CommentBox.EditComment | src/components/CommentSection.tsx:65 | typing changes only the comment draft |
| Comments.CommentBox.EditReply | src/components/CommentSection.tsx:134 | typing changes only the reply draft |
| Comments.CommentBox.SubmitComment | src/components/CommentSection.tsx:22-28 | when the guard holds, calls `onAddComment` once with the trimmed draft and clears the draft; otherwise there is no call and nothing changes |
| Comments.CommentBox.SubmitReply | src/components/CommentSection.tsx:30-37 | from the reply form open under the comment, when the trimmed draft is non-empty and a user is signed in it records one `onAddReply` call with that comment id and the trimmed draft, clears the draft and closes the form, and otherwise changes nothing |
| Comments.CommentBox.ToggleReply | src/components/CommentSection.tsx:109 | the Reply button opens the form under this comment, or closes it if it is the one already open |
| Comments.CommentBox.CancelReply | src/components/CommentSection.tsx:142-145 | Cancel closes the form and clears the reply draft |
| Comments.CommentBox.AuthChanged | src/components/CommentSection.tsx:17 | a sign-in or sign-out reported by `useAuth()` changes only the signed-in user; drafts, the open reply form and the callback log stay as they were |
| Comments.ToggleTwice | src/components/CommentSection.tsx:109 | pressing Reply twice on one comment leaves its form as it was and closes any other |
| Validation.Errors | server/src/middleware/validation.ts:3-19 | the collected errors are exactly those of the failing rules, at most one per rule, none exactly when every rule passes |
| Validation.ErrorsAppend | server/src/middleware/validation.ts:3-19 | the errors of two consecutive rule groups are those of the first group followed by those of the second, so errors come in the rules' order |
| Validation.ErrorsSingle | server/src/middleware/validation.ts:3-19 | a single rule reports its error exactly when it fails |
| Validation.RegisterRules | server/src/middleware/validation.ts:3-19 | the `validateRegister` chain as a rule list; RegisterAccepted states when it passes |
| Validation.LoginRules | server/src/middleware/validation.ts:21-29 | the `validateLogin` chain as a rule list; LoginAccepted states when it passes |
| Validation.ProductRules | server/src/middleware/validation.ts:31-56 | the `validateProduct` chain as a rule list; ProductAccepted states when it passes |
| Validation.CommentRules | server/src/middleware/validation.ts:58-66 | the `validateComment` chain as a rule list; CommentAccepted states when it passes |
| Validation.ProductIdRules | server/src/middleware/validation.ts:68-72 | the `validateProductId` chain as a rule list; ProductIdAccepted states when it passes |
| Validation.PaginationRules | server/src/middleware/validation.ts:74-83 | the `validatePagination` chain as a rule list; PaginationAccepted states when it passes |
| Validation.RegisterAccepted | server/src/middleware/validation.ts:3-19 | registration passes exactly when: the trimmed name has 2–100 characters; the e-mail is well formed; the untrimmed password has at least 6 characters; a phone, if given, is well formed |
| Validation.RegisterThreeErrors | server/src/middleware/validation.ts:4-14 | name "A", e-mail "bad-email" and password "123" give exactly three errors: name length, e-mail format, password length |
| Validation.LoginAccepted | server/src/middleware/validation.ts:21-29 | login passes exactly when the e-mail is well formed and the password is not empty |
| Validation.ShortPasswordLoginOnly | server/src/middleware/validation.ts:12-14 | a password of 1–5 characters passes the login rule but fails the registration rule |
| Validation.ProductAccepted | server/src/middleware/validation.ts:31-56 | a product passes exactly when: the trimmed name, description and location have 5–200, 20–2000 and 2–100 characters; the price is a number of at least 0.01; the condition is one of the five names; the category id is a UUID; the stock is an integer of at least 1 |
| Validation.CommentAccepted | server/src/middleware/validation.ts:58-66 | a comment passes exactly when its content is not all white space, its trimmed content has at most 1000 characters, and the product id is a UUID |
| Validation.BlankCommentRefused | server/src/middleware/validation.ts:59-62 | white-space-only content is refused with the length message |
| Validation.ProductIdAccepted | server/src/middleware/validation.ts:68-72 | a product id passes exactly when it is a UUID, and otherwise reports one error |
| Validation.PaginationAccepted | server/src/middleware/validation.ts:74-83 | pagination passes exactly when a given page is an integer of at least 1 and a given limit an integer from 1 to 100 |
| Validation.NoPaginationPasses | server/src/middleware/validation.ts:75-81 | a request with neither parameter passes |
| ProductCard.ConditionColorsDistinct | src/components/ProductCard.tsx:19-28 | the five conditions get five different badge colours, and exactly the other strings get gray |
| ProductCard.ConditionColor | src/components/ProductCard.tsx:19-28 | `getConditionColor`: gray exactly for a string that is not one of the five condition names |
| ProductCard.CapitalizeAll | src/components/ProductCard.tsx:31-33 | every piece is capitalised, and no piece is dropped or added |
| ProductCard.FormatConditionIsFormatFrom | src/components/ProductCard.tsx:30-34 | the split/capitalise/join label equals a character-by-character reference label |
| ProductCard.FormatCondition | src/components/ProductCard.tsx:30-34 | `formatCondition` as split, capitalise and join; FormatConditionIsFormatFrom, FormatConditionShape and FormatConditionIdempotent state what it yields |
| ProductCard.JoinLabelIsFormatFrom | src/components/ProductCard.tsx:30-34 | the joined pieces of any split string equal the reference label, with or without capitalising the first piece |
| ProductCard.FormatFromAt | src/components/ProductCard.tsx:30-34 | position by position: a `-` becomes a space, the first character of each piece is upper-cased, every other character is kept |
| ProductCard.FormatConditionShape | src/components/ProductCard.tsx:30-34 | the label is as long as the condition name and has no `-` |
| ProductCard.FormatConditionIdempotent | src/components/ProductCard.tsx:30-34 | formatting a label a second time changes nothing |
| ProductCard.FormatLikeNew | src/components/ProductCard.tsx:30-34 | `like-new` becomes `Like New` |
| ProductCard.DecimalValue | src/components/ProductCard.tsx:144 | the printed stock count reads back as the number |
| ProductCard.StockTextCases | src/components/ProductCard.tsx:143-147 | with positive stock the card reads "✓ Available (" followed by the decimal digits of the count and " left)", which read back as the count; it reads "✗ Sold Out" exactly when the stock is not positive |
| ProductCard.StockText | src/components/ProductCard.tsx:143-147 | the card's stock line; StockTextCases states both cases |
| ProductCard.DiscountPercent | src/components/ProductCard.tsx:52-56 | the `% OFF` badge shows exactly for a present, non-zero original price, so a missing or zero one shows none |
| ProductCard.DiscountBounds | src/components/ProductCard.tsx:54 | for a positive original price the figure is 100 at a zero price, strictly between 0 and 100 below the original price, 0 at it and negative above it |
| ProductCard.RatingLabelOf | src/components/ProductCard.tsx:79 | the label is "No reviews" exactly when the average rating is at most 0, and otherwise shows that average |
| ProductDetail.FindProduct | usedt/Usedtech/src/pages/ProductDetail.tsx:30-43 | the first product with the route's id, or none (the not-found page) exactly when no product has it |
| ProductDetail.DetailStockTextCases | usedt/Usedtech/src/pages/ProductDetail.tsx:217-227 | with positive stock the page reads "Available (" followed by the decimal digits of the count and " left)", which read back as the count; it reads "Sold Out" exactly when the stock is not positive |
| ProductDetail.DetailStockText | usedt/Usedtech/src/pages/ProductDetail.tsx:217-227 | the product page's stock line; DetailStockTextCases states both cases |
| ProductDetail.DetailRatingOf | usedt/Usedtech/src/pages/ProductDetail.tsx:145 | "No reviews yet" exactly when the average is at most 0; otherwise the average with the number of ratings |
| ProductDetail.ProductDetailPage.constructor | usedt/Usedtech/src/pages/ProductDetail.tsx:27-28 | the first photo is selected and the contact details are hidden |
| ProductDetail.ProductDetailPage.SelectImage | usedt/Usedtech/src/pages/ProductDetail.tsx:102-105 | clicking thumbnail i selects photo i and keeps the selection among the product's photos |
| ProductDetail.ProductDetailPage.ToggleContactInfo | usedt/Usedtech/src/pages/ProductDetail.tsx:179 | Contact Seller flips the visibility of the contact details and changes nothing else |
| ProductDetail.ProductDetailPage.SelectedImageShown | usedt/Usedtech/src/pages/ProductDetail.tsx:95 | for a product with photos the selected index is always one of its photos |
| ProductDetail.ToggleContactTwice | usedt/Usedtech/src/pages/ProductDetail.tsx:179 | two clicks on Contact Seller restore the page |
| Lookup.FindIndex | usedt/Usedtech/src/pages/ProductDetail.tsx:30 | `find` takes the first matching position, and finds none exactly when nothing matches |
| Text.TrimStartSuffix | src/pages/SellItem.tsx:87 | `TrimStart`, the leading half of `trim()`, keeps a suffix of the string |
| Text.TrimEndPrefix | src/pages/SellItem.tsx:87 | `TrimEnd`, the trailing half of `trim()`, keeps a prefix of the string |
| Text.Trim | src/pages/SellItem.tsx:87 | `trim()`: never longer than its input, and the result has no white space at either end |
| Text.TrimEmptyIff | src/pages/SellItem.tsx:87 | `trim()` leaves the empty (falsy) string exactly when the input is all white space |
| Text.TrimLowerTrimmed | src/pages/SellItem.tsx:90 | a trimmed, lower-cased tag has nothing left for `trim` to remove |
| Text.ToLower | src/pages/Products.tsx:25-27 | `toLowerCase`: same length, no upper-case letter left, every other character kept |
| Text.Contains | src/pages/Products.tsx:25-27 | `includes` holds exactly when the needle occurs at some position of the text |
| Text.LexCompareAntisymmetric | src/pages/Products.tsx:60 | the name comparison of the default branch is antisymmetric |
| Text.LexCompareZero | src/pages/Products.tsx:60 | names compare equal only when they are equal |
| Text.LexCompareTransitive | src/pages/Products.tsx:60 | the name order is transitive |
| Text.LexCompare | src/pages/Products.tsx:60 | `localeCompare` as a three-way code-point comparison returning -1, 0 or 1 |
| Text.JoinSplit | src/components/ProductCard.tsx:31-33 | splitting on a character and joining on it again gives back the string |
| Text.Split | src/components/ProductCard.tsx:31 | `split` on one character: at least one piece, and no piece holds the separator |
| Text.Join | src/components/ProductCard.tsx:33 | `join` with one character; JoinSplit states it undoes Split |

The condition colour and label functions of
`usedt/Usedtech/src/pages/ProductDetail.tsx:45-60` are character-for-character
copies of `src/components/ProductCard.tsx:19-34`. The model therefore defines
them once, in `ProductCard`. `ProductDetail` imports that one definition, so
the two pages agree on every input by construction.

## Left out

- Catalog.SortInPlace: proves sorted order and permutation, not the tie order of the engine's sort. Products with equal keys may come out in any order.
- Text.LexCompare: stands for `localeCompare` as plain code-point order. Locale collation depends on the runtime.
- Text.ToLower: `toLowerCase` and `toUpperCase` change only ASCII letters here. Full Unicode case mapping (which can change a string's length) is not modelled, so the length and idempotence facts about `formatCondition` hold for every string of the model.
- Validation.LengthWithin: `isLength` counts code points. The validation library also discounts the variation selectors U+FE0E and U+FE0F, which the model does not.
- Validation.Formats: `isEmail`, `isMobilePhone`, `isUUID`, `isFloat` and `isInt` are library checks, passed in as uninterpreted functions.
- Validation: the `normalizeEmail` sanitizer rewrites the stored value only, so it is not modelled.
- Validation: how the middleware's errors reach the response is not part of this model. `Errors` lists one error per failing field, in declaration order.
- Validation: every field is a string, absent or present. A JSON `null` or a number in the body is not distinguished from its string form.
- ProductsPage.ProductsPage.SetMinPrice, CategoryPage.CategoryPage.SetMaxPrice and the other price setters take a real. `Number(value)` can yield `NaN`, which would exclude every product; that case is not modelled.
- Prices and ratings are exact reals. Floating-point rounding, `toFixed` formatting and the `Math.round` of the discount percentage are not modelled; `ProductCard.DiscountPercent` is the figure before rounding. Dates are integer timestamps; `toLocaleDateString` formatting is not modelled.
- Object URLs: `URL.createObjectURL` and `revokeObjectURL` are browser calls. They are modelled as minting serial numbers and removing them from a ghost set of live URLs.
- `handleSubmit` of the sell page is a timer-driven simulation with `alert` and navigation, so it is not modelled. The same goes for the `alert` on a refused upload.
- The sell page's other field inputs (name, description, price, original price, condition, location, contact details) each replace one field of the form. They are not modelled one by one.
- React scheduling is not modelled: `Refresh` is the effect body, run explicitly after a filter changes. The grid/list view toggle and the filter-panel toggle only affect layout.
- The product page's comment callbacks only write to the console, and the cart's `addItem` is not part of this model. Neither is modelled.
- JSX rendering, styling, icons and routing are not modelled. The search parameter is an input (`search`), and the route's slug and id are arguments.
- The network client, the Express route wiring, the database seed and migration scripts, and the presentational pages (admin, home, header, categories list, category card) are not part of this model.
