# ShopCart storefront logic in Dafny

This project models the small pure computations inside the ShopCart storefront pages. The pages are React components, and the model is pure Dafny functions over immutable sequences:

- **Home page**: the category list for the select box, the catalog filter, and the add action of a product card. The filter matches a case-insensitive search on the title or the description, and the selected category or the sentinel `"all"`.
- **Cart page**: the price total folded over the cart lines, the rows and order summary it shows, and the actions of the `-`, `+` and `Remove` buttons. A requested quantity below 1 is dropped there.
- **Navigation bar**: the item count folded over the cart lines, and the badge on the cart icon.
- **Product details page**: the lookup of the route id in the catalog, including the "not found" case. Also the quantity stepper (starts at 1, `-` is `max(1, q-1)`, `+` is `q+1`) and the add action that carries the stepper's quantity.

Modules:

| module | file | models |
|---|---|---|
| `Text` | text.dfy | ASCII `toLowerCase`, `String.prototype.includes` and its occurrence-based meaning |
| `Seqs` | seqs.dfy | subsequences, duplicate-freedom, first occurrences, and the array made from a `Set` built over an array |
| `Store` | store.dfy | products, cart lines, the `{ ...product, quantity }` payload and the cart slice's actions |
| `Home` | home.dfy | src/pages/Home.jsx |
| `Cart` | cart.dfy | src/pages/Cart.jsx |
| `Navbar` | navbar.dfy | src/components/Navbar.jsx |
| `ProductDetails` | productdetails.dfy | src/pages/ProductDetails.jsx |

Conventions:

- Prices are integer cents.
- JavaScript's `reduce` is modelled as a left fold that starts at 0 and adds the lines from first to last. Each fold is proved equal to an independent front-to-back sum (`SumPrice`, `SumQuantity`). The fold contracts and the additivity lemmas are stated against those sums.
- A JavaScript `Set` keeps insertion order, so the category list is modelled by `Seqs.Dedup`. It inserts from left to right and skips elements already present. Its result is characterised independently: the same elements, no duplicates, first-occurrence order. `Seqs.DedupUnique` proves that any list with those three properties is `Dedup`'s result.
- The cart slice's reducer is not part of this model. The pages only dispatch actions, so actions are modelled as data (`Store.Action`). The effect of an action on the cart is not modelled.
- The code has a quirk that is reproduced, not fixed. The sentinel `"all"` is put in front of the set rather than into it. So a catalog category literally named `"all"` is listed twice (`Home.SentinelListedTwice`).
- The search term is not trimmed (src/pages/Home.jsx:16-17). Only the empty term matches every product; a term of spaces matches only texts that contain those spaces (`Home.BlankTermDoesNotMatchEverything`).

## Model

| member | source | states |
|---|---|---|
| Text.LowerChar | src/pages/Home.jsx:16 | lowering never leaves an upper-case ASCII letter; it adds 32 to `A`–`Z` and leaves every other character alone |
| Text.Lower | src/pages/Home.jsx:16-17 | `toLowerCase` keeps the length and lowers every character in place |
| Text.OccurrenceOf | src/pages/Home.jsx:16-17 | when `includes` holds, the term occurs as a slice at some position |
| Text.OccurrenceFound | src/pages/Home.jsx:16-17 | `includes` finds the term wherever it occurs as a slice |
| Text.ContainsIffOccurs | src/pages/Home.jsx:16-17 | `includes` holds exactly when the term occurs at some position (both directions) |
| Text.ContainsEmpty | src/pages/Home.jsx:16-17 | every text includes the empty search term |
| Text.ContainsLowered | src/pages/Home.jsx:16-17 | a case-sensitive occurrence is still found after both sides are lowered |
| Text.AbsentFirstChar | src/pages/Home.jsx:16-17 | a term is not found in a text that lacks its first character |
| Seqs.Dedup | src/pages/Home.jsx:13 | the array made from the `Set` has exactly the input's elements, no duplicates, and is no longer than the input |
| Seqs.DedupFirstOccurrenceOrder | src/pages/Home.jsx:13 | the set's elements come in order of their first occurrence in the input |
| Seqs.DedupUnique | src/pages/Home.jsx:13 | any duplicate-free list with the input's elements in first-occurrence order is exactly the set's array |
| Home.CategoriesOf | src/pages/Home.jsx:13 | `map` to categories keeps the length, and each entry is that product's category |
| Home.Categories | src/pages/Home.jsx:13 | the list starts with `"all"`; every product's category is in the rest; the rest holds only catalog categories, has no duplicates, and is in first-occurrence order |
| Home.CategoriesCharacterised | src/pages/Home.jsx:13 | the category list is `"all"` followed by the one duplicate-free, first-occurrence-ordered list of the catalog's categories |
| Home.SentinelListedTwice | src/pages/Home.jsx:13 | a catalog category named `"all"` makes `"all"` appear exactly twice in the list |
| Home.MatchesSearch | src/pages/Home.jsx:16-17 | `matchesSearch` holds iff the lowered term occurs at some position of the lowered title or at some position of the lowered description |
| Home.MatchesCategory | src/pages/Home.jsx:18 | `matchesCategory` always holds for the sentinel `"all"`; for any other selection it holds iff the product's category equals it |
| Home.Shown | src/pages/Home.jsx:19 | the `filter` callback holds iff the lowered term occurs in the lowered title or description AND the category is `"all"` or equal to the product's |
| Home.BlankTermDoesNotMatchEverything | src/pages/Home.jsx:16-17 | the term is not trimmed: a one-space term does not match a product whose title and description contain no space |
| Home.FilterProducts | src/pages/Home.jsx:15-20 | a product is shown iff it is in the catalog, matches the search on title or description, and matches the category; each product is shown as often as in the catalog or not at all; the result is a subsequence of the catalog; a non-sentinel category shows only products of that category |
| Home.FilterKeepsNoDuplicates | src/pages/Home.jsx:15 | a duplicate-free catalog gives a duplicate-free result |
| Home.UnfilteredCatalog | src/pages/Home.jsx:16-18 | with an empty search term and `"all"`, the whole catalog is shown unchanged and in order |
| Home.VerbatimTitleMatches | src/pages/Home.jsx:16 | a term occurring verbatim in the title matches the search |
| Home.VerbatimDescriptionMatches | src/pages/Home.jsx:17 | a term occurring verbatim in the description matches the search |
| Home.ShirtMatchesShirt | src/pages/Home.jsx:16 | the title "Red Shirt" matches the search term "SHIRT" |
| Home.MugMissesShirt | src/pages/Home.jsx:16-17 | "Blue Mug" with description "ceramic" does not match "SHIRT" |
| Home.SearchExample | src/pages/Home.jsx:15-20 | searching that two-product catalog for "SHIRT" under `"all"` shows only the shirt |
| Home.CategoryExample | src/pages/Home.jsx:15-20 | with an empty term and the category "home", only the home product is shown |
| Home.CategoryListExample | src/pages/Home.jsx:13 | the catalog of the two products has the category list `["all", "clothing", "home"]` |
| Home.HandleAddToCart | src/pages/Home.jsx:22-23 | a card's add button dispatches an add action whose payload is the product with quantity exactly 1 |
| Store.WithQuantity | src/pages/Home.jsx:23 | the spread payload carries every product field unchanged, plus the given quantity |
| Cart.LineTotal | src/pages/Cart.jsx:89 | the line total `price * quantity` is 0 for quantity 0, the unit price for quantity 1, at least the unit price for a positive quantity at a non-negative price, and never negative for non-negative price and quantity |
| Cart.TotalPrice | src/pages/Cart.jsx:10-13 | the reduce-style total equals the sum of price times quantity over all lines (0 for an empty cart) |
| Cart.TotalPriceAppend | src/pages/Cart.jsx:10-13 | the price total of two line lists put together is the sum of their totals |
| Cart.TotalPriceNonNegative | src/pages/Cart.jsx:10-13 | prices and quantities that are not negative give a total that is not negative |
| Cart.HandleQuantityChange | src/pages/Cart.jsx:20-23 | nothing is dispatched iff the requested quantity is below 1; otherwise exactly `updateQuantity` with that id and quantity, so a dispatched quantity is never below 1 |
| Cart.MinusPressed | src/pages/Cart.jsx:74 | `-` dispatches nothing iff the line holds at most one unit; otherwise it asks for one unit fewer for that line |
| Cart.PlusPressed | src/pages/Cart.jsx:81 | `+` on a line with a quantity that is not negative asks for exactly one unit more for that line |
| Cart.RemovePressed | src/pages/Cart.jsx:15-16 | `Remove` always dispatches a removal of that line's id |
| Cart.RowTotalsAddUp | src/pages/Cart.jsx:89-102 | the displayed line totals add up to the displayed subtotal |
| Cart.View | src/pages/Cart.jsx:29-110 | the empty-cart message appears iff there are no lines; otherwise there is one row per line, with its id, quantity and line total price times quantity; the subtotal is the sum of the row totals and of price times quantity, and the grand total equals the subtotal |
| Navbar.TotalItems | src/components/Navbar.jsx:7 | the reduce-style count equals the sum of quantities over all lines (0 for an empty cart) |
| Navbar.TotalItemsAppend | src/components/Navbar.jsx:7 | the item count of two line lists put together is the sum of their counts |
| Navbar.CartBadge | src/components/Navbar.jsx:20-24 | the badge is shown iff the item count is positive, and then it shows that count |
| Navbar.TotalItemsAtLeastLineCount | src/components/Navbar.jsx:7 | when every line holds at least one unit, the item count is at least the number of lines |
| Navbar.BadgeShownIffNonEmpty | src/components/Navbar.jsx:20 | when every line holds at least one unit, the badge is shown exactly for a non-empty cart |
| ProductDetails.Decrement | src/pages/ProductDetails.jsx:57 | `-` never gives less than 1; it subtracts one from 2 or more, and gives 1 otherwise |
| ProductDetails.DecrementUndoesIncrement | src/pages/ProductDetails.jsx:57-64 | from 1 or more, `-` after `+` returns to the same quantity |
| ProductDetails.IncrementUndoesDecrement | src/pages/ProductDetails.jsx:57-64 | from 2 or more, `+` after `-` returns to the same quantity |
| ProductDetails.RunStaysPositive | src/pages/ProductDetails.jsx:56-68 | any sequence of presses from a quantity of at least 1 (such as the initial 1) ends at 1 or more |
| ProductDetails.RunWithinPressCount | src/pages/ProductDetails.jsx:56-68 | each press moves the quantity by at most one in either direction |
| ProductDetails.RunPlusOnly | src/pages/ProductDetails.jsx:63-68 | pressing `+` n times adds exactly n |
| ProductDetails.Find | src/pages/ProductDetails.jsx:16 | `find` misses iff no product has the id; a hit is a catalog product with that id |
| ProductDetails.FindReturnsFirstMatch | src/pages/ProductDetails.jsx:16 | `find` returns the first product with the id |
| ProductDetails.Open | src/pages/ProductDetails.jsx:15-32 | the page says "Product not found" iff no product has the id; otherwise it shows a catalog product with that id, with the stepper at 1 |
| ProductDetails.HandleAddToCart | src/pages/ProductDetails.jsx:21-22 | the add button dispatches an add action whose payload is the product's fields plus the stepper's current quantity |
| ProductDetails.AddAfterPressesIsPositive | src/pages/ProductDetails.jsx:12-22 | after any presses on a found product's page, the add action carries that product's id and a quantity of at least 1 |
| ProductDetails.CartMinusAgreesWithStepper | src/pages/Cart.jsx:74 | on a line holding at least one unit, the cart's `-` dispatches exactly when the details page's clamped `-` would change the quantity, and asks for the same value |
| ProductDetails.HomeAddIsUntouchedStepperAdd | src/pages/ProductDetails.jsx:22 | the home page's add action equals this page's add action with the stepper untouched at 1 |

## Left out

- Cart reducer (`addToCart`, `updateQuantity`, `removeFromCart` in the cart slice): its source is not part of this model. The accumulation, uniqueness and removal behaviour of the cart is therefore not modelled, and neither is the end-to-end add/update/remove scenario. Only the dispatched actions are.
- Shape of stored cart lines: `Store.CartLine` holds only the fields the cart page and the navigation bar read. How the reducer builds them from add payloads is not modelled.
- Floating-point prices and `toFixed(2)` formatting: prices are integer cents, and the model stops at the numbers shown, not their text.
- `toLowerCase` beyond ASCII: only `A`–`Z` are lowered. Unicode case mapping is not modelled.
- `parseInt` of the route parameter: the id is taken as an already parsed integer. The `NaN` case, which `===` never matches, is not modelled separately.
- React state, hooks and the `loading` flag of the details page (src/pages/ProductDetails.jsx:10-19, 26-28): framework lifecycle. The model starts from the page after loading is over.
- Toasts, `Link` navigation, images, Tailwind classes and other rendering: presentation and side effects. This includes the capitalised option labels of the select box (src/pages/Home.jsx:49) and the "No products found" message (src/pages/Home.jsx:55-57).
- The "Proceed to Checkout" button: it has no handler.
- src/App.jsx: routing only, with no logic.
- `Increment` has no contract of its own. `+` adding exactly one is stated by `ProductDetails.RunPlusOnly`, `ProductDetails.DecrementUndoesIncrement` and `ProductDetails.RunWithinPressCount`.
