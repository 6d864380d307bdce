# Farmer Shop cart engine

A Dafny model of the cart engine in `script.js` of a small storefront demo:
the in-page catalog (`allProducts`) and cart (`cart`), adding a product to the
cart, the sidebar totals (item count, subtotal, 5% GST, grand total), the
checkout that turns the cart into a bill and then empties it, the HTML
escaping helper and the search box filter.

Layout:

- `wrappers.dfy` — `Option`, used for lookups that may find nothing.
- `escape.dfy` (module `Escape`) — `escapeHtml`: the falsy guard, `String(...)`
  of the value, and the five `replaceAll` calls in their order. Beside it a
  one-character-at-a-time reference (`Charwise`) and a decoder (`Unescape`)
  against which the chain is proved.
- `catalog.dfy` (module `Catalog`) — products, lookup by id (`find`, shared
  with the cart), and the
  case-insensitive substring search over names.
- `cart.dfy` (module `Cart`) — cart lines as values, `Added` (what one
  `addToCart` does to the cart), `Count`, `Subtotal`, `Rows`, `ViewOf` (the
  sidebar's numbers), the bill record, and the lemmas about them.
- `storefront.dfy` (module `Storefront`) — class `Shop` holding
  `allProducts` and `cart` as fields; its methods are the fetch callback,
  `addToCart`, the totals loop of `updateCart` and the checkout handler's
  loop and clear, each proved against the functions of `Cart`. The class
  invariant `Valid()` says that every quantity is at least 1 and no product
  id appears on two lines.

Money is exact (`real`), `GST_RATE` is `0.05`, and the vendor name is
`"Farmer Shop"`. The bill's date, which the page reads from the clock, is a
parameter of `Checkout`.

## Model

| member | source | states |
|---|---|---|
| `Escape.EscapeHtml` | script.js:50-55 | the five `replaceAll` calls in source order (`&`, `<`, `>`, `"`, `'`) on the converted text; what it computes is stated by `EscapeHtmlIsCharwise`, `EscapeHtmlHasNoMarkup`, `EscapeHtmlAmpersandsAreEntities`, `EscapeHtmlLength` and `UnescapeEscapeHtml` |
| `Escape.EscapeHtmlHasNoMarkup` | script.js:50-55 | the escaped text contains no `<`, `>`, `"` or `'` |
| `Escape.EscapeValue` | script.js:48-56 | `escapeHtml(text)` gives `''` exactly for the falsy values other than the number 0 (undefined, null, false, `''`) |
| `Escape.EscapeHtmlIsCharwise` | script.js:50-55 | because `&` is replaced first, the chain of five replacements equals escaping every character on its own |
| `Escape.EscapeHtmlAmpersandsAreEntities` | script.js:51-55 | every `&` in the escaped text starts one of `&amp;`, `&lt;`, `&gt;`, `&quot;`, `&#039;` |
| `Escape.EscapeHtmlLength` | script.js:50-55 | escaping never shortens the text, and keeps its length exactly when no special character occurs |
| `Escape.EscapeHtmlIdentity` | script.js:50-55 | text without special characters is returned unchanged |
| `Escape.UnescapeEscapeHtml` | script.js:50-55 | decoding the five entities of the escaped text gives back the original text |
| `Escape.EscapeValueZero` | script.js:49-50 | the number 0 is not swallowed by the guard and escapes to `"0"` |
| `Escape.EscapeValueTruthy` | script.js:49-50 | a truthy value escapes to a non-empty text at least as long as its string form |
| `Escape.EscapeValueNumber` | script.js:50-55 | escaping a number that is an exactly representable integer (magnitude below 2^53, so below the 10^21 where `String` switches to exponent form) gives its decimal spelling unchanged |
| `Escape.NatToDecimal` | script.js:50 | the plain decimal spelling, which is `String(n)` for 0 <= n < 10^21: a non-empty run of decimal digits; `NatToDecimalValue` proves it denotes `n` and has no leading zero |
| `Escape.NatToDecimalValue` | script.js:50 | the digits of the spelling of `n`, read most significant first, denote `n`, and a spelling of more than one digit does not start with `0` |
| `Escape.IntToDecimalValue` | script.js:50 | `String(n)` of an integer starts with `-` exactly when `n` is negative, and the digits after the sign denote the magnitude of `n` |
| `Escape.IntToDecimal` | script.js:50 | `String(n)` for an integer: a minus sign for negative `n`, then `NatToDecimal` of the magnitude; see `IntToDecimalValue` and `EscapeValueNumber` |
| `Escape.Falsy` | script.js:49 | `!text` for the values modelled: true exactly for undefined, null, false, 0 and `''`; used by `EscapeValue`, `EscapeValueZero` and `EscapeValueTruthy` |
| `Escape.ToJsString` | script.js:50 | `String(text)`: `"undefined"`, `"null"`, `"true"`/`"false"`, the decimal spelling of a number, a string itself; `EscapeValueTruthy` shows it is non-empty for truthy values |
| `Escape.ReplaceAll` | script.js:51-55 | `s.replaceAll(c, rep)` with a one-character pattern, scanning left to right; `ReplaceAllConcat` (it distributes over concatenation), `ReplaceAllAbsent` (no occurrence, no change) and `ReplaceAllChar` (on one character) describe it |
| `Catalog.ProductIndex` | script.js:60 | `allProducts.find(p => p.id === id)`: the first product with the id, and none exactly when no product has it |
| `Catalog.FindIndex` | script.js:60-63 | the `find` used for both the catalog and the cart: returns the first element with the id, and nothing exactly when no element has it |
| `Catalog.ToLower` | script.js:123-124 | lower-casing keeps the length and maps each character (ASCII letters only) |
| `Catalog.Search` | script.js:124 | a product is in the result exactly when it is in the catalog and its lower-cased name contains the lower-cased text |
| `Catalog.Includes` | script.js:124 | `name.includes(text)` as a left-to-right scan; characterised by `IncludesIff` |
| `Catalog.Matches` | script.js:124 | the filter's predicate: the lower-cased name includes the lower-cased query; see `Search` and `MatchesIgnoresCase` |
| `Catalog.IncludesIff` | script.js:124 | the `includes` scan succeeds exactly when the text occurs at some position of the name |
| `Catalog.MatchesIgnoresCase` | script.js:123-124 | the query's letter case does not change whether a product matches |
| `Catalog.SearchIsSubsequence` | script.js:124 | the result keeps the catalog's order: it is a subsequence of the catalog |
| `Catalog.SearchEmptyText` | script.js:124 | an empty query returns the whole catalog |
| `Catalog.SearchNoMatch` | script.js:124 | a query contained in no name returns nothing |
| `Cart.LineIndex` | script.js:63 | `cart.find(item => item.id === id)`: the first line with the id, and none exactly when no line has it |
| `Cart.NewLine` | script.js:67-73 | the line pushed for a product new to the cart: quantity 1 and copies of id, name, price and image (or `''`); see `AddNewAppends` |
| `Cart.Added` | script.js:59-74 | an id no product has leaves the cart exactly as it was (script.js:60-61); otherwise the cart grows by at most one line; `AddExistingIncrements` and `AddNewAppends` state the two cases |
| `Cart.AddExistingIncrements` | script.js:63-65 | a known id already in the cart raises that line's quantity by exactly 1; length, order and every other line stay the same |
| `Cart.AddNewAppends` | script.js:66-73 | a known id not yet in the cart appends one line with quantity 1 and id, name, price and image (or `''`) copied from the first matching product; earlier lines are unchanged |
| `Cart.AddedPreservesWellFormed` | script.js:63-73 | after an add every quantity is still at least 1 and no id appears twice |
| `Cart.AddRepeatedly` | script.js:63-73 | n adds of a catalog product not yet in the cart give exactly one new line for it, with quantity n |
| `Cart.AddedCount` | script.js:59-80 | each add of a known product raises the item count by exactly 1; an unknown id leaves it as it was |
| `Cart.AddedSubtotal` | script.js:63-108 | each add raises the subtotal by one unit price: the price frozen on the existing line, or the catalog price for a new line; an unknown id leaves it as it was |
| `Cart.Count` | script.js:80 | `cart.reduce((s, it) => s + it.qty, 0)`, the item count; see `AddedCount` and `CountAtLeastLines` |
| `Cart.Subtotal` | script.js:85-109 | the sum of `price * qty` accumulated line by line from the left, as both loops do; see `AddedSubtotal` and `SubtotalNonNegative` |
| `Cart.LineTotal` | script.js:101 | `item.qty * item.price` for one line (the same product as `item.price * item.qty` on the bill, script.js:155); `LineTotalIncrement` shows one more unit adds the unit price |
| `Cart.RowOf` | script.js:96-102 | one table row built from a line: its name, quantity, unit price and line total; `RowsAt` places it at the line's position |
| `Cart.Rows` | script.js:90-106 | one row per cart line |
| `Cart.RowsAt` | script.js:96-102 | row i shows line i's name, quantity, unit price and `price * qty`, in cart order |
| `Cart.ViewOf` | script.js:80-113 | `gst == subtotal * GST_RATE`, `total == subtotal + gst`, one row per line, and an empty cart shows 0 for count, subtotal, gst and total |
| `Cart.CountAtLeastLines` | script.js:80 | for a well-formed cart the item count is at least the number of lines, and 0 exactly when the cart is empty |
| `Cart.SubtotalNonNegative` | script.js:85-113 | with non-negative prices the subtotal is non-negative and the total is at least the subtotal |
| `Cart.WorkedExample` | script.js:85-113 | 3 at 2.00 and 2 at 1.50 give count 5, subtotal 9.00, GST 0.45, total 9.45 and the two rows 6.00 and 3.00 |
| `Storefront.Shop.constructor` | script.js:13-14 | the page starts with an empty catalog and an empty cart |
| `Storefront.Shop.ProductsLoaded` | script.js:19-20 | a successful fetch sets the catalog and leaves the cart alone |
| `Storefront.Shop.AddToCart` | script.js:59-74 | the new cart is `Added` of the old cart, catalog and id, and the invariant (quantities at least 1, ids unique) is kept |
| `Storefront.Shop.UpdateCart` | script.js:80-113 | the line-by-line loop yields the count, rows, subtotal, GST and total of `ViewOf(cart)`; the cart is not changed |
| `Storefront.Shop.Checkout` | script.js:138-212 | an empty cart gives `CartEmpty`, no bill and an unchanged cart; otherwise the bill's rows, subtotal, GST and grand total are those of the sidebar for the same cart, and the cart is empty afterwards |

## Left out

- The `fetch` of `/products` and its promise chain (script.js:17-27): a successful fetch is `ProductsLoaded`; a failed one changes no state and only writes an error message into the page.
- `server.js` entirely: HTTP routing, CORS, static files and reading the product JSON file.
- DOM work: `displayProducts`, the `innerHTML`/`createElement` calls, the `cart-count` and total text fields, opening and closing the sidebar, the print area, `window.print()` and `alert`. The re-render after `addToCart` and after checkout (script.js:75, 213) is `UpdateCart` on the new cart; after checkout that is `ViewOf([])`, which is all zeros.
- The bill's HTML text: the bill is a record of rows and totals. Escaping the names inside it uses `escapeHtml`, which is modelled on its own.
- The date and time on the bill (`new Date()`, `toLocaleString('en-IN', …)`): the formatted text is the `printedOn` parameter.
- `toFixed(2)` and `toFixed(0)` rounding, and JavaScript floating-point arithmetic: amounts are exact reals; rounding happens only at display.
- `Number(product.price)`: catalog prices are taken to be numbers already; NaN and non-numeric prices are not modelled.
- Full Unicode `toLowerCase`: only ASCII letters are folded.
- Product ids are integers (the add button passes the id as a numeric literal); `===` on them is `==`.
- `Escape.EscapeValueTruthy`: numbers handed to `escapeHtml` are integers below 2^53 in magnitude; non-integer numbers, larger numbers, `NaN` and `-0` are not modelled.
- `Escape.NatToDecimal`: spells every natural number in plain digits; JavaScript's `String` uses exponent form (`"1e+21"`) from 10^21 up, so this agrees with `String(n)` only below 10^21. The model calls it only for numbers below 2^53.
- `Escape.EscapeValueNumber`: covers only integers with magnitude below 2^53. Larger numbers, including those from 10^21 up that JavaScript prints in exponent form, are outside the model.
- Quantities are unbounded integers; JavaScript's 2^53 limit on exact integers is not modelled.
- `found.qty += 1` changes the line object that `cart` holds; the model replaces that line with an updated copy, which is the same since no other reference to the line exists.
