# TrueShade storefront core in Dafny

TrueShade is a colour-blind-friendly demo web shop. All of its logic lives in
one browser script, `app.js`. This project models the part of that script that
does not touch the page:

- the colour helpers: `rgbToHex`, `shade` (lighten or darken a `#rrggbb` colour)
  and `nameColor` (the hue bucket the colour sampler announces);
- the catalogue, seeded with six demo products by `seedProducts`;
- the product filter inside `applyFilters`;
- the recommendation heuristic `recommendFrom`;
- the shopper's state: the cart (`{id, qty}` lines), the wishlist (product ids)
  and the current recommendations, changed in place by `addToCart`,
  `changeQty`, `removeFromCart` and `toggleWishlist`, plus the subtotal loop of
  `renderCart`.

Modules, one per part of the script:

| module | file | contents |
|---|---|---|
| `Lists` | lists.dfy | `Array.prototype.filter`, `findIndex` and `find` as functions, and their laws |
| `Text` | text.dfy | ASCII `toLowerCase`, JavaScript `trim`, `includes`, `replace` of one character |
| `ColorMath` | color_math.dfy | `toString(16)`, `padStart`, `rgbToHex`, `parseInt(…, 16)`, 32-bit shifts and masks, `shade` |
| `ColorNames` | color_names.dfy | `nameColor` |
| `Catalog` | catalog.dfy | the product record, the demo catalogue, lookup by id |
| `Filters` | filters.dfy | the `applyFilters` predicate over lifted form values |
| `Recommend` | recommend.dfy | scoring, the stable descending sort, the cut to three |
| `Cart` | cart.dfy | cart and wishlist transitions as functions of values, and the subtotal |
| `Store` | store.dfy | class `Store`: the `state` object, whose methods change its fields |

The pure parts are functions with lemmas. The state is a class whose fields
the methods reassign; each method's contract ties the new state to the
functions in `Cart` and `Recommend`, and says that the cart and wishlist
invariants survive. The form controls `applyFilters` reads become parameters.
The saved cart and wishlist that `load` returns become constructor parameters.

## Model

| member | source | states |
|---|---|---|
| `Lists.Filter` | app.js:283 | `filter` keeps exactly the accepted elements: an order-preserving subsequence whose multiset is the input's restricted to accepted values |
| `Lists.FirstIndex` | app.js:274 | the index `find` stops at: accepted, with nothing accepted before it; `None` exactly when nothing is accepted |
| `Lists.Find` | app.js:298 | `find` returns the first accepted element (accepted, nothing accepted before it), and `undefined` (`None`) exactly when there is none |
| `Lists.FilterConcat` | app.js:283 | filtering distributes over concatenation |
| `Lists.FilterKeepsAll` | app.js:283 | a filter that rejects nothing returns its input unchanged |
| `Lists.FilterIdempotent` | app.js:283 | filtering twice by the same predicate is filtering once |
| `Lists.FilterUpdateDropped` | app.js:280 | changing an element that the filter drops leaves the filtered sequence unchanged |
| `Lists.FilterOfPrefix` | app.js:300-303 | what a filter keeps from a prefix is a prefix of what it keeps from the whole |
| `Lists.FilterPairwise` | app.js:283 | a relation that holds between all ordered pairs still holds after filtering |
| `Text.Lower` | app.js:120 | `toLowerCase`: every ASCII capital becomes its small letter, every other character stays, length unchanged |
| `Text.TrimStart` | app.js:120 | the leading JavaScript white space is dropped, and what is left does not start with it |
| `Text.TrimEnd` | app.js:120 | the trailing JavaScript white space is dropped, and what is left does not end with it |
| `Text.Trim` | app.js:120 | `trim`: the leading white space dropped first, then the trailing |
| `Text.Includes` | app.js:125 | `includes`: the needle occurs in the text at some position (the empty needle everywhere) |
| `Text.RemoveFirst` | app.js:325 | `replace('#','')` removes one character when `#` occurs, else nothing; `RemoveFirstAt` says which |
| `Text.RemoveFirstAt` | app.js:325 | the `#` removed is the first one: the text before it and the text after it stay, in order |
| `ColorMath.NatToHex` | app.js:322 | `toString(16)` of a non-negative number: its base-16 digits, most significant first, no leading zero |
| `ColorMath.IntToHex` | app.js:322 | `toString(16)` of a negative number is a minus sign and the digits of its magnitude |
| `ColorMath.PadStart2` | app.js:322 | `padStart(2,'0')`: zeros in front up to two characters, longer strings unchanged |
| `ColorMath.RgbToHex` | app.js:321-323 | `#` followed by each channel's padded hex text, r, g, b in that order, for any integers |
| `ColorMath.HexDigit` | app.js:322 | `toString(16)` writes each digit below 16 as a lowercase hex digit whose value is that digit |
| `ColorMath.PaddedByte` | app.js:322 | for a byte, `toString(16).padStart(2,'0')` is its two hex digits, high nibble first |
| `ColorMath.RgbToHexFormat` | app.js:321-323 | for bytes, `rgbToHex` is `#` and six lowercase hex digits, two per channel in r, g, b order |
| `ColorMath.DigitValue` | app.js:326 | the value `parseInt` gives a hex digit, either case, below 16 |
| `ColorMath.HexValue` | app.js:326 | the number a run of hex digits denotes, most significant digit first |
| `ColorMath.ParseIntHex` | app.js:326 | `parseInt(c,16)`: leading space, an optional sign and `0x`, then the longest run of hex digits; NaN (`None`) when there is none |
| `ColorMath.HexRun` | app.js:326 | the digits `parseInt` reads: the longest prefix of hex digits |
| `ColorMath.ToInt32` | app.js:327 | the signed 32-bit value the shift and mask operators work on: in range and congruent modulo 2^32 |
| `ColorMath.ColorBits` | app.js:325-327 | the signed 32-bit number `shade` reads: the first `#` removed, parsed in base 16, NaN taken as 0 |
| `ColorMath.RedOf` | app.js:327 | `num >> 16`, an arithmetic shift that rounds down |
| `ColorMath.GreenOf` | app.js:327 | `(num >> 8) & 0xff` |
| `ColorMath.BlueOf` | app.js:327 | `num & 0xff` |
| `ColorMath.Clamp` | app.js:328 | `Math.max(0, Math.min(255, x))` is a byte: `x` itself, or 0 below, or 255 above |
| `ColorMath.Shade` | app.js:324-330 | `shade` always returns a well-formed lowercase `#rrggbb` colour |
| `ColorMath.HexValueAppendByte` | app.js:326 | appending a byte's two hex digits multiplies the parsed value by 256 and adds the byte |
| `ColorMath.HexValueBound` | app.js:326 | `n` hex digits parse to a value below 16^n |
| `ColorMath.HexColorBits` | app.js:325-326 | a six-digit colour parses to its hex value, below 2^24 |
| `ColorMath.HexValueOfBytes` | app.js:322-326 | the six digits `rgbToHex` writes parse to `r*65536 + g*256 + b` |
| `ColorMath.UnpackChannels` | app.js:327 | `>>16`, `>>8 & 0xff` and `& 0xff` recover the three packed bytes |
| `ColorMath.RgbToHexBits` | app.js:321-327 | reading back what `rgbToHex` wrote gives the packed channels, and unpacking gives each channel |
| `ColorMath.ShadeZeroRoundTrip` | app.js:321-330 | `shade(rgbToHex(r,g,b), 0) == rgbToHex(r,g,b)` for bytes |
| `ColorMath.ShadeChannels` | app.js:324-330 | each channel of `shade`'s result is the input channel plus `amt`, clamped to 0..255 |
| `ColorMath.HexColorChannels` | app.js:325-327 | on a six-digit colour the three unpacked channels are bytes |
| `ColorMath.BlackAndWhite` | app.js:321-323 | `rgbToHex` writes black as `#000000` and white as `#ffffff` |
| `ColorMath.ShadeSaturates` | app.js:327-329 | on a six-digit colour, `amt <= -255` gives `#000000` and `amt >= 255` gives `#ffffff` (so `shade(h, ±300)`) |
| `ColorNames.NameColor` | app.js:331-345 | `nameColor` returns one of the seven hue names |
| `ColorNames.NeutralIffLowSpread` | app.js:333-342 | "Neutral" exactly when max − min < 15; the trailing default is never reached |
| `ColorNames.HueBuckets` | app.js:336-342 | each of the six names as an iff on the channels, ties resolved by branch order |
| `ColorNames.TieBreaks` | app.js:337-340 | r = g > b is "Warm Red", r = b > g is "Magenta", g = b > r is "Green" |
| `ColorNames.NamedExamples` | app.js:336-337 | (200, 50, 50) is "Warm Red" and (10, 10, 12) is "Neutral" |
| `Catalog.SeedProducts` | app.js:28-38 | the six demo products, with their ids, names, prices, colour labels, families, tags, colours and descriptions, in the script's order |
| `Catalog.SeedProductsValid` | app.js:28-38 | the demo catalogue has six products with distinct ids |
| `Catalog.SeedProductsWellFormed` | app.js:28-38 | every demo product has a non-negative price and a six-digit `#rrggbb` colour |
| `Catalog.FindProduct` | app.js:298 | lookup by id returns the first catalogue product with that id, and nothing exactly when no product has it |
| `Catalog.FindDistinct` | app.js:298 | with distinct ids, the product found for an entry's id is that entry |
| `Filters.SearchText` | app.js:125 | the text a query is looked for in: name, colour label and description joined by spaces, lower-cased |
| `Filters.NormalizeQuery` | app.js:120 | the search box's value trimmed and lower-cased |
| `Filters.Matches` | app.js:124-129 | all four conditions: the query is blank or occurs in the search text, the price is at most the ceiling, the family is among those checked (if any), every selected tag is on the product |
| `Filters.ApplyFilters` | app.js:119-130 | the catalogue filtered by `Matches` on the normalised query |
| `Filters.ApplyFiltersSpec` | app.js:119-130 | the list shown is the catalogue order restricted to products meeting all four conditions, each as often as in the catalogue |
| `Filters.NoFilterShowsAll` | app.js:120-129 | a blank query, no family or tag and a ceiling above every price show the whole catalogue in order |
| `Filters.CoolFamilyOnSeed` | app.js:127 | on the demo catalogue, the "cool" family alone shows exactly the jacket and the tee |
| `Recommend.SharedTags` | app.js:301 | how many of the product's tags the base product also carries, counted with repeats |
| `Recommend.Score` | app.js:301 | 2 for the same colour family, plus the shared tags |
| `Recommend.Others` | app.js:300 | the catalogue without the products that have the base id, in order |
| `Recommend.TakeThree` | app.js:303 | `slice(0,3)`: the first three, or all when there are fewer |
| `Recommend.InsertByScore` | app.js:302 | inserting into the sorted list adds exactly one element |
| `Recommend.SortByScore` | app.js:302 | the sort is a permutation |
| `Recommend.InsertKeepsOrder` | app.js:302 | inserting into a list sorted by descending score keeps it sorted |
| `Recommend.SortByScoreOrdered` | app.js:302 | the sorted list has non-increasing scores |
| `Recommend.InsertStable` | app.js:302 | the inserted element goes before every element of equal score |
| `Recommend.SortByScoreStable` | app.js:302 | products of equal score keep their input order |
| `Recommend.TakeThreeOrdered` | app.js:303 | `slice(0, 3)` of a list sorted by descending score is still sorted |
| `Recommend.TakeThreeStable` | app.js:303 | when the sort kept the products of each score in input order, the three kept of a score are the first ones of that score in the input |
| `Recommend.TakeThreeBest` | app.js:303 | a candidate is cut only when three are kept, and it scores no more than the third |
| `Recommend.Recommendations` | app.js:297-303 | no recommendation exactly when no product has the id |
| `Recommend.RecommendOrKeep` | app.js:297-304 | `state.recommendations` after `recommendFrom`: the previous list for an unknown id, the new three otherwise |
| `Recommend.RecommendationsAreOthers` | app.js:300-303 | for a known id: three products, or every candidate if there are fewer, all from the catalogue, none with the base's id |
| `Recommend.RecommendationsOrdered` | app.js:300-303 | for a known id: non-increasing scores, and equal scores in catalogue order (the first ones of that score) |
| `Recommend.RecommendationsBest` | app.js:300-303 | for a known id: a candidate is left out only when three are shown, and it scores no more than the third |
| `Recommend.SortFive` | app.js:302 | scores 0, 0, 3, 1, 0 sort to 3, 1, 0, 0, 0 with the zeros in input order |
| `Recommend.SeedScores` | app.js:300-301 | against the jacket the demo products score 0, 0, 3, 1, 0 |
| `Recommend.SeedRecommendations` | app.js:371 | on start-up the recommendations are the tee, the hoodie and the sneakers |
| `Cart.QtyOf` | app.js:274 | the quantity on the line `find` returns for the id, 0 when there is none |
| `Cart.AddLine` | app.js:273-275 | `addToCart`'s cart: one more on the first line for the id, or `{id, qty: 1}` pushed at the end |
| `Cart.AddLineAt` | app.js:274-275 | when the first line for the id is at `i`, adding raises that line's quantity by one in place and changes nothing else |
| `Cart.AddLineAbsent` | app.js:275 | without a line for the id, adding appends `{id, qty: 1}` at the end |
| `Cart.QtyOfValid` | app.js:274 | in a valid cart the quantity found for an id is 0 exactly when no line has it |
| `Cart.AddLineQty` | app.js:273-275 | adding raises the quantity for the id by one, from 0 when it had no line |
| `Cart.AddLineOthers` | app.js:273-275 | adding leaves every other line as it was, in the same order |
| `Cart.AddLineValid` | app.js:273-275 | adding keeps ids distinct and quantities at least 1 |
| `Cart.AddThenDecrement` | app.js:273-280 | `changeQty(id, -1)` undoes `addToCart(id)` on a valid cart |
| `Cart.AddTwiceFromEmpty` | app.js:273-275 | adding "p1" twice to an empty cart gives one line with quantity 2 |
| `Cart.RemoveLines` | app.js:283 | `removeFromCart`'s cart: the lines whose id differs, in order |
| `Cart.RemoveLinesSpec` | app.js:283 | after removal no line has the id, exactly the other lines remain, in order, and removing again changes nothing |
| `Cart.RemoveLinesValid` | app.js:283 | removal keeps the cart valid |
| `Cart.ChangeLine` | app.js:278-280 | `changeQty`'s cart: unchanged without a line; the first line's quantity moved by `delta`; every line for the id dropped when that reaches 0 or less |
| `Cart.ChangeLineAt` | app.js:279-280 | when the first line for the id is at `i`: the lines for the id dropped if its quantity plus `delta` is at most 0, else that line's quantity moved in place |
| `Cart.ChangeLineAbsent` | app.js:279 | without a line for the id, `changeQty` leaves any cart as it was |
| `Cart.ChangeLineQty` | app.js:278-280 | the new quantity: unchanged without a line, `qty + delta` while positive, otherwise 0 with the line gone |
| `Cart.ChangeLineOthers` | app.js:278-280 | changing a quantity leaves the other lines as they were, in order |
| `Cart.ChangeLineValid` | app.js:278-280 | changing a quantity keeps the cart valid |
| `Cart.ToggleWish` | app.js:284-289 | `toggleWishlist`'s wishlist: with `toggle`, the id removed if present and appended if not; without, removed |
| `Cart.ToggleWishAbsent` | app.js:286-288 | an absent id is appended at the end by a toggle, and removing it changes nothing |
| `Cart.ToggleWishMembership` | app.js:284-289 | toggling flips membership, toggling twice restores it, and removal leaves the id out |
| `Cart.ToggleWishOthers` | app.js:284-289 | the other ids are never touched, nor their order |
| `Cart.ToggleTwiceAbsent` | app.js:284-286 | toggling an absent id twice gives back the same list |
| `Cart.ToggleWishValid` | app.js:284-289 | toggling keeps the wishlist free of repeats |
| `Cart.LineTotal` | app.js:71-73 | a line's share of the subtotal: price times quantity, 0 when the catalogue lacks the id |
| `Cart.CartTotal` | app.js:69-73 | the subtotal: the lines' shares added up in order |
| `Cart.CartTotalConcat` | app.js:69-73 | the subtotal of two carts put together is the sum of their subtotals |
| `Cart.CartTotalUpdate` | app.js:69-73 | replacing one line changes the subtotal by the difference of the two lines' shares |
| `Cart.LineTotalShift` | app.js:71-73 | moving a line's quantity by `d` moves its share by `d` times the price (0 for an unknown id) |
| `Cart.AddLineTotal` | app.js:69-73 | adding raises the subtotal by the product's price, or by nothing for an id the catalogue lacks |
| `Cart.CartTotalSplit` | app.js:69-73 | the subtotal is the lines for an id plus all the others |
| `Cart.LinesForValid` | app.js:274 | in a valid cart the lines for an id that has one are that line alone |
| `Cart.RemoveLinesTotal` | app.js:283 | removal takes price times quantity off the subtotal of a valid cart |
| `Cart.ChangeLineTotal` | app.js:278-280 | the subtotal after `changeQty`: unchanged, moved by `delta` times the price, or less the line's share |
| `Cart.SeedSessionTotal` | app.js:69-73 | two of the jacket come to 318 |
| `Store.Store.constructor` | app.js:6-11 | the start-up state: saved cart and wishlist, demo catalogue, recommendations for "p1" |
| `Store.Store.FindLine` | app.js:274 | the loop finds the first line for the id, or reports that there is none |
| `Store.Store.RecommendFrom` | app.js:297-305 | new recommendations for a known id; an unknown id leaves them as they were; nothing else changes |
| `Store.Store.AddToCart` | app.js:273-276 | the cart becomes `AddLine`, the recommendations follow the id, the wishlist is untouched, validity is kept |
| `Store.Store.ChangeQty` | app.js:278-281 | the cart becomes `ChangeLine`, nothing else changes, validity is kept |
| `Store.Store.RemoveFromCart` | app.js:283 | the cart becomes `RemoveLines`, nothing else changes, validity is kept |
| `Store.Store.ToggleWishlist` | app.js:284-290 | the wishlist becomes `ToggleWish`, nothing else changes, validity is kept |
| `Store.Store.MoveToCart` | app.js:233 | add to cart, then the id is off the wishlist |
| `Store.Store.Subtotal` | app.js:66-73 | the loop's total is `CartTotal`: price times quantity summed over lines whose id the catalogue has |

## Left out

- `relativeLuminance`, `contrastRatio` and `describeTone` (app.js:346-360): floating-point division, `Math.pow(…, 2.4)` and `toFixed(1)`.
- The `brightness` and `tone` values inside `nameColor` (app.js:334, 343): floating point, and discarded, since only the hue name is returned.
- `currency` (app.js:25): number-to-string formatting with `toFixed(2)`. The subtotal is modelled as an integer sum.
- `save` and `load` (app.js:22-23), the `save` calls in every mutator, and the reload on `visibilitychange` (app.js:374-381): `localStorage` and JSON parsing are I/O. The saved cart and wishlist come in as the `Store` constructor's parameters and may be anything, which is why the invariants are stated as "valid before implies valid after".
- The display preferences in `state.prefs`, every `render*` function, event wiring, drawers, modals, navigation, scrolling, `applyPrefs` and `updateColorBlindFilter`: page updates with no logic beyond assigning fields.
- The camera, the pixel sampling and the torch (app.js:154-201): asynchronous device access.
- `Text.Lower`: `toLowerCase` folds only ASCII letters here; other letters are left as they are.
- `ColorMath.ParseIntHex`: more than 13 hex digits would round in a JavaScript double; here the value stays exact.
- `Catalog.Product`: prices are integers. JavaScript numbers are doubles, and the filter's `Number(...)` ceiling could be fractional or NaN; the ceiling is an integer parameter here.
- `Cart.CartTotal`: the sum is exact. JavaScript would add in doubles, which is exact only while the amounts stay below 2^53.
- The order in which `Array.prototype.sort` calls its comparator is not modelled. Its result is: a stable sort by descending score, defined here as insertion sort.
