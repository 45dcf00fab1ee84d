# roearn — a Dafny model of the extension's logic

roearn is a browser extension for the Roblox website. It pays users back
part of what they spend ("cashback", shown as "Earn N") when they buy
catalog items, bundles and game passes through its own checkout, which
completes the purchase inside a roearn game. It keeps a shopping cart in
the extension's local storage, shows cashback badges and buttons on the
catalog, search, game-store and game-pass pages, and watches the user's
inventory to detect when a purchase went through. It also runs a dashboard
with a balance, referral codes and withdrawals. A withdrawal is paid by
buying a game pass that the user creates at a price chosen by the
extension. Finally, a service worker relays requests to the roearn API.

This project models that logic in Dafny, one module per source script:

| module | source script | form |
|---|---|---|
| `Text` | JavaScript string built-ins the scripts use (`indexOf`, `replace`, `split`, `parseInt`, `trim`, case mapping, `toString`, the `formatNumber` regex) | functions and lemmas |
| `Messages` | `getMessage` and the `split("$1")` button labels, as repeated in every content script | functions, a method, lemmas |
| `Paths` | the `/^\/(?:[a-z]{2}\/)?word\/(\d+)\//` page-path patterns | functions and lemmas |
| `CartStorage` | the stored cart, selected-id list and selection map (`roearnCart`, `roearnSelectedItems`, `roearnSelectionStates`) | a class, functions, lemmas |
| `CatalogItem` | catalog-item.js | methods on the store, functions, lemmas |
| `ShoppingCart` | shopping-cart.js | a class with methods, functions, lemmas |
| `Checkout` | checkout.js | classes, functions, lemmas |
| `CheckoutBulk` | checkout-bulk.js | a class, functions, lemmas |
| `SuccessPopup` | success-popup.js | methods, functions, lemmas |
| `Marketplace` | marketplace-search.js | a class, functions, lemmas |
| `Gamepass` | gamepass-store.js and gamepass-page.js | classes, functions, lemmas |
| `Withdrawal` | initiate-withdrawal.js | methods with loops, functions, lemmas |
| `Dashboard` | dashboard.js (referral codes, pending notice, batching, balance, withdraw button) | methods with loops, a class, lemmas |
| `ReviewPrompt` | review-prompt.js and its re-arm in dashboard.js | a class over an array of stars, lemmas |
| `UpdateCheck` | update-check.js | a class, lemmas |
| `Background` | background.js (locale, API normalisers, message handlers) | functions, a class, lemmas |

Modelling conventions:

- Every network reply, storage read, DOM query, clock reading and user
  action is a parameter. A reply that can fail is a datatype with one
  constructor per outcome the script distinguishes: it threw, it was not
  `ok`, or it parsed to a body.
- JavaScript numbers become integers, and the cashback arithmetic is
  written in exact integer arithmetic. The scripts compute it in IEEE
  doubles, and for some prices the two disagree ("## Left out" names the
  members, each with an input where they differ):
  - `Math.floor(p * 0.05 * 0.7)` is written `35 * p / 1000`.
  - `Math.floor(Math.max(p * r, 2) * 0.70)` is written `7 * max(p * r%, 200) / 1000`.
  - `Math.floor(x * 0.7 + 0.5)` is written `(7 * x + 5) / 10`.
- Strings are `seq<char>`. `replace` with a string or a non-global regex
  replaces the first occurrence; a `g` regex replaces every occurrence.
- Asset ids in the cart are strings throughout, as the scripts store them.
  So `String(id)`, `===` and `Set.has` compare alike.
- A state the script keeps in a variable, in storage or in the page becomes
  a class field that methods update. Each method states its new state in
  terms of a specification function, and the lemmas prove what the scripts
  promise about those functions.

## Model

| member | source | states |
|---|---|---|
| `Text.IndexOf` | checkout.js:152 | `indexOf`/`includes`: the result is an occurrence of the pattern with none before it; `None` means the pattern occurs nowhere |
| `Text.ReplaceFirst` | checkout.js:153 | `replace` with a string pattern: the text is unchanged when the pattern is absent, otherwise the first occurrence is replaced and everything else kept |
| `Text.Before` | checkout.js:155 | `split(sep)[0]`: a prefix of the text, the whole text when `sep` is absent, otherwise ending exactly where the first `sep` starts |
| `Text.SecondPiece` | catalog-item.js:539-544 | `split(sep)[1]`: absent exactly when `sep` does not occur |
| `Text.Decimal` | shopping-cart.js:486 | `toString` of a non-negative integer: a non-empty run of digits |
| `Text.DecimalRoundTrip` | update-check.js:3-7 | reading back the decimal text of `n` gives `n` |
| `Text.FormatNumberDigits` | catalog-item.js:177-179 | removing the commas `formatNumber` inserts gives back the plain decimal text |
| `Text.FormatNumberGrouped` | catalog-item.js:177-179 | `formatNumber` output is a 1–3 digit group followed by comma-separated groups of exactly three digits |
| `Text.LeadingDigits` | gamepass-store.js:203 | the longest run of digits at the head of the text |
| `Text.ParseInt` | gamepass-store.js:203 | `parseInt`: NaN (`None`) exactly when no digit follows the optional sign |
| `Text.ParseIntDecimal` | gamepass-store.js:203 | `parseInt` of the decimal text of `n` is `n` |
| `Text.Trim` | dashboard.js:2312 | `trim`: no whitespace at either end; empty exactly when the text is all whitespace |
| `Text.ToUpper` | dashboard.js:2312 | `toUpperCase`, character by character (ASCII letters) |
| `Text.UpperIdempotent` | dashboard.js:2312-2313 | upper-casing the input the handler has already upper-cased changes nothing |
| `Text.ToLower` | success-popup.js:328-329 | `toLowerCase`, character by character (ASCII letters) |
| `Messages.GetMessage` | catalog-item.js:96-111 | the loop of `$n` replacements computes the localized text |
| `Messages.UnknownKey` | catalog-item.js:97-99 | with no catalogue, or a key it lacks, the key itself is returned |
| `Messages.NoPlaceholders` | catalog-item.js:103-108 | a message with no `$` comes back unchanged whatever the substitutions |
| `Messages.SingleSubstitution` | catalog-item.js:101-110 | message `a$1b` with one substitution `x` becomes `a x b` |
| `Messages.ReplaceAllHit` | catalog-item.js:106 | a global replace turns a leading occurrence into the replacement and continues after it |
| `Messages.ReplaceAllNone` | catalog-item.js:106 | a global replace with no occurrence leaves the text unchanged |
| `Messages.TemplateOr` | catalog-item.js:538 | `cachedMessages?.key?.message \|\| fallback`: the catalogue's non-empty text for the key, else the fallback |
| `Messages.LabelAroundOf` | catalog-item.js:539-544 | template `a$1b` puts `a` before the Robux icon and `" " + amount + b` after it |
| `Messages.LabelWithoutPlaceholder` | catalog-item.js:539-544 | a template without `$1` gives the whole template, then `" " + amount` |
| `Paths.PathId` | catalog-item.js:263-264 | a match yields a non-empty digit run that follows `/word/` or `/xx/word/` and is followed by `/` |
| `Paths.PathIdPlain` | catalog-item.js:263 | `/word/<digits>/…` yields those digits |
| `Paths.PathIdLocale` | catalog-item.js:263 | `/xx/word/<digits>/…` with a two-letter lower-case locale yields those digits |
| `Paths.PathIdOther` | catalog-item.js:246-253 | a path starting with neither `/word/` nor `/xx/word/` matches nothing |
| `Paths.PathIdMentions` | catalog-item.js:263 | a path the pattern for a word accepts contains `/<word>`, at its start or after the locale |
| `CartStorage.Storage.constructor` | catalog-item.js:7-13 | storage with nothing saved reads as an empty cart, no selected ids and no selection states |
| `CartStorage.Ids` | catalog-item.js:23 | the asset ids of the cart, position by position |
| `CartStorage.WithoutItemMembers` | catalog-item.js:57 | `filter(item => item.assetId !== id)` keeps exactly the entries with another id |
| `CartStorage.WithoutItemAppend` | catalog-item.js:57 | the filter distributes over concatenation |
| `CartStorage.WithoutItemAbsent` | catalog-item.js:57 | removing an id that is not in the cart leaves the cart unchanged |
| `CartStorage.WithoutIdMembers` | catalog-item.js:60 | the selected-id filter keeps exactly the other ids |
| `CartStorage.WithoutIdAbsent` | catalog-item.js:60 | filtering out an absent id leaves the list unchanged |
| `CartStorage.WithoutItemDistinct` | catalog-item.js:55-64 | removal keeps the cart's ids distinct |
| `CartStorage.WithoutItemSubsequence` | catalog-item.js:57 | removal keeps the remaining entries in their original order |
| `CatalogItem.IsInCart` | catalog-item.js:21-24 | true exactly when some cart entry has the id |
| `CatalogItem.AddToCart` | catalog-item.js:26-39 | a new id is appended to the cart and, if not yet there, to the selected ids; an id already in the cart changes nothing; distinct ids stay distinct |
| `CatalogItem.RemoveFromCart` | catalog-item.js:55-64 | the cart and the selected ids lose exactly that id; selection states are untouched |
| `CatalogItem.RemoveUndoesAdd` | catalog-item.js:26-64 | removing a freshly added item restores the cart and the selected ids |
| `CatalogItem.ToggleCart` | catalog-item.js:630-641 | a click removes an item that is in the cart and adds one that is not |
| `CatalogItem.PageItemOf` | catalog-item.js:246-272 | the item id comes from the catalog pattern, else from the bundle pattern (then it is a bundle); none when neither matches |
| `CatalogItem.CatalogPaths` | catalog-item.js:246-272 | `/catalog/<d>/…` and `/xx/catalog/<d>/…` are asset pages with id `d` |
| `CatalogItem.BundlePath` | catalog-item.js:246-272 | `/bundles/<d>/…` is a bundle page with id `d` |
| `CatalogItem.BundlePathLocale` | catalog-item.js:246-272 | `/xx/bundles/<d>/…` is a bundle page with id `d` |
| `CatalogItem.EarnAmountBounds` | catalog-item.js:349-354 | the earn amount is at least 1; it is exactly 1 while `price × rate` is at most the 2-Robux floor, and otherwise `floor(0.7 × price × rate)` |
| `CatalogItem.DeriveCashback` | catalog-item.js:280-358 | the step-by-step derivation of price, rate, minimum price, reason and earn equals the specification `Derived` |
| `CatalogItem.DerivedFacts` | catalog-item.js:280-358 | rate is 5 or 10 %, minimum 20 or 40 (40 only for clothing at 5 %); a reason means no earn; sale-location and Roblox-limited items and off-sale items are never eligible; the price is null exactly when the item is neither listed nor off sale |
| `CatalogItem.LiveKeepsDefaults` | catalog-item.js:320-324 | a listed Live item keeps 10 % and minimum 20 |
| `CatalogItem.ClothingRate` | catalog-item.js:339-342 | listed non-Live classic clothing (asset types 2, 11, 12) gets 5 % and minimum 40 |
| `CatalogItem.SoldOutLimitedRate` | catalog-item.js:325-333 | a sold-out non-Roblox limited that is not clothing gets 5 % and minimum 20 |
| `CatalogItem.Rendered` | catalog-item.js:377-382 | nothing is rendered without a price; otherwise the button is enabled exactly when there is no reason and the price reaches the minimum; what this means per item is `CatalogItem.RenderedOfDerived` |
| `CatalogItem.RenderedOfDerived` | catalog-item.js:280-382 | an item neither listed nor off sale shows nothing; an off-sale item and a listed Roblox-created limited show a disabled button; an enabled button belongs to a listed item earning at least 1 at a price of at least 20 |
| `CatalogItem.Tooltip` | catalog-item.js:435-443 | each reason gets its own message (Roblox limited, not in game, off sale); with no reason the tooltip is the "price too low" text carrying the minimum price |
| `CatalogItem.DefaultButtonLabel` | catalog-item.js:536-544 | without a `catalogBuyBtn` text the label reads "Buy with RoEarn (Earn " icon " N)" with N formatted |
| `CatalogItem.SignedInUser` | catalog-item.js:275-278 | no button without a user: a missing id and the id 0 stop the page; any other id is passed on unchanged |
| `CatalogItem.CheckoutClick` | catalog-item.js:568-590 | the click does nothing exactly when there is no thumbnail; otherwise it opens checkout for the same record as the cart button's `itemData` (607-615): the page's id, "bundle" exactly for bundles, and the user id as text that parses back to the id |
| `ShoppingCart.ShouldShowCart` | shopping-cart.js:56-59 | the cart shows on URLs containing `/catalog` or `/bundles`; `ShoppingCart.CartShownOnItemPages` proves this covers every item page |
| `ShoppingCart.CartShownOnItemPages` | shopping-cart.js:56-59 | every catalog or bundle page from which the item script reads an id (`CatalogItem.PageItemOf`, catalog-item.js:263) shows the cart, whatever origin, query or fragment surround the path |
| `ShoppingCart.SelectedOf` | shopping-cart.js:555 | the cart entries whose id is selected, in cart order |
| `ShoppingCart.PopupTotals` | shopping-cart.js:552-568 | count, price total and earn total are over the selected entries only; the singular text exactly for one selected item, the plural one with the count otherwise; Buy is disabled exactly when no entry is selected |
| `ShoppingCart.TotalsPartition` | shopping-cart.js:552-561 | selected and unselected totals (price, earn, count) add up to the whole cart's |
| `ShoppingCart.AllSelected` | shopping-cart.js:552-561 | with every id selected the totals cover the whole cart |
| `ShoppingCart.WithoutIdsMembers` | shopping-cart.js:710-713 | removing a list of ids keeps exactly the entries whose id is not listed |
| `ShoppingCart.CartWidget.constructor` | shopping-cart.js:444-447 | the widget starts with no selection and the popup closed |
| `ShoppingCart.CartWidget.RemoveFromCart` | shopping-cart.js:75-82 | the cart loses the id and the selection map loses its key; the selected-id list is untouched |
| `ShoppingCart.CartWidget.SetItemSelectionState` | shopping-cart.js:98-102 | the selection map records the new state for the id; nothing else changes |
| `ShoppingCart.CartWidget.RemoveFromSelectionStates` | shopping-cart.js:104-108 | the selection map loses the id; nothing else changes |
| `ShoppingCart.CartWidget.UpdateBadge` | shopping-cart.js:481-493 | the badge shows the cart size and is hidden exactly when the cart is empty |
| `ShoppingCart.CartWidget.OpenPopup` | shopping-cart.js:517-550 | an id is selected exactly when it is in the cart and not stored as unselected; unseen ids are stored as selected; stored states are kept |
| `ShoppingCart.CartWidget.OnCheckboxChange` | shopping-cart.js:605-617 | checking adds the id to the selection and unchecking drops it; the stored state follows |
| `ShoppingCart.CartWidget.OnRemoveButton` | shopping-cart.js:629-638 | the id leaves the selection, the cart and the state map; the badge is refreshed; the stored selection and the popup stay as they were |
| `ShoppingCart.CartWidget.OnBuyClick` | shopping-cart.js:640-654 | with nothing selected nothing happens; otherwise exactly the selected entries go to bulk checkout and the popup closes |
| `ShoppingCart.CartWidget.OnRemoveEvent` | shopping-cart.js:707-724 | a list of ids removes each of them, else a non-empty single id is removed, else nothing changes; the badge is refreshed; the stored selection and the popup stay as they were |
| `ShoppingCart.RemoveEventLeaves` | shopping-cart.js:710-713 | after a list removal an entry remains exactly when its id was not listed |
| `Checkout.OwnershipCollection` | checkout.js:111-136 | ownership is asked of the game-pass, bundle or asset collection according to the asset type |
| `Checkout.CountCollection` | checkout.js:162-185 | counts use the bundle collection for bundles and the asset collection otherwise, never game passes |
| `Checkout.CollectionsAgree` | checkout.js:111-185 | both checks use the same collection except for game passes, whose count goes to assets |
| `Checkout.IsOwned` | checkout.js:111-136 | only a parsed body that is literally `true` means owned; what a failed lookup does to the monitor is `Checkout.FailedPollNeverDetects` |
| `Checkout.ListedCount` | checkout.js:162-185 | the listed number when a body with `data` parsed, else 0; its effect on detection is in `Checkout.FailedPollNeverDetects` and `Checkout.FailedBaselineDetectsAnyListing` |
| `Checkout.FailedPollNeverDetects` | checkout.js:111-185 | a poll whose lookups threw or were not ok never reports a purchase, whatever the monitor waits for |
| `Checkout.FailedBaselineDetectsAnyListing` | checkout.js:162-243 | when the first listing of an owned item failed, the first later poll that lists the item at all reports a purchase |
| `Checkout.Redirect` | checkout.js:149-159 | a game URL with `#!/` gets `?success` inserted before the first `#!/`; any other URL is cut at its first `?` or `#` (the base is the prefix that contains neither and ends at the text's end or at one of them) and gets `?success` appended |
| `Checkout.NoGamesInSuccessSuffix` | checkout.js:152-156 | appending `?success` cannot create a `/games/` the URL did not have |
| `Checkout.RedirectPlainStable` | checkout.js:149-159 | for a non-game URL, redirecting the redirect gives the same URL |
| `Checkout.Session.constructor` | checkout.js:138-160 | a page session starts at its URL with no stored purchase details |
| `Checkout.HandlePurchaseSuccess` | checkout.js:138-160 | it asks to remove the asset id from the cart, stores the purchase details and moves to `Redirect` of the URL |
| `Checkout.StartDecision` | checkout.js:189-244 | success at start leaves nothing to watch |
| `Checkout.MonitorRules` | checkout.js:200-243 | an already owned game pass succeeds at once; an unowned item is detected when it becomes owned; an owned item when its count rises |
| `Checkout.NoUserNoDetection` | checkout.js:194-198 | with no signed-in user nothing is ever detected |
| `Checkout.PurchaseMonitor.constructor` | checkout.js:189 | the monitor starts idle |
| `Checkout.PurchaseMonitor.Start` | checkout.js:189-244 | the result and the new watch are those of `StartDecision` |
| `Checkout.PurchaseMonitor.Tick` | checkout.js:219-243 | a tick succeeds exactly when the watch detects a purchase, and then stops watching |
| `Checkout.AutoJoins` | checkout.js:887-899 | auto-join runs exactly when the saved text is what ticking the box stores, `true` |
| `Checkout.AutoJoinRoundTrip` | checkout.js:887-899 | the stored checkbox state reads back as the same choice |
| `CheckoutBulk.SumsAppend` | checkout-bulk.js:94-95 | earn and price totals add over concatenation |
| `CheckoutBulk.SumsNonNegative` | checkout-bulk.js:94-95 | totals of non-negative entries are non-negative |
| `CheckoutBulk.CardHeight` | checkout-bulk.js:99-101 | the height is `68 n + 92` clamped to 252..456: 252 below that range, 456 above it, the value itself within it |
| `CheckoutBulk.CardHeightMonotonic` | checkout-bulk.js:99-101 | more items never shrink the card; up to 2 items give 252, 6 or more give 456 |
| `CheckoutBulk.BulkInventoryCount` | checkout-bulk.js:147-173 | a game pass counts 1 when owned and 0 otherwise; other items count as listed |
| `CheckoutBulk.GamepassCountBounded` | checkout-bulk.js:155-157 | an already owned game pass can never show a count above its initial one |
| `CheckoutBulk.StatesFrom` | checkout-bulk.js:214-230 | after the loop every item's id has a recorded state and earlier states keep their keys |
| `CheckoutBulk.InitialStateOfItem` | checkout-bulk.js:214-230 | the state recorded for an id is the one built from the last item carrying it |
| `CheckoutBulk.DistinctCartIds` | checkout-bulk.js:214-230 | a cart with distinct ids gives each item its own state |
| `CheckoutBulk.FreshOfItem` | checkout-bulk.js:233-252 | an item's state reports a purchase exactly when it was bought since the start |
| `CheckoutBulk.FreshOfState` | checkout-bulk.js:239-251 | a state reports a purchase exactly when an unowned item is now owned or an owned item's count rose |
| `CheckoutBulk.NewPurchaseIff` | checkout-bulk.js:233-259 | a tick finds a new purchase exactly when some item was bought since the start |
| `CheckoutBulk.BulkMonitor.constructor` | checkout-bulk.js:201-202 | no states recorded and no polling at first |
| `CheckoutBulk.BulkMonitor.Start` | checkout-bulk.js:204-231 | without a user nothing changes; otherwise each item's state is recorded and polling starts |
| `CheckoutBulk.BulkMonitor.Tick` | checkout-bulk.js:233-259 | the loop's answer is `NewPurchase` of the recorded states; polling stops on a purchase |
| `CheckoutBulk.SummaryName` | checkout-bulk.js:181 | "N item" gets a final `s` exactly when N is above 1 |
| `CheckoutBulk.SummaryCount` | checkout-bulk.js:181 | the summary name starts with the item count |
| `CheckoutBulk.HandleBulkSuccess` | checkout-bulk.js:175-200 | it asks to remove all the ids, stores the summary name, both totals and the count, and moves to `Redirect` of the URL |
| `CheckoutBulk.Step2Text` | checkout-bulk.js:776-778 | the singular instruction for one item, else the plural one with the count; its agreement with the stored name is `CheckoutBulk.Step2MatchesSummary` |
| `CheckoutBulk.Step2MatchesSummary` | checkout-bulk.js:776-778 | for a non-empty checkout the instruction is singular when the summary name has no final "s" and plural when it has one; an empty list gets the plural instruction with the singular name "0 item" |
| `SuccessPopup.HasSuccess` | success-popup.js:57-64 | success when a game URL carries `?success#!/`, or the query has `success` |
| `SuccessPopup.ShowSuccessPopup` | success-popup.js:57-77 | without success nothing is read; with it the stored details are returned once and cleared |
| `SuccessPopup.CleanedUrl` | success-popup.js:376-383 | a game URL loses its first `?success#!/` marker; other URLs get the query-cleaned form |
| `SuccessPopup.ClosePopup` | success-popup.js:366-383 | closing rewrites the URL to `CleanedUrl` and leaves the stored details alone |
| `SuccessPopup.RedirectInserts` | checkout.js:152-153 | the game redirect is the URL with `?success` spliced in before its first `#!/` |
| `SuccessPopup.RedirectKeepsGames` | checkout.js:152-153 | the game redirect still contains `/games/` |
| `SuccessPopup.RedirectMarkerFirst` | checkout.js:152-153 | in the redirect, the first success marker sits where the first `#!/` was |
| `SuccessPopup.CleanUndoesRedirect` | success-popup.js:376-383 | after a game redirect the popup shows, and closing it restores the original URL |
| `SuccessPopup.SecondButtonFor` | success-popup.js:328-340 | the avatar link shows exactly when the lower-cased URL mentions `catalog` or `bundle` |
| `SuccessPopup.UpperCatalogFound` | success-popup.js:328-329 | the test ignores case: `CATALOG` and `Bundle` also qualify |
| `SuccessPopup.CatalogPagesLinkAvatar` | success-popup.js:328-340 | a URL containing `catalog` or `bundle` gets the avatar link |
| `Marketplace.ShouldBeActive` | marketplace-search.js:121-123 | active when the URL mentions `salesTypeFilter`; what activity does to the grid is `Marketplace.SearchPage.HandleUrlChange` |
| `Marketplace.WordRun` | marketplace-search.js:128 | `\w+`: the longest run of word characters at the head |
| `Marketplace.FirstMatchFrom` | marketplace-search.js:128 | the leftmost start of a `/(\w+)/Webp/` match at or after `k` |
| `Marketplace.ItemTypeFromUrl` | marketplace-search.js:125-130 | a type comes only from the first match, as its word run; a non-empty URL with a match always yields one |
| `Marketplace.ItemTypeOfThumbnail` | marketplace-search.js:125-130 | `…/Type/Webp/…` yields `Type` |
| `Marketplace.EarnPercentage` | marketplace-search.js:132-156 | 5 % exactly for limiteds and classic clothing, 10 % otherwise |
| `Marketplace.MinimumPrice` | marketplace-search.js:158-168 | 40 exactly for limiteds and classic clothing, 20 otherwise |
| `Marketplace.RateMatchesMinimum` | marketplace-search.js:132-168 | the 5 % rate goes with the 40 minimum, so rate × minimum is always 200 |
| `Marketplace.FormatEarnAmount` | marketplace-search.js:170-182 | up to 9999 the grouped digits; below a million the K form; then the M form |
| `Marketplace.BadgeFor` | marketplace-search.js:210-292 | a badge exactly when the card is not a non-dynamic limited without a creator and has a parsed price at or above its minimum and a thumbnail; limiteds get the range from the 5 % to the 10 % amount, others the single amount at their type's rate, at least 1 |
| `Marketplace.BadgeOfPlainCard` | marketplace-search.js:210-292 | a plain card priced at or above its minimum gets the single earn amount at its type's rate |
| `Marketplace.FormatNumberTrimmed` | marketplace-search.js:239 | a formatted price has no surrounding whitespace |
| `Marketplace.SearchPage.constructor` | marketplace-search.js:210-215 | no card processed and no badge at first |
| `Marketplace.SearchPage.AddRoEarnBadge` | marketplace-search.js:210-292 | a processed card is skipped; otherwise it is marked processed and gets `BadgeFor` when there is one (`Visit` of the grid) |
| `Marketplace.VisitAllCards` | marketplace-search.js:302-311 | after visiting the first n cards all are marked; a card marked before keeps its badge or its lack of one; every other visited card shows exactly its own badge when it has one |
| `Marketplace.SearchPage.ProcessAll` | marketplace-search.js:302-311 | the loop over the grid leaves it as `VisitAll` of the cards' badges |
| `Marketplace.SearchPage.HandleUrlChange` | marketplace-search.js:357-366 | on an active URL every card is processed; on any other every badge and marker is removed |
| `Marketplace.SearchPage.RemoveAllBadges` | marketplace-search.js:294-300 | every badge and every processed mark is gone |
| `Gamepass.EligibleIff` | gamepass-store.js:225-230 | a pass is eligible exactly when its price is at least 40; the earn is `floor(0.035 × price)` |
| `Gamepass.StorePrice` | gamepass-store.js:203 | `parseInt(attr) \|\| 0`: a missing or unparsable price reads 0, else the parsed number |
| `Gamepass.MissingPriceIneligible` | gamepass-store.js:203-230 | a card without a readable price is never eligible |
| `Gamepass.FirstPassLinkFrom` | gamepass-store.js:212 | the leftmost position at or after `k` where `/game-pass/<digits>/` matches |
| `Gamepass.PassIdInHref` | gamepass-store.js:208-216 | the id is the digit run of the first `/game-pass/<digits>/` match; none exactly when no such match occurs |
| `Gamepass.PassIdOf` | gamepass-store.js:208-216 | `…/game-pass/<d>/…` yields `d` |
| `Gamepass.LargeThumbnailOf` | gamepass-store.js:218-223 | the first `/150/150/` becomes `/420/420/`; a URL without it is kept |
| `Gamepass.StoreButton` | gamepass-store.js:175-418 | a card gets an earn button exactly when its price is at least 40; its click exists exactly when there is a non-empty thumbnail and a pass id in the link, and sends a game-pass checkout with the large thumbnail, the trimmed name or "Unknown Gamepass", the parsed price, its earn, the user and the pass id |
| `Gamepass.StoreButtons` | gamepass-store.js:175-430 | one button per card, in card order |
| `Gamepass.ButtonsFromCards` | gamepass-store.js:175-179 | after visiting the first n cards the footers with a button are exactly the old ones plus every visited card; a footer that already had a button keeps it; every other visited card gets its own |
| `Gamepass.GamepassStore.constructor` | gamepass-store.js:175-179 | no card has a button at first |
| `Gamepass.GamepassStore.AddGamePassCashbackButtons` | gamepass-store.js:139-430 | off a game page's store tab or without a user nothing changes; otherwise the buttons are `ButtonsFrom` the store buttons |
| `Gamepass.GamepassStore.FillFooters` | gamepass-store.js:175-179 | the `forEach` over the cards leaves the buttons `ButtonsFrom` the old ones and the cards' buttons |
| `Gamepass.ChooseAnchor` | gamepass-page.js:241-246 | the first of purchase button, roearn buy button and growth button that exists anchors the button; none when none exists |
| `Gamepass.PageButton` | gamepass-page.js:229-420 | an earn button exactly when the price is at least 40; it is clickable exactly when there is a thumbnail, and the click carries the name or "Unknown Gamepass" |
| `Gamepass.DefaultPageLabel` | gamepass-page.js:372-378 | without a `gamepassBuyBtn` text the label reads "Buy (Earn " icon " N)" |
| `Gamepass.PageOutcome` | gamepass-page.js:167-425 | a button is inserted only on a game-pass path, with a user, a product reply with a price and an anchor, when none was there |
| `Gamepass.GamepassPage.constructor` | gamepass-page.js:187-190 | no button on the page at first |
| `Gamepass.GamepassPage.AddGamePassCashbackButton` | gamepass-page.js:167-425 | an inserted button stays; otherwise the page gets `PageOutcome` |
| `Gamepass.PassPageGetsButton` | gamepass-page.js:178-425 | `/game-pass/<d>/…` with a user, a price of at least 40, a thumbnail and a purchase button gets a clickable button for pass `d` |
| `Withdrawal.TargetOneSpecialCase` | initiate-withdrawal.js:173-181 | price 1 would already round to 1 Robux received, so answering 2 for a balance of 1 is a special case, not the minimum |
| `Withdrawal.DoubleSuffices` | initiate-withdrawal.js:183-189 | twice the target always clears it, so the search ends |
| `Withdrawal.SmallTargetMet` | initiate-withdrawal.js:183-189 | a target of at most 1 is met at the target itself |
| `Withdrawal.GetGamepassPrice` | initiate-withdrawal.js:173-190 | 2 for target 1; otherwise the least price from the target up whose rounded 70 % reaches the target, at most twice the target |
| `Withdrawal.MinimalPriceUnique` | initiate-withdrawal.js:173-190 | the least such price is unique |
| `Withdrawal.FirstWithUniverse` | initiate-withdrawal.js:114-120 | the result has a universe id and every earlier game lacks one; none exactly when no game has one |
| `Withdrawal.SelectGame` | initiate-withdrawal.js:114-120 | the loop answers `GameOf` the data: the first game with a universe id; none exactly when the list is missing or no game has one |
| `Withdrawal.FirstForSale` | initiate-withdrawal.js:245 | the first pass that is for sale; none exactly when no pass is |
| `Withdrawal.FindExistingPass` | initiate-withdrawal.js:226-258 | the cursor-following loop returns `SearchFrom` the first page |
| `Withdrawal.SearchFindsFirst` | initiate-withdrawal.js:226-258 | after pages with nothing for sale, the first for-sale pass of the next page is found |
| `Withdrawal.SearchNoneForSale` | initiate-withdrawal.js:226-262 | if no page offers a pass for sale, the search reports none |
| `Withdrawal.SearchFoundIsForSale` | initiate-withdrawal.js:226-258 | a found pass is for sale |
| `Withdrawal.InitiateWithdrawal` | initiate-withdrawal.js:80-334 | a report happens exactly when user, inventory with a game, token, created pass (status 200) and its price (or the reuse of an existing pass for sale) all succeed, otherwise the one localized error; a report carries the requested price, the user, the first game's universe and place, the new pass or the one the page search found, a pass price that is the least from the balance up whose share reaches it, and succeeds exactly when the API accepted the withdrawal |
| `Dashboard.AlphabetIncreasing` | dashboard.js:177 | the 24 code letters are strictly increasing, so each appears once |
| `Dashboard.InAlphabetIff` | dashboard.js:2290 | the range test agrees with membership in the alphabet |
| `Dashboard.Index` | dashboard.js:2296 | `alphabet.indexOf(c)` is the position of `c` |
| `Dashboard.UserIdToReferralCode` | dashboard.js:176-193 | the loop computes `Code` of the parsed id |
| `Dashboard.OnlyAlphabet` | dashboard.js:2289-2293 | the first loop accepts exactly the codes spelled in the alphabet |
| `Dashboard.ReferralCodeToUserId` | dashboard.js:2284-2300 | the two loops compute `Decode` of the code |
| `Dashboard.EncOverAlphabet` | dashboard.js:186-190 | the bijective base-24 text is over the alphabet and empty only for 0 |
| `Dashboard.CodeShape` | dashboard.js:176-193 | a non-negative id has a non-empty code over the alphabet; id 0 is `A`; a missing or negative id gives the empty text |
| `Dashboard.ValEnc` | dashboard.js:2295-2297 | reading back the base-24 text gives the number |
| `Dashboard.EncVal` | dashboard.js:186-190 | every text over the alphabet is the base-24 text of its value |
| `Dashboard.CodeRoundTrip` | dashboard.js:176-193 | decoding the code of a non-negative user id gives the id back |
| `Dashboard.DecodeRoundTrip` | dashboard.js:2284-2300 | every non-empty code over the alphabet decodes to a non-negative id whose code is that text |
| `Dashboard.DecodeRejects` | dashboard.js:2289-2293 | decoding fails exactly when some character is outside the alphabet; the empty code decodes to -1 |
| `Dashboard.ValidateReferralCode` | dashboard.js:2302-2309 | blank input is valid |
| `Dashboard.ValidateIff` | dashboard.js:2302-2309 | non-blank input is valid exactly when its upper-case form is over the alphabet |
| `Dashboard.OnReferralInput` | dashboard.js:2311-2383 | blank input clears; input not over the alphabet is invalid; the user's own code is refused; any other code is accepted for the id it encodes |
| `Dashboard.OwnCodeRefused` | dashboard.js:2335-2347 | typing one's own code, in any case and padding, is refused and disables Start |
| `Dashboard.OtherCodeAccepted` | dashboard.js:2348-2356 | typing another user's code is accepted for that user |
| `Dashboard.PendingRobux` | dashboard.js:2728-2737 | the loop computes `PendingSum` of the items |
| `Dashboard.ContributionBounds` | dashboard.js:2732-2735 | an item adds at least 1 when its cashback reaches 2 Robux and nothing otherwise |
| `Dashboard.PendingPositiveIff` | dashboard.js:2728-2740 | the pending total is never negative, and positive exactly when some item's cashback reaches 2 |
| `Dashboard.Batches` | dashboard.js:1880-1885 | the slices concatenate back to the ids, each holds 1..size ids, and all but the last are full |
| `Dashboard.UserDataBatches` | dashboard.js:1879-1885 | user ids go out in batches of at most 100 that together are the whole list |
| `Dashboard.ThumbnailBatches` | dashboard.js:1913-1919 | thumbnail ids go out in batches of at most 90 that together are the whole list |
| `Dashboard.BalanceOf` | dashboard.js:225-238 | a failed balance answer reads 0; a successful one its balance |
| `Dashboard.DashboardState.constructor` | dashboard.js:173-174 | no cached balance or user at first |
| `Dashboard.DashboardState.GetAuthenticatedUser` | dashboard.js:195-223 | a cached user is returned without asking; otherwise a good reply is cached and returned, 401 redirects to login, any other failure gives none |
| `Dashboard.DashboardState.RefreshBalance` | dashboard.js:239-246 | the user is looked up as `getAuthenticatedUser` does: the cached one kept, else the fetched one cached, and a 401 sends the page to login; with a user the cached balance becomes that user's balance answer, without one it is unchanged |
| `Dashboard.DashboardState.OnWithdrawClick` | dashboard.js:2803-2926 | ignored while withdrawals are off; refused below 4 cached, leaving user and login state alone; otherwise the user is looked up as `getAuthenticatedUser` does (cached, else fetched and cached, a 401 sends the page to login); with a user a withdrawal starts exactly at a fresh balance of at least 1, at that balance, and otherwise reports the minimum; failing to get the user shows error 695 |
| `ReviewPrompt.AfterClick` | review-prompt.js:161-171 | after a star click the user has reviewed and the prompt is no longer armed |
| `ReviewPrompt.AfterWithdrawal` | dashboard.js:2869-2874 | a successful withdrawal arms the prompt unless the user has reviewed |
| `ReviewPrompt.ReviewedStaysHidden` | review-prompt.js:57-62 | once reviewed, no sequence of withdrawals and clicks shows the prompt again |
| `ReviewPrompt.HoverPattern` | review-prompt.js:150-159 | hovering star `index` lights exactly the stars up to it |
| `ReviewPrompt.HoverLightsPrefix` | review-prompt.js:150-159 | hovering star `index` lights exactly `index + 1` stars |
| `ReviewPrompt.Prompt.constructor` | review-prompt.js:72-76 | five unlit stars and the prompt not shown |
| `ReviewPrompt.Prompt.Load` | review-prompt.js:57-63 | the prompt shows exactly when armed and not reviewed |
| `ReviewPrompt.Prompt.Hover` | review-prompt.js:150-159 | the loop leaves the stars in `HoverPattern` |
| `ReviewPrompt.Prompt.Leave` | review-prompt.js:175-177 | every star is unlit |
| `ReviewPrompt.Prompt.Click` | review-prompt.js:161-171 | the flags become `AfterClick` and the prompt goes away |
| `ReviewPrompt.Prompt.Rearm` | dashboard.js:2869-2874 | the flags become `AfterWithdrawal` |
| `UpdateCheck.StoredNumber` | update-check.js:6 | the stored text reads as a number exactly when it is a non-empty digit run |
| `UpdateCheck.Throttle.constructor` | update-check.js:3 | the throttle holds the stored timestamp |
| `UpdateCheck.Throttle.Run` | update-check.js:1-9 | a check is sent exactly when due, and then the current time is stored; otherwise storage is unchanged |
| `UpdateCheck.StoredRoundTrip` | update-check.js:4-7 | the stored timestamp reads back as the time written |
| `UpdateCheck.ThrottleWindow` | update-check.js:1-9 | after a check at `t`, the next is sent exactly when more than 30 minutes have passed; a first load always sends |
| `UpdateCheck.NonNumericBlocks` | update-check.js:6 | a non-empty, non-numeric stored value blocks every later check |
| `Background.LocaleTableInvertible` | background.js:6-23 | the Roblox-to-extension locale table is one-to-one and lands in the supported locales |
| `Background.ResolveLocale` | background.js:25-40 | missing or empty locale gives `en`; a known one its table entry; an unknown one `en`; always a supported locale |
| `Background.ResolveRoundTrip` | background.js:33-34 | every supported locale is reached from its Roblox locale |
| `Background.LocalStore.constructor` | background.js:25 | no locale stored at first |
| `Background.LocalStore.FetchAndStoreLocale` | background.js:25-40 | a parsed reply stores `ResolveLocale` of its locale; a failed one leaves storage alone |
| `Background.ManualReviewalStatus` | background.js:76-106 | pending exactly when the body says `under_review` and has items; the count is the number of items returned |
| `Background.RoEarnBalance` | background.js:108-135 | the balance when the body is `ok` with a numeric balance, else 0 |
| `Background.HasReferral` | background.js:189-215 | the body's flag when it is `ok`, else `false` |
| `Background.ReferralStats` | background.js:217-246 | the body's totals when it is `ok`, else zeros |
| `Background.ReferralList` | background.js:268-294 | the body's referrals when it is `ok`, else the empty list |
| `Background.UserGuarded` | background.js:366-385 | a request succeeds exactly when its user id is truthy; otherwise it answers the fallback and the missing-user error |
| `Background.HandleGetBalance` | background.js:485-504 | no user gives balance 0 and the error; otherwise success with `RoEarnBalance` |
| `Background.HandleGetReferralList` | background.js:366-385 | no user gives the empty list and the error; otherwise success with `ReferralList` |
| `Background.HandleGetReferralStats` | background.js:387-406 | no user gives zero stats and the error; otherwise success with `ReferralStats` |
| `Background.HandleGetManualReviewal` | background.js:408-426 | no user gives not-pending with no error text; otherwise success with `ManualReviewalStatus` |
| `Background.HandleHasReferral` | background.js:428-447 | no user gives `false` and the error; otherwise success with `HasReferral` |
| `Background.SetReferralResult` | background.js:162-187 | success exactly on an OK reply; a throw reports its message; a refusal reports the API's error or the fallback text |
| `Background.SubmitWithdrawalResult` | background.js:137-160 | success exactly on an OK reply; a refusal reports "Failed to submit withdrawal to API" |
| `Background.HandleSetReferral` | background.js:449-474 | success exactly when user, code and pass id are given and the API accepts; each missing argument has its own error |
| `Background.HandleSubmitWithdrawal` | background.js:506-525 | success exactly when user and pass id are given and the API accepts; otherwise the missing-argument error |
| `Background.InvalidRequestsNeverReachServer` | background.js:456-465 | a request missing an argument gets the same answer whatever the server would have said |
| `Background.JsString` | background.js:331 | `String(x)`: text stays itself; a number becomes its decimal text, with `-` when negative; a missing value becomes `undefined` and `null` becomes `null` |
| `Background.FormatBulkItems` | background.js:329-332 | one formatted item per input item, position by position |
| `Background.FormatBulkAppend` | background.js:329-332 | formatting distributes over concatenation |
| `Background.FormattedIdsParse` | background.js:329-332 | a formatted item keeps its type, and a non-negative numeric id parses back from its text |
| `Background.BulkLaunchRequest` | background.js:334-341 | the request body carries the user id as text and each item's type and id text, in order |

## Left out

- DOM building, CSS, animations, `MutationObserver` polling, timers and
  `waitForElement`/`waitForThumbnail` are left out. Their results (whether
  an element exists, a thumbnail URL, a click) are parameters.
- The scripts' re-entrancy flags (`isAddingButton`, `isAddingButtons`,
  `isInitializing`) and abort controllers are left out. They only guard
  against concurrent runs, and the model runs one call at a time.
- `getMessage`: a substitution text containing `$&`, `` $` ``, `$'` or `$$`
  is inserted literally. JavaScript would expand those patterns.
- `Marketplace.FormatEarnAmount`: only the branch is modelled for the K and
  M forms. The `toFixed(1)` text is left out because it rounds binary
  floating point.
- Balances, prices and earn amounts are exact integers. The model has no
  NaN, no fractional balance and no IEEE rounding. Where the rounding of a
  product by `0.7` changes a result, the model gives the exact answer and
  the script a different one:
- `Withdrawal.GetGamepassPrice`: its rounding test `Withdrawal.Received` is
  exact. In doubles `45 * 0.7 + 0.5` is `31.999999999999996`, so for a
  balance of 32 the script prices the pass at 46 Robux, while the model
  answers 45.
- `Gamepass.GamepassEarn` (store and pass page): `1800 * 0.05 * 0.70` is
  `62.99999999999999` in doubles, so the script shows 62 at price 1800
  and the model 63.
- `Marketplace.BadgeEarn`: at price 1800 the 5 % amount, and at price 900
  the 10 % amount, are 62 in the script (`62.99999999999999` floored) and
  63 in the model.
- `CatalogItem.EarnAmount`: at price 900 and a 10 % rate the script's
  `Math.max(90, 2) * 0.70` is `62.99999999999999`, so it shows 62 where the
  model shows 63.
- `Dashboard.Contribution`: an item of price 900 at 10 % adds 62 to the
  script's pending total and 63 to the model's.
- `toUpperCase`/`toLowerCase` map ASCII letters only. Case mapping beyond
  ASCII is not modelled.
- `parseInt` does not skip leading whitespace in the model. Every caller
  passes an attribute, a trimmed text or a path capture.
- `UpdateCheck.StoredNumber`: `Number(s)` accepts only a plain digit run.
  Signs, decimals, exponents and surrounding whitespace are not modelled.
  The extension itself only ever stores `Date.now()`.
- `URLSearchParams` and `URL` are left out of `SuccessPopup`. "the query
  has `success`" is a boolean input, and the non-game URL cleanup is a text
  input.
- `CatalogItem.CheckoutClick` takes the user id as a natural number that
  `CatalogItem.SignedInUser` has already let through. A negative id, truthy
  in JavaScript, is not modelled; user ids are positive.
- `Withdrawal.FindExistingPass` requires the list of page replies to end
  (`ChainEnds`). A server that hands out cursors forever is not modelled.
- `Withdrawal.InitiateWithdrawal`: the `details` payloads attached to some
  failures, the spread of `gameData` into the failure result, and the
  `window.gamePassId` global are left out. The pass id is a local.
- Cart contents are not validated: the model trusts what storage returns,
  as the scripts do.
- A store card without a `.store-card-footer` or `.store-card` (a null
  dereference that the surrounding `try` swallows) is not modelled. Every
  card is taken to have both.
- `Background.ManualReviewalStatus`: the missing-user answer of
  `GET_MANUAL_REVIEWAL` leaves out the `items` field entirely. The model
  gives the empty list there.
- `Background.LocaleTableInvertible`: keys inherited from
  `Object.prototype` (such as `constructor`) would index the locale table
  in JavaScript; the model looks up only the table's own 16 entries.
- The error payloads (`data`, thrown `error.message` on a network failure
  outside the API call) and the `data` pass-through of `setReferral` and
  `submitWithdrawal` are reduced to success and the error text.
- background.js: the single `LAUNCH_GAME` message, `GET_ANNOUNCEMENT`,
  `CHECK_UPDATE`'s fetch, the message relay from the page (background.js
  527-568), `launchGameInstance`, alarms, `onInstalled` and tab opening
  are not modelled. They forward data and do no computation of their own.
- `CheckoutBulk.BulkInventoryCount`: an already owned game pass in a bulk
  checkout counts at most 1, so a repeat purchase of it is never detected
  (`CheckoutBulk.GamepassCountBounded` proves this). It is modelled as
  written.
- `CheckoutBulk.SummaryName`: with zero items the name is "0 item", as
  written. The cart never sends an empty list.
- The dashboard's pending-notice text (`replace("X", total)`), the
  referral avatar lookup, the announcement banner and the balance's
  `toLocaleString` display are left out. They are display only.
- hide.js, injector.js, navbar-robux-icon.js, remove-footer.js and
  sidebar-button.js are not part of this model. They only inject or hide
  page elements.
