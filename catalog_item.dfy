/** catalog-item.js: the catalog/bundle page script. It reads the item id
    from the path, derives the cashback rate, minimum price, ineligibility
    reason and earn amount from the item's details, and adds the item to or
    removes it from the stored cart. */
module CatalogItem {
  import opened Text
  import opened Messages
  import opened Paths
  import opened CartStorage

  // ---------------------------------------------------------------------------
  // The cart

  /** `isInCart`. */
  method IsInCart(store: Storage, assetId: string) returns (r: bool)
    ensures r <==> assetId in Ids(store.cart)
  {
    r := exists i :: 0 <= i < |store.cart| && store.cart[i].assetId == assetId;
  }

  /** `addToCart`: an item whose id is already in the cart changes nothing;
      otherwise it goes at the end, and its id joins the selected list
      unless it is there already. */
  method AddToCart(store: Storage, item: CartItem) returns (cart: seq<CartItem>)
    modifies store
    ensures old(item.assetId in Ids(store.cart)) ==>
              store.cart == old(store.cart) && store.selected == old(store.selected)
    ensures old(item.assetId !in Ids(store.cart)) ==>
              store.cart == old(store.cart) + [item] &&
              store.selected == old(store.selected) +
                                (if item.assetId in old(store.selected) then [] else [item.assetId])
    ensures store.states == old(store.states)
    ensures old(Distinct(Ids(store.cart))) ==> Distinct(Ids(store.cart))
    ensures old(Distinct(store.selected)) ==> Distinct(store.selected)
    ensures cart == store.cart
  {
    var present := IsInCart(store, item.assetId);
    if !present {
      store.cart := store.cart + [item];
      assert Ids(store.cart) == old(Ids(store.cart)) + [item.assetId];
      if item.assetId !in store.selected {
        store.selected := store.selected + [item.assetId];
      }
    }
    cart := store.cart;
  }

  /** `removeFromCart`: every entry with the id leaves the cart and the
      selected list; the rest keep their order. */
  method RemoveFromCart(store: Storage, assetId: string) returns (cart: seq<CartItem>)
    modifies store
    ensures store.cart == WithoutItem(old(store.cart), assetId)
    ensures store.selected == WithoutId(old(store.selected), assetId)
    ensures store.states == old(store.states)
    ensures assetId !in Ids(store.cart) && assetId !in store.selected
    ensures old(Distinct(Ids(store.cart))) ==> Distinct(Ids(store.cart))
    ensures cart == store.cart
  {
    ghost var before := store.cart;
    store.cart := WithoutItem(store.cart, assetId);
    store.selected := WithoutId(store.selected, assetId);
    WithoutItemMembers(before, assetId);
    WithoutIdMembers(old(store.selected), assetId);
    if Distinct(Ids(before)) {
      WithoutItemDistinct(before, assetId);
    }
    cart := store.cart;
  }

  /** Removing an item that adding just put in restores both lists. */
  lemma RemoveUndoesAdd(cart: seq<CartItem>, selected: seq<string>, item: CartItem)
    requires item.assetId !in Ids(cart) && item.assetId !in selected
    ensures WithoutItem(cart + [item], item.assetId) == cart
    ensures WithoutId(selected + [item.assetId], item.assetId) == selected
  {
    WithoutItemAbsent(cart, item.assetId);
    assert (cart + [item])[..|cart|] == cart;
    WithoutIdAbsent(selected, item.assetId);
    assert (selected + [item.assetId])[..|selected|] == selected;
  }

  /** The cart button's click handler: remove the item when it is in the
      cart, add it otherwise. */
  method ToggleCart(store: Storage, item: CartItem)
    modifies store
    ensures old(item.assetId in Ids(store.cart)) ==>
              store.cart == WithoutItem(old(store.cart), item.assetId) &&
              store.selected == WithoutId(old(store.selected), item.assetId)
    ensures old(item.assetId !in Ids(store.cart)) ==>
              store.cart == old(store.cart) + [item] &&
              store.selected == old(store.selected) +
                                (if item.assetId in old(store.selected) then [] else [item.assetId])
    ensures store.states == old(store.states)
  {
    var inCart := IsInCart(store, item.assetId);
    if inCart {
      var _ := RemoveFromCart(store, item.assetId);
    } else {
      var _ := AddToCart(store, item);
    }
  }

  // ---------------------------------------------------------------------------
  // The item id

  /** The page's item: its id and whether it is a bundle. */
  datatype PageItem = PageItem(id: string, isBundle: bool)

  /** The catalog pattern is tried first, then the bundle pattern; any
      other path does nothing. */
  function PageItemOf(path: string): (r: Option<PageItem>)
    ensures r.Some? ==> r.value.id != [] && AllDigits(r.value.id)
    ensures r.Some? && !r.value.isBundle ==> PathId(path, "catalog") == Some(r.value.id)
    ensures r.Some? && r.value.isBundle ==> PathId(path, "catalog").None? &&
                                            PathId(path, "bundles") == Some(r.value.id)
    ensures r.None? <==> PathId(path, "catalog").None? && PathId(path, "bundles").None?
  {
    match PathId(path, "catalog")
    case Some(id) => Some(PageItem(id, false))
    case None =>
      match PathId(path, "bundles")
      case Some(id) => Some(PageItem(id, true))
      case None => None
  }

  /** `/catalog/<d>/...`, with or without a locale segment, names item d. */
  lemma CatalogPaths(locale: string, d: string, tail: string)
    requires d != [] && AllDigits(d)
    requires |locale| == 2 && IsAsciiLower(locale[0]) && IsAsciiLower(locale[1])
    ensures PageItemOf("/catalog/" + d + "/" + tail) == Some(PageItem(d, false))
    ensures PageItemOf("/" + locale + "/catalog/" + d + "/" + tail) == Some(PageItem(d, false))
  {
    CatalogPlain(d, tail);
    CatalogLocale(locale, d, tail);
  }

  lemma CatalogPlain(d: string, tail: string)
    requires d != [] && AllDigits(d)
    ensures PageItemOf("/catalog/" + d + "/" + tail) == Some(PageItem(d, false))
  {
    CatalogPlainId(d, tail);
    ItemOfCatalogId("/catalog/" + d + "/" + tail, d);
  }

  lemma CatalogPlainId(d: string, tail: string)
    requires d != [] && AllDigits(d)
    ensures PathId("/catalog/" + d + "/" + tail, "catalog") == Some(d)
  {
    PathIdPlain("/catalog/", "catalog", d, tail);
  }

  lemma CatalogLocale(locale: string, d: string, tail: string)
    requires d != [] && AllDigits(d)
    requires |locale| == 2 && IsAsciiLower(locale[0]) && IsAsciiLower(locale[1])
    ensures PageItemOf("/" + locale + "/catalog/" + d + "/" + tail) == Some(PageItem(d, false))
  {
    CatalogLocaleId(locale, d, tail);
    ItemOfCatalogId("/" + locale + "/catalog/" + d + "/" + tail, d);
  }

  lemma CatalogLocaleId(locale: string, d: string, tail: string)
    requires d != [] && AllDigits(d)
    requires |locale| == 2 && IsAsciiLower(locale[0]) && IsAsciiLower(locale[1])
    ensures PathId("/" + locale + "/catalog/" + d + "/" + tail, "catalog") == Some(d)
  {
    PathIdLocale(locale, "/catalog/", "catalog", d, tail);
  }

  /** A path the catalog pattern matches names that catalog item. */
  lemma ItemOfCatalogId(p: string, d: string)
    requires PathId(p, "catalog") == Some(d)
    ensures PageItemOf(p) == Some(PageItem(d, false))
  {
  }

  /** A path only the bundle pattern matches names that bundle. */
  lemma ItemOfBundleId(p: string, d: string)
    requires PathId(p, "catalog").None? && PathId(p, "bundles") == Some(d)
    ensures PageItemOf(p) == Some(PageItem(d, true))
  {
  }

  /** `/bundles/<d>/...` names bundle d (the catalog pattern fails first). */
  lemma BundlePath(d: string, tail: string)
    requires d != [] && AllDigits(d)
    ensures PageItemOf("/bundles/" + d + "/" + tail) == Some(PageItem(d, true))
  {
    BundlePlainIds(d, tail);
    ItemOfBundleId("/bundles/" + d + "/" + tail, d);
  }

  lemma BundlePlainIds(d: string, tail: string)
    requires d != [] && AllDigits(d)
    ensures PathId("/bundles/" + d + "/" + tail, "bundles") == Some(d)
    ensures PathId("/bundles/" + d + "/" + tail, "catalog").None?
  {
    PathIdPlain("/bundles/", "bundles", d, tail);
    NotCatalog("/bundles/" + d + "/" + tail);
  }

  /** A path whose second character is `b` is no catalog path. */
  lemma NotCatalog(p: string)
    requires |p| > 4 && p[1] == 'b' && p[3] == 'n'
    ensures PathId(p, "catalog").None?
  {
    assert !StartsWith(p, "/catalog/") by { assert p[1] == 'b'; }
    PathIdOther(p, "catalog");
  }

  /** So does `/<ll>/bundles/<d>/...`. */
  lemma BundlePathLocale(locale: string, d: string, tail: string)
    requires d != [] && AllDigits(d)
    requires |locale| == 2 && IsAsciiLower(locale[0]) && IsAsciiLower(locale[1])
    ensures PageItemOf("/" + locale + "/bundles/" + d + "/" + tail) == Some(PageItem(d, true))
  {
    BundleLocaleIds(locale, d, tail);
    ItemOfBundleId("/" + locale + "/bundles/" + d + "/" + tail, d);
  }

  lemma BundleLocaleIds(locale: string, d: string, tail: string)
    requires d != [] && AllDigits(d)
    requires |locale| == 2 && IsAsciiLower(locale[0]) && IsAsciiLower(locale[1])
    ensures PathId("/" + locale + "/bundles/" + d + "/" + tail, "bundles") == Some(d)
    ensures PathId("/" + locale + "/bundles/" + d + "/" + tail, "catalog").None?
  {
    PathIdLocale(locale, "/bundles/", "bundles", d, tail);
    var p := "/" + locale + "/bundles/" + d + "/" + tail;
    assert p[3] == '/' && p[4] == 'b';
    NotLocaleCatalog(p);
  }

  /** Nor is a path whose locale segment is followed by a `b`. */
  lemma NotLocaleCatalog(p: string)
    requires |p| > 4 && p[3] == '/' && p[4] == 'b'
    ensures PathId(p, "catalog").None?
  {
    assert !StartsWith(p, "/catalog/") by { assert p[3] == '/'; }
    assert !StartsWith(p[4..], "catalog/") by { assert p[4] == 'b'; }
    PathIdOther(p, "catalog");
  }

  // ---------------------------------------------------------------------------
  // Cashback

  /** The fields of the catalog details answer the derivation reads; `None`
      stands for null or undefined. */
  datatype ItemDetails = ItemDetails(
    isOffSale: bool,                       // `isOffSale === true`
    priceStatus: Option<string>,
    lowestPrice: Option<int>,
    price: Option<int>,
    assetType: Option<int>,
    itemRestrictions: Option<seq<string>>,
    creatorTargetId: Option<int>,
    unitsAvailableForConsumption: Option<int>,
    saleLocationType: Option<string>)

  datatype Reason = OffSale | RobloxLimited | NotInGame

  /** What the derivation leaves behind: the price (null when none was
      set), the rate in percent, the minimum price, the ineligibility reason
      and the earn amount. */
  datatype Cashback = Cashback(price: Option<int>, ratePercent: int, minPrice: int,
                               reason: Option<Reason>, earn: int)

  /** A number's truthiness: present and not 0. */
  predicate Truthy(x: Option<int>)
  {
    x.Some? && x.value != 0
  }

  function Restrictions(d: ItemDetails): seq<string>
  {
    if d.itemRestrictions.Some? then d.itemRestrictions.value else []
  }

  /** The branch that reads `lowestPrice`: not marked "Off Sale" and a
      lowest price present. */
  predicate Listed(d: ItemDetails)
  {
    d.priceStatus != Some("Off Sale") && d.lowestPrice.Some?
  }

  predicate IsLimited(d: ItemDetails) { |Restrictions(d)| > 0 }

  predicate IsLive(d: ItemDetails) { "Live" in Restrictions(d) }

  /** Created by Roblox (creator 1) with a restriction mentioning "Limited"
      or equal to "Collectible". */
  predicate IsRobloxLimited(d: ItemDetails)
  {
    d.creatorTargetId == Some(1) &&
    ((exists r :: r in Restrictions(d) && Contains(r, "Limited")) || "Collectible" in Restrictions(d))
  }

  /** Asset types 2, 11 and 12 (T-shirts, shirts and pants). */
  predicate IsClothing(d: ItemDetails)
  {
    d.assetType == Some(2) || d.assetType == Some(11) || d.assetType == Some(12)
  }

  predicate SoldOut(d: ItemDetails)
  {
    d.unitsAvailableForConsumption.None? || d.unitsAvailableForConsumption.value == 0
  }

  /** Sold somewhere other than "ShopAndAllExperiences" (an empty string is
      falsy and does not count). */
  predicate NotSoldInGame(d: ItemDetails)
  {
    d.saleLocationType.Some? && d.saleLocationType.value != "" &&
    d.saleLocationType.value != "ShopAndAllExperiences"
  }

  /** `Math.floor(Math.max(price * rate, 2) * 0.70)` for a rate of
      `ratePercent`%, in exact arithmetic: floor(7 * max(price*rate, 200) / 1000);
      the double rounding of the script is not followed. */
  function EarnAmount(price: int, ratePercent: int): int
  {
    var c100 := price * ratePercent;   // 100 times the cashback
    (7 * (if c100 >= 200 then c100 else 200)) / 1000
  }

  /** The earn amount is at least 1 (the floor of 2 * 0.7), and above the
      floor it is 70% of the cashback, rounded down. */
  lemma EarnAmountBounds(price: int, ratePercent: int)
    ensures EarnAmount(price, ratePercent) >= 1
    ensures price * ratePercent <= 200 ==> EarnAmount(price, ratePercent) == 1
    ensures price * ratePercent >= 200 ==>
              1000 * EarnAmount(price, ratePercent) <= 7 * price * ratePercent <
              1000 * (EarnAmount(price, ratePercent) + 1)
  {
  }

  /** The result of the derivation, case by case. */
  function Derived(d: ItemDetails): Cashback
  {
    var listed := Listed(d);
    var price :=
      if listed then d.lowestPrice
      else if d.isOffSale then
        Some(if Truthy(d.lowestPrice) then d.lowestPrice.value
             else if Truthy(d.price) then d.price.value else 0)
      else None;
    var reason :=
      if listed && NotSoldInGame(d) then Some(NotInGame)
      else if listed && IsRobloxLimited(d) then Some(RobloxLimited)
      else if d.isOffSale then Some(OffSale)
      else None;
    var ratePercent :=
      if listed && !IsLive(d) && IsClothing(d) then 5
      else if listed && !IsRobloxLimited(d) && !IsLive(d) && IsLimited(d) && SoldOut(d) then 5
      else 10;
    var minPrice := if listed && !IsLive(d) && IsClothing(d) then 40 else 20;
    var earn := if reason.None? && price.Some? then EarnAmount(price.value, ratePercent) else 0;
    Cashback(price, ratePercent, minPrice, reason, earn)
  }

  /** The derivation in `duplicatePurchaseButton`: start from 10% and a
      minimum of 20, and adjust the price, the rate, the minimum and the
      reason step by step as the details are read. */
  method DeriveCashback(d: ItemDetails) returns (c: Cashback)
    ensures c == Derived(d)
  {
    var itemPrice: Option<int> := None;
    var cashbackAmount := 0;
    var cashbackRate := 10;
    var minPrice := 20;
    var reason: Option<Reason> := None;
    if d.isOffSale {
      reason := Some(OffSale);
      itemPrice := Some(if Truthy(d.lowestPrice) then d.lowestPrice.value
                        else if Truthy(d.price) then d.price.value else 0);
    }
    if d.priceStatus != Some("Off Sale") && d.lowestPrice.Some? {
      var isLimitedItem := IsLimited(d);
      var isLive := IsLive(d);
      if IsRobloxLimited(d) {
        reason := Some(RobloxLimited);
        itemPrice := Some(d.lowestPrice.value);
      } else if isLive {
        itemPrice := d.lowestPrice;
        cashbackRate := 10;
        minPrice := 20;
      } else if isLimitedItem {
        itemPrice := d.lowestPrice;
        if SoldOut(d) {
          cashbackRate := 5;
          minPrice := 20;
        }
      } else {
        itemPrice := d.lowestPrice;
      }
      if !isLive && IsClothing(d) {
        cashbackRate := 5;
        minPrice := 40;
      }
      if NotSoldInGame(d) {
        reason := Some(NotInGame);
      }
      if reason.None? {
        cashbackAmount := EarnAmount(itemPrice.value, cashbackRate);
      }
    }
    c := Cashback(itemPrice, cashbackRate, minPrice, reason, cashbackAmount);
  }

  /** `isEligible`: no reason and a price at least the minimum. */
  predicate Eligible(c: Cashback)
  {
    c.reason.None? && c.price.Some? && c.price.value >= c.minPrice
  }

  /** What the derivation promises: a priced reason-free item was listed
      and earns at least 1; the rate is 5% or 10% and the minimum 20 or 40, with
      40 only for clothing at 5%; a sale location other than
      "ShopAndAllExperiences" overrides every other reason; a Roblox-created
      limited item, and an off-sale one, is never eligible. */
  lemma DerivedFacts(d: ItemDetails)
    ensures var c := Derived(d);
      (c.reason.None? && c.price.Some? ==> Listed(d) && c.earn >= 1) &&
      (c.reason.Some? ==> c.earn == 0) &&
      (c.ratePercent == 5 || c.ratePercent == 10) &&
      (c.minPrice == 40 ==> c.ratePercent == 5 && IsClothing(d)) &&
      (c.minPrice == 20 || c.minPrice == 40) &&
      (Listed(d) && NotSoldInGame(d) ==> c.reason == Some(NotInGame)) &&
      (Listed(d) && IsRobloxLimited(d) ==> !Eligible(c)) &&
      (d.isOffSale ==> !Eligible(c)) &&
      (c.price.None? <==> !Listed(d) && !d.isOffSale)
  {
    var c := Derived(d);
    if c.reason.None? && c.price.Some? {
      EarnAmountBounds(c.price.value, c.ratePercent);
    }
  }

  /** A live item keeps 10% and a minimum of 20, whatever its type. */
  lemma LiveKeepsDefaults(d: ItemDetails)
    requires Listed(d) && IsLive(d)
    ensures Derived(d).ratePercent == 10 && Derived(d).minPrice == 20
  {
  }

  /** A listed clothing item that is not live gets 5% and a minimum of 40. */
  lemma ClothingRate(d: ItemDetails)
    requires Listed(d) && !IsLive(d) && IsClothing(d)
    ensures Derived(d).ratePercent == 5 && Derived(d).minPrice == 40
  {
  }

  /** A listed limited item with no units left (and no other adjustment)
      gets 5% and keeps the minimum of 20. */
  lemma SoldOutLimitedRate(d: ItemDetails)
    requires Listed(d) && !IsLive(d) && !IsClothing(d) && !IsRobloxLimited(d)
    requires IsLimited(d) && SoldOut(d)
    ensures Derived(d).ratePercent == 5 && Derived(d).minPrice == 20
  {
  }

  // ---------------------------------------------------------------------------
  // What is shown

  /** What is rendered: nothing for a null price, else the verdict. */
  function Rendered(c: Cashback): (r: Option<bool>)
    ensures r.None? <==> c.price.None?
    ensures r.Some? ==> (r.value <==> c.reason.None? && c.price.value >= c.minPrice)
  {
    if c.price.None? then None else Some(Eligible(c))
  }

  /** What the page shows for an item follows from its details: nothing
      for an item neither listed nor off sale, a disabled button for an
      off-sale item, and an enabled one only for a listed item earning at
      least 1. */
  lemma RenderedOfDerived(d: ItemDetails)
    ensures Rendered(Derived(d)).None? <==> !Listed(d) && !d.isOffSale
    ensures d.isOffSale ==> Rendered(Derived(d)) == Some(false)
    ensures Listed(d) && IsRobloxLimited(d) ==> Rendered(Derived(d)) == Some(false)
    ensures Rendered(Derived(d)) == Some(true) ==>
              Listed(d) && Derived(d).earn >= 1 && Derived(d).price.value >= 20
  {
    DerivedFacts(d);
  }

  /** The tooltip of an ineligible item: the reason's message, or, without a
      reason, the price-too-low message with the minimum price. */
  function Tooltip(catalogue: Catalogue, c: Cashback): (t: string)
    requires c.minPrice >= 0
    ensures c.reason == Some(RobloxLimited) ==> t == Localized(catalogue, "tooltipRobloxLimited", NoSubs)
    ensures c.reason == Some(NotInGame) ==> t == Localized(catalogue, "tooltipNotInGame", NoSubs)
    ensures c.reason == Some(OffSale) ==> t == Localized(catalogue, "tooltipOffSale", NoSubs)
    ensures c.reason.None? ==>
              t == Localized(catalogue, "tooltipPriceTooLow", Many([Decimal(c.minPrice)]))
  {
    match c.reason
    case Some(RobloxLimited) => Localized(catalogue, "tooltipRobloxLimited", NoSubs)
    case Some(NotInGame) => Localized(catalogue, "tooltipNotInGame", NoSubs)
    case Some(OffSale) => Localized(catalogue, "tooltipOffSale", NoSubs)
    case None => Localized(catalogue, "tooltipPriceTooLow", Many([Decimal(c.minPrice)]))
  }

  const DefaultBuyTemplate: string := "Buy with RoEarn (Earn $1)"

  /** `cachedMessages?.catalogBuyBtn?.message || "Buy with RoEarn (Earn $1)"`. */
  function BuyTemplate(catalogue: Catalogue): string
  {
    TemplateOr(catalogue, "catalogBuyBtn", DefaultBuyTemplate)
  }

  /** The button's two text nodes around the Robux icon, with the earn
      amount grouped by thousands. */
  function ButtonLabel(template: string, earn: nat): (r: (string, string))
  {
    LabelAround(template, FormatNumber(earn))
  }

  /** With no catalogue text the label reads "Buy with RoEarn (Earn " icon
      " <amount>)". */
  lemma DefaultButtonLabel(catalogue: Catalogue, earn: nat)
    requires catalogue.None? || "catalogBuyBtn" !in catalogue.value
    ensures ButtonLabel(BuyTemplate(catalogue), earn) ==
            ("Buy with RoEarn (Earn ", " " + FormatNumber(earn) + ")")
  {
    assert DefaultBuyTemplate == "Buy with RoEarn (Earn " + "$1" + ")";
    assert !Contains(")", "$1");
    LabelAroundOf("Buy with RoEarn (Earn ", ")", FormatNumber(earn));
  }

  /** The record the page builds for the item: the cart button's
      `itemData`, and the same fields in the checkout event. */
  function ItemData(item: PageItem, name: string, price: int, earn: int, thumbnail: string,
                    userId: nat): CartItem
  {
    CartItem(item.id, name, if item.isBundle then "bundle" else "accessory", price, earn,
             thumbnail, Decimal(userId))
  }

  /** The guard after `getAuthenticatedUserId`: a failed request (no id) and
      the id 0 are falsy, and the page then adds no button at all; any other
      id is the user the buttons carry. */
  function SignedInUser(id: Option<nat>): (r: Option<nat>)
    ensures r.None? <==> id.None? || id.value == 0
    ensures r.Some? ==> r == id && r.value >= 1
  {
    if id.None? || id.value == 0 then None else id
  }

  /** The cashback button's click: nothing without a thumbnail, else a
      checkout for exactly the record the cart button would store. */
  function CheckoutClick(item: PageItem, name: string, price: int, earn: int, thumbnail: string,
                         userId: nat): (r: Option<CartItem>)
    ensures r.None? <==> thumbnail == ""
    ensures r.Some? ==> r.value == ItemData(item, name, price, earn, thumbnail, userId)
    ensures r.Some? ==> r.value.assetId == item.id && r.value.thumbnail == thumbnail &&
                        (r.value.assetType == "bundle" <==> item.isBundle) &&
                        ParseInt(r.value.userId) == Some(userId as int)
  {
    if thumbnail == "" then None
    else
      ParseIntDecimal(userId);
      Some(ItemData(item, name, price, earn, thumbnail, userId))
  }
}
