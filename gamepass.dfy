/** gamepass-store.js and gamepass-page.js: cashback buttons for game
    passes, on a game's store tab (one per pass card) and on a pass's own
    page (one beside the purchase button). Both pay 5% of the price, after
    the 30% marketplace fee, from a minimum price of 40. */
module Gamepass {
  import opened Text
  import opened Messages
  import opened Paths

  // ---------------------------------------------------------------------------
  // Earn amount and eligibility (shared by both scripts)

  /** `Math.floor(price * 0.05 * 0.70)` in exact arithmetic. */
  function GamepassEarn(price: int): int {
    35 * price / 1000
  }

  /** `price >= 40 && finalAmount >= 1`. */
  predicate GamepassEligible(price: int) {
    price >= 40 && GamepassEarn(price) >= 1
  }

  /** Since 40 * 0.035 = 1.4, the earn test adds nothing to the price test;
      the amount never exceeds 3.5% of the price. */
  lemma EligibleIff(price: int)
    ensures GamepassEligible(price) <==> price >= 40
    ensures price >= 0 ==> 0 <= GamepassEarn(price) && 1000 * GamepassEarn(price) <= 35 * price
  {
  }

  /** What the cashback button opens: the `roearn:showCheckout` detail. */
  datatype CheckoutRequest = CheckoutRequest(thumbnail: string, assetName: string, assetId: string,
                                             assetType: string, userId: string,
                                             earnAmount: int, assetPrice: int)

  /** The inserted button: the ineligible one, or the earning one with its
      label on both sides of the Robux icon and what its click dispatches
      (`None` when the click returns early). */
  datatype CashbackButton =
    | NotEligibleButton
    | EarnButton(beforeIcon: string, afterIcon: string, onClick: Option<CheckoutRequest>)

  // ---------------------------------------------------------------------------
  // Store tab: parsing a pass card

  /** A game page, `/games/<digits>/` after an optional locale. */
  predicate IsGamePage(pathname: string) {
    PathId(pathname, "games").Some?
  }

  /** The store tab is active by its hash or by its tab element (the DOM
      test is a parameter). */
  predicate OnStoreTab(pathname: string, hash: string, storeTabInDom: bool) {
    IsGamePage(pathname) && (Contains(hash, "store") || storeTabInDom)
  }

  /** `parseInt(data-expected-price) || 0`: a missing or non-numeric price
      (NaN) counts as 0. */
  function StorePrice(attr: Option<string>): (p: int)
    ensures attr.None? ==> p == 0
    ensures attr.Some? && ParseInt(attr.value).None? ==> p == 0
    ensures attr.Some? && ParseInt(attr.value).Some? ==> p == ParseInt(attr.value).value
  {
    if attr.None? then 0
    else match ParseInt(attr.value)
      case None => 0
      case Some(v) => v
  }

  /** A card without a usable price is never eligible. */
  lemma MissingPriceIneligible(attr: Option<string>)
    requires attr.None? || ParseInt(attr.value).None?
    ensures !GamepassEligible(StorePrice(attr))
  {
  }

  /** `/\/game-pass\/(\d+)\//` matches at `i`. */
  predicate PassLinkAt(s: string, i: nat) {
    OccursAt(s, "/game-pass/", i) &&
    var d := LeadingDigits(s[i + 11..]);
    d != [] && OccursAt(s, "/", i + 11 + |d|)
  }

  function FirstPassLinkFrom(s: string, k: nat): (r: Option<nat>)
    decreases |s| - k
    ensures r.Some? ==> k <= r.value && PassLinkAt(s, r.value)
    ensures r.Some? ==> forall j :: k <= j < r.value ==> !PassLinkAt(s, j)
    ensures r.None? ==> forall j :: k <= j ==> !PassLinkAt(s, j)
  {
    if k + 11 > |s| then None
    else if PassLinkAt(s, k) then Some(k)
    else FirstPassLinkFrom(s, k + 1)
  }

  /** The pass id in a card link: the digits of the first match, else null. */
  function PassIdInHref(href: string): (r: Option<string>)
    ensures r.Some? ==> r.value != [] && AllDigits(r.value) &&
                        exists i :: PassLinkAt(href, i) && r.value == LeadingDigits(href[i + 11..])
    ensures r.None? <==> forall i :: !PassLinkAt(href, i)
  {
    match FirstPassLinkFrom(href, 0)
    case None => None
    case Some(i) => Some(LeadingDigits(href[i + 11..]))
  }

  /** A link whose first slash starts `game-pass/<d>/` carries id `d`. */
  lemma PassIdOf(a: string, d: string, tail: string)
    requires '/' !in a
    requires d != [] && AllDigits(d)
    ensures PassIdInHref(a + "/game-pass/" + d + "/" + tail) == Some(d)
  {
    var s := a + "/game-pass/" + d + "/" + tail;
    assert s[|a|..|a| + 11] == "/game-pass/";
    assert s[|a| + 11..] == d + ("/" + tail);
    AllDigitsLeading(d, "/" + tail);
    assert s[|a| + 11 + |d|..|a| + 12 + |d|] == "/";
    assert PassLinkAt(s, |a|);
    forall j | 0 <= j < |a|
      ensures !PassLinkAt(s, j)
    {
      assert s[j] == a[j];
      assert j + 11 <= |s| ==> s[j..j + 11][0] == s[j];
    }
    var r := FirstPassLinkFrom(s, 0);
    assert r.Some?;
    assert !(r.value < |a|) && !(r.value > |a|);
  }

  /** The thumbnail's first `/150/150/` becomes `/420/420/`. */
  function LargeThumbnail(src: string): string {
    ReplaceFirst(src, "/150/150/", "/420/420/")
  }

  /** A thumbnail URL whose first slash starts the size segment gets the
      large size there and nowhere else; one without the segment is kept. */
  lemma LargeThumbnailOf(a: string, b: string, other: string)
    requires '/' !in a
    requires !Contains(other, "/150/150/")
    ensures LargeThumbnail(a + "/150/150/" + b) == a + "/420/420/" + b
    ensures LargeThumbnail(other) == other
  {
    SplitAt(a, "/150/150/", b);
    var s := a + "/150/150/" + b;
    assert s[|a| + 9..] == b;
  }

  /** A pass card on the store tab, as the script reads it. */
  datatype StoreCard = StoreCard(priceAttr: Option<string>, name: Option<string>,
                                 passHref: Option<string>, imgSrc: Option<string>)

  /** The store button for one card: the label comes from the `earnAmount`
      template (default "(Earn $1)") with the plain amount; the click needs
      a thumbnail and a pass id. */
  function StoreButton(catalogue: Catalogue, card: StoreCard, userId: string): (b: CashbackButton)
    ensures b.EarnButton? <==> StorePrice(card.priceAttr) >= 40
    ensures b.EarnButton? && b.onClick.Some? ==>
              var req := b.onClick.value;
              req.assetType == "gamepass" && req.userId == userId &&
              req.assetPrice == StorePrice(card.priceAttr) &&
              req.earnAmount == GamepassEarn(req.assetPrice) && req.earnAmount >= 1 &&
              req.thumbnail != "" && card.passHref.Some? && PassIdInHref(card.passHref.value) == Some(req.assetId)
    ensures b.EarnButton? ==>
              (b.onClick.Some? <==>
                 card.imgSrc.Some? && LargeThumbnail(card.imgSrc.value) != "" &&
                 card.passHref.Some? && PassIdInHref(card.passHref.value).Some?)
    ensures b.EarnButton? && b.onClick.Some? ==>
              b.onClick.value.thumbnail == LargeThumbnail(card.imgSrc.value) &&
              b.onClick.value.assetName == if card.name.Some? then Trim(card.name.value) else "Unknown Gamepass"
  {
    var price := StorePrice(card.priceAttr);
    var earn := GamepassEarn(price);
    if !GamepassEligible(price) then NotEligibleButton
    else
      var name := if card.name.Some? then Trim(card.name.value) else "Unknown Gamepass";
      var assetId := if card.passHref.Some? then PassIdInHref(card.passHref.value) else None;
      var thumbnail := if card.imgSrc.Some? then LargeThumbnail(card.imgSrc.value) else "";
      var caption := LabelAround(TemplateOr(catalogue, "earnAmount", "(Earn $1)"), Decimal(earn));
      var click := if thumbnail == "" || assetId.None? then None
                   else Some(CheckoutRequest(thumbnail, name, assetId.value, "gamepass", userId, earn, price));
      EarnButton(caption.0, caption.1, click)
  }

  // ---------------------------------------------------------------------------
  // Store tab: one button per card footer

  /** One button per card, in card order. */
  function StoreButtons(catalogue: Catalogue, cards: seq<StoreCard>, userId: string): (bs: seq<CashbackButton>)
    ensures |bs| == |cards|
    ensures forall i :: 0 <= i < |cards| ==> bs[i] == StoreButton(catalogue, cards[i], userId)
  {
    seq(|cards|, i requires 0 <= i < |cards| => StoreButton(catalogue, cards[i], userId))
  }

  /** The footers after visiting cards 0..n-1 in order: a footer that
      already has a button is skipped, any other gets the card's button. */
  function ButtonsFrom(m: map<nat, CashbackButton>, bs: seq<CashbackButton>, n: nat): (r: map<nat, CashbackButton>)
    requires n <= |bs|
  {
    if n == 0 then m
    else
      var prev := ButtonsFrom(m, bs, n - 1);
      if n - 1 in prev then prev else prev[n - 1 := bs[n - 1]]
  }

  /** An existing button is never replaced, and every other footer gets
      its card's button. */
  lemma {:induction false} ButtonsFromCards(m: map<nat, CashbackButton>, bs: seq<CashbackButton>, n: nat)
    requires n <= |bs|
    ensures var r := ButtonsFrom(m, bs, n);
            (forall i: nat :: i in r <==> i in m || i < n) &&
            (forall i :: i in m ==> r[i] == m[i]) &&
            (forall i: nat :: i < n && i !in m ==> r[i] == bs[i])
  {
    if n > 0 {
      ButtonsFromCards(m, bs, n - 1);
      var prev := ButtonsFrom(m, bs, n - 1);
      var r := ButtonsFrom(m, bs, n);
      if n - 1 !in prev {
        assert r == prev[n - 1 := bs[n - 1]];
        forall i: nat | i < n && i !in m
          ensures r[i] == bs[i]
        {
          if i < n - 1 {
            assert r[i] == prev[i];
          }
        }
      } else {
        assert r == prev;
      }
    }
  }

  class GamepassStore {
    /** The cashback button in each card footer, by card position. */
    var buttons: map<nat, CashbackButton>

    constructor()
      ensures buttons == map[]
    {
      buttons := map[];
    }

    /** `addGamePassCashbackButtons`: only on a game page's store tab with
        a signed-in user; then every card whose footer has no button yet
        gets one. */
    method AddGamePassCashbackButtons(catalogue: Catalogue, pathname: string, hash: string,
                                      storeTabInDom: bool, userId: Option<nat>, cards: seq<StoreCard>)
      modifies this
      ensures !OnStoreTab(pathname, hash, storeTabInDom) || userId.None? || userId.value == 0 ==>
                buttons == old(buttons)
      ensures OnStoreTab(pathname, hash, storeTabInDom) && userId.Some? && userId.value != 0 ==>
                buttons == ButtonsFrom(old(buttons), StoreButtons(catalogue, cards, Decimal(userId.value)), |cards|)
    {
      if !OnStoreTab(pathname, hash, storeTabInDom) {
        return;
      }
      if userId.None? || userId.value == 0 {
        return;
      }
      FillFooters(StoreButtons(catalogue, cards, Decimal(userId.value)));
    }

    /** The `forEach` over the pass cards, given each card's button: a
        footer that already has a button is skipped, any other gets its
        card's button. */
    method FillFooters(bs: seq<CashbackButton>)
      modifies this
      ensures buttons == ButtonsFrom(old(buttons), bs, |bs|)
    {
      for i := 0 to |bs|
        invariant buttons == ButtonsFrom(old(buttons), bs, i)
      {
        if i !in buttons {
          buttons := buttons[i := bs[i]];
        }
      }
    }
  }

  // ---------------------------------------------------------------------------
  // Pass page

  /** The pass id from `/game-pass/<digits>/` after an optional locale. */
  function PagePassId(pathname: string): Option<string> {
    PathId(pathname, "game-pass")
  }

  /** The product-info lookup: a thrown fetch or parse, or the body's
      `PriceInRobux` (absent or null is `None`) and `Name`. */
  datatype ProductReply = ProductThrew | ProductInfo(priceInRobux: Option<int>, name: Option<string>)

  /** The button the new one is inserted before. */
  datatype Anchor = PurchaseButton | RoearnBuy | GrowthButton

  /** `.PurchaseButton`, then `#roearnbuy`, then `.btn-growth-lg`. */
  function ChooseAnchor(hasPurchase: bool, hasRoearnBuy: bool, hasGrowth: bool): (a: Option<Anchor>)
    ensures a == Some(PurchaseButton) <==> hasPurchase
    ensures a == Some(RoearnBuy) <==> !hasPurchase && hasRoearnBuy
    ensures a == Some(GrowthButton) <==> !hasPurchase && !hasRoearnBuy && hasGrowth
    ensures a.None? <==> !hasPurchase && !hasRoearnBuy && !hasGrowth
  {
    if hasPurchase then Some(PurchaseButton)
    else if hasRoearnBuy then Some(RoearnBuy)
    else if hasGrowth then Some(GrowthButton)
    else None
  }

  /** The page button for a known price: the label comes from the
      `gamepassBuyBtn` template (default "Buy (Earn $1)") with the plain
      amount; the click needs a thumbnail. */
  function PageButton(catalogue: Catalogue, passId: string, name: Option<string>, price: int,
                      userId: string, thumbnail: string): (b: CashbackButton)
    ensures b.EarnButton? <==> price >= 40
    ensures b.EarnButton? ==> (b.onClick.Some? <==> thumbnail != "")
    ensures b.EarnButton? && b.onClick.Some? ==>
              b.onClick.value == CheckoutRequest(thumbnail, if name.Some? && name.value != "" then name.value
                                                            else "Unknown Gamepass",
                                                 passId, "gamepass", userId, GamepassEarn(price), price)
  {
    var earn := GamepassEarn(price);
    if !GamepassEligible(price) then NotEligibleButton
    else
      var itemName := if name.Some? && name.value != "" then name.value else "Unknown Gamepass";
      var caption := LabelAround(TemplateOr(catalogue, "gamepassBuyBtn", "Buy (Earn $1)"), Decimal(earn));
      var click := if thumbnail == "" then None
                   else Some(CheckoutRequest(thumbnail, itemName, passId, "gamepass", userId, earn, price));
      EarnButton(caption.0, caption.1, click)
  }

  /** With no catalogue text the page label reads "Buy (Earn " icon
      " <amount>)". */
  lemma DefaultPageLabel(catalogue: Catalogue, passId: string, name: Option<string>, price: int,
                         userId: string, thumbnail: string)
    requires catalogue.None? || "gamepassBuyBtn" !in catalogue.value
    requires price >= 40
    ensures var b := PageButton(catalogue, passId, name, price, userId, thumbnail);
            b.EarnButton? && b.beforeIcon == "Buy (Earn " &&
            b.afterIcon == " " + Decimal(GamepassEarn(price)) + ")"
  {
    assert "Buy (Earn $1)" == "Buy (Earn " + "$1" + ")";
    assert !Contains(")", "$1");
    LabelAroundOf("Buy (Earn ", ")", Decimal(GamepassEarn(price)));
  }

  /** What one run of `addGamePassCashbackButton` inserts, given the
      lookups' answers: nothing off a pass page, when a button already
      exists, without a signed-in user, when the lookup fails or has no
      price, or without an anchor button. */
  function PageOutcome(catalogue: Catalogue, pathname: string, alreadyThere: bool, userId: Option<nat>,
                       reply: ProductReply, thumbnail: Option<string>,
                       hasPurchase: bool, hasRoearnBuy: bool, hasGrowth: bool): (r: Option<CashbackButton>)
    ensures r.Some? ==> !alreadyThere && PagePassId(pathname).Some? && userId.Some? && userId.value != 0 &&
                        reply.ProductInfo? && reply.priceInRobux.Some? &&
                        ChooseAnchor(hasPurchase, hasRoearnBuy, hasGrowth).Some?
  {
    var passId := PagePassId(pathname);
    if passId.None? || alreadyThere || userId.None? || userId.value == 0 then None
    else if reply.ProductThrew? || reply.priceInRobux.None? then None
    else if ChooseAnchor(hasPurchase, hasRoearnBuy, hasGrowth).None? then None
    else
      var src := if thumbnail.Some? then thumbnail.value else "";
      Some(PageButton(catalogue, passId.value, reply.name, reply.priceInRobux.value,
                      Decimal(userId.value), src))
  }

  class GamepassPage {
    /** The button inserted next to the purchase button, if any. */
    var inserted: Option<CashbackButton>

    constructor()
      ensures inserted.None?
    {
      inserted := None;
    }

    /** `addGamePassCashbackButton`: both existing-button checks stop a
        second insertion. */
    method AddGamePassCashbackButton(catalogue: Catalogue, pathname: string, userId: Option<nat>,
                                     reply: ProductReply, thumbnail: Option<string>,
                                     hasPurchase: bool, hasRoearnBuy: bool, hasGrowth: bool)
      modifies this
      ensures old(inserted).Some? ==> inserted == old(inserted)
      ensures old(inserted).None? ==>
                inserted == PageOutcome(catalogue, pathname, false, userId, reply, thumbnail,
                                        hasPurchase, hasRoearnBuy, hasGrowth)
    {
      var passId := PagePassId(pathname);
      if passId.None? {
        return;
      }
      if inserted.Some? {
        return;
      }
      if userId.None? || userId.value == 0 {
        return;
      }
      if reply.ProductThrew? || reply.priceInRobux.None? {
        return;
      }
      var price := reply.priceInRobux.value;
      var src := if thumbnail.Some? then thumbnail.value else "";
      if inserted.Some? {
        return;
      }
      var anchor := ChooseAnchor(hasPurchase, hasRoearnBuy, hasGrowth);
      if anchor.None? {
        return;
      }
      inserted := Some(PageButton(catalogue, passId.value, reply.name, price, Decimal(userId.value), src));
    }
  }

  /** A pass page (plain or with a locale) at or above 40 Robux gets the
      earning button, and its click carries the page's pass id. */
  lemma PassPageGetsButton(catalogue: Catalogue, d: string, tail: string, uid: nat, price: int,
                           name: Option<string>, thumb: string)
    requires d != [] && AllDigits(d) && uid != 0 && price >= 40 && thumb != ""
    ensures var r := PageOutcome(catalogue, "/game-pass/" + d + "/" + tail, false, Some(uid),
                                 ProductInfo(Some(price), name), Some(thumb), true, false, false);
            r.Some? && r.value.EarnButton? && r.value.onClick.Some? && r.value.onClick.value.assetId == d
  {
    PassPath(d, tail);
    PageWithPassId(catalogue, "/game-pass/" + d + "/" + tail, d, uid, price, name, thumb);
  }

  /** `/game-pass/<d>/...` names pass `d`. */
  lemma PassPath(d: string, tail: string)
    requires d != [] && AllDigits(d)
    ensures PagePassId("/game-pass/" + d + "/" + tail) == Some(d)
  {
    PathIdPlain("/game-pass/", "game-pass", d, tail);
  }

  /** Once the path names pass `d`, a price of 40 or more and a thumbnail
      give an earning button whose click carries `d`. */
  lemma PageWithPassId(catalogue: Catalogue, path: string, d: string, uid: nat, price: int,
                       name: Option<string>, thumb: string)
    requires PagePassId(path) == Some(d) && uid != 0 && price >= 40 && thumb != ""
    ensures var r := PageOutcome(catalogue, path, false, Some(uid),
                                 ProductInfo(Some(price), name), Some(thumb), true, false, false);
            r.Some? && r.value.EarnButton? && r.value.onClick.Some? && r.value.onClick.value.assetId == d
  {
    assert ChooseAnchor(true, false, false) == Some(PurchaseButton);
  }
}
