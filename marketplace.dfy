/** marketplace-search.js: cashback badges on catalog search results. The
    item type is read from the thumbnail URL, the rate and minimum price
    follow from the type and the limited flag, and each card is processed
    at most once until the badges are cleared. */
module Marketplace {
  import opened Text

  /** `shouldBeActive`: only on search pages with a sales-type filter. */
  function ShouldBeActive(href: string): (r: bool)
    ensures r <==> Contains(href, "salesTypeFilter")
  {
    Contains(href, "salesTypeFilter")
  }

  // ---------------------------------------------------------------------------
  // Item type from the thumbnail URL

  /** The longest run of word characters at the start of `s`. */
  function WordRun(s: string): (r: string)
    ensures |r| <= |s| && r == s[..|r|]
    ensures forall i :: 0 <= i < |r| ==> IsWordChar(r[i])
    ensures |r| < |s| ==> !IsWordChar(s[|r|])
  {
    if s != [] && IsWordChar(s[0]) then [s[0]] + WordRun(s[1..]) else []
  }

  /** The regular expression `/(\w+)/Webp/` matches at `i`; since `\w`
      excludes `/`, the group is the whole word run after the slash. */
  predicate MatchesAt(s: string, i: nat) {
    i < |s| && s[i] == '/' &&
    var w := WordRun(s[i + 1..]);
    w != [] && OccursAt(s, "/Webp/", i + 1 + |w|)
  }

  /** The leftmost match at or after `k`. */
  function FirstMatchFrom(s: string, k: nat): (r: Option<nat>)
    decreases |s| - k
    ensures r.Some? ==> k <= r.value && MatchesAt(s, r.value)
    ensures r.Some? ==> forall j :: k <= j < r.value ==> !MatchesAt(s, j)
    ensures r.None? ==> forall j :: k <= j < |s| ==> !MatchesAt(s, j)
  {
    if k >= |s| then None
    else if MatchesAt(s, k) then Some(k)
    else FirstMatchFrom(s, k + 1)
  }

  /** `getItemTypeFromURL`: the group of the first match, and null for a
      missing or empty URL or when nothing matches. */
  function ItemTypeFromUrl(url: Option<string>): (r: Option<string>)
    ensures r.Some? ==> (url.Some? && r.value != [] &&
                         exists i :: MatchesAt(url.value, i) && r.value == WordRun(url.value[i + 1..]) &&
                                     forall j :: 0 <= j < i ==> !MatchesAt(url.value, j))
    ensures url.Some? && url.value != [] && (exists i :: MatchesAt(url.value, i)) ==> r.Some?
  {
    if url.None? || url.value == [] then None
    else
      match FirstMatchFrom(url.value, 0)
      case None => None
      case Some(i) => Some(WordRun(url.value[i + 1..]))
  }

  /** A thumbnail URL whose first slash starts `<type>/Webp/` yields that
      type. */
  lemma ItemTypeOfThumbnail(a: string, w: string, b: string)
    requires '/' !in a
    requires w != [] && forall i :: 0 <= i < |w| ==> IsWordChar(w[i])
    ensures ItemTypeFromUrl(Some(a + "/" + w + "/Webp/" + b)) == Some(w)
  {
    var s := a + "/" + w + "/Webp/" + b;
    MatchAfterPrefix(a, w, b);
    NoSlashNoMatch(s, |a|);
    FirstMatchIs(s, |a|);
  }

  /** The pattern matches at the slash after `a`, with group `w`. */
  lemma MatchAfterPrefix(a: string, w: string, b: string)
    requires '/' !in a
    requires w != [] && forall i :: 0 <= i < |w| ==> IsWordChar(w[i])
    ensures var s := a + "/" + w + "/Webp/" + b;
            MatchesAt(s, |a|) && WordRun(s[|a| + 1..]) == w &&
            forall j :: 0 <= j < |a| ==> s[j] != '/'
  {
    var s := a + "/" + w + "/Webp/" + b;
    var tail := s[|a| + 1..];
    assert tail == w + ("/Webp/" + b);
    AllWordsRun(w, "/Webp/" + b);
    assert s[|a| + 1 + |w|..|a| + 1 + |w| + 6] == "/Webp/";
    forall j | 0 <= j < |a|
      ensures s[j] != '/'
    {
      assert s[j] == a[j];
    }
  }

  /** No match starts before the first slash. */
  lemma NoSlashNoMatch(s: string, k: nat)
    requires k <= |s| && forall j :: 0 <= j < k ==> s[j] != '/'
    ensures forall j :: 0 <= j < k ==> !MatchesAt(s, j)
  {
  }

  /** The leftmost match is the one at `k` when none comes earlier. */
  lemma FirstMatchIs(s: string, k: nat)
    requires MatchesAt(s, k) && forall j :: 0 <= j < k ==> !MatchesAt(s, j)
    ensures FirstMatchFrom(s, 0) == Some(k)
  {
    var r := FirstMatchFrom(s, 0);
    assert r.Some?;
    assert !(r.value < k) && !(r.value > k);
  }

  lemma {:induction false} AllWordsRun(w: string, rest: string)
    requires forall i :: 0 <= i < |w| ==> IsWordChar(w[i])
    requires rest == [] || !IsWordChar(rest[0])
    ensures WordRun(w + rest) == w
  {
    if w != [] {
      assert (w + rest)[1..] == w[1..] + rest;
      AllWordsRun(w[1..], rest);
    } else {
      assert w + rest == rest;
    }
  }

  // ---------------------------------------------------------------------------
  // Rate and minimum price

  predicate IsClothing(itemType: Option<string>) {
    itemType == Some("Pants") || itemType == Some("Shirt") || itemType == Some("Tshirt")
  }

  /** `getEarnPercentage`: 5 for limited items and for pants, shirts and
      t-shirts, 10 for every other type, a missing one included. */
  function EarnPercentage(itemType: Option<string>, isLimited: bool): (pct: int)
    ensures pct == 5 || pct == 10
    ensures pct == 5 <==> isLimited || IsClothing(itemType)
  {
    if isLimited then 5
    else if itemType.None? || itemType.value == "" then 10
    else if IsClothing(itemType) then 5
    else 10
  }

  /** `getMinimumPrice`: 40 for limited items and clothing, else 20. */
  function MinimumPrice(itemType: Option<string>, isLimited: bool): (m: int)
    ensures m == 20 || m == 40
    ensures m == 40 <==> isLimited || IsClothing(itemType)
  {
    if isLimited then 40
    else if IsClothing(itemType) then 40
    else 20
  }

  /** The lower rate always comes with the higher minimum, and the other
      way round. */
  lemma RateMatchesMinimum(itemType: Option<string>, isLimited: bool)
    ensures EarnPercentage(itemType, isLimited) == 5 <==> MinimumPrice(itemType, isLimited) == 40
    ensures EarnPercentage(itemType, isLimited) * MinimumPrice(itemType, isLimited) == 200
  {
  }

  // ---------------------------------------------------------------------------
  // Amount text

  /** The three branches of `formatEarnAmount`; the `toFixed` text of the
      last two is not modelled, they keep the amount. */
  datatype EarnText = Grouped(text: string) | Thousands(amount: int) | Millions(amount: int)

  function FormatEarnAmount(n: nat): (r: EarnText)
    ensures r.Grouped? <==> n <= 9999
    ensures r.Grouped? ==> StripCommas(r.text) == Decimal(n) && GroupedByThrees(r.text)
    ensures r.Thousands? <==> 9999 < n < 1000000
    ensures r.Millions? <==> 1000000 <= n
    ensures !r.Grouped? ==> r.amount == n
  {
    if n <= 9999 then
      FormatNumberDigits(n);
      FormatNumberGrouped(n);
      Grouped(FormatNumber(n))
    else if n < 1000000 then Thousands(n)
    else Millions(n)
  }

  // ---------------------------------------------------------------------------
  // The badge

  /** What `addRoEarnBadge` reads from a result card. `priceText` is
      `None` when the price element or its Robux tile is missing;
      `thumbnail` is `None` when no non-blank thumbnail showed up in time. */
  datatype Card = Card(isLimited: bool, isDynamic: bool, hasCreator: bool,
                       priceText: Option<string>, hasThumbContainer: bool,
                       thumbnail: Option<string>)

  datatype Badge = NoBadge | Single(earn: int) | Range(low: int, high: int)

  /** `Math.floor((p * pct / 100) * 0.7)` in exact arithmetic. */
  function BadgeEarn(price: int, pct: int): int
    requires price >= 0 && pct >= 0
  {
    7 * price * pct / 1000
  }

  /** The card's price: the trimmed tile text without commas, read by
      parseInt. */
  function CardPrice(text: string): Option<int> {
    ParseInt(StripCommas(Trim(text)))
  }

  /** A limited item that is not dynamic and has no creator line. */
  predicate HiddenLimited(card: Card) {
    card.isLimited && !card.isDynamic && !card.hasCreator
  }

  /** The price and thumbnail guards: a price tile whose text parses, a
      thumbnail container and a thumbnail, and a price at or above the
      minimum for the thumbnail's type. */
  predicate PassesGuards(card: Card) {
    card.priceText.Some? && CardPrice(card.priceText.value).Some? &&
    card.hasThumbContainer && card.thumbnail.Some? &&
    CardPrice(card.priceText.value).value >= MinimumPrice(ItemTypeFromUrl(card.thumbnail), card.isLimited)
  }

  /** `addRoEarnBadge`'s decision, from the guards in source order: a
      limited non-dynamic item without a creator line, a missing price, a
      price that is not a number, a missing thumbnail, or a price below the
      minimum give no badge; a limited item shows the 5%-to-10% range and
      any other item its single amount. */
  function BadgeFor(card: Card): (b: Badge)
    ensures b != NoBadge <==> !HiddenLimited(card) && PassesGuards(card)
    ensures b.Range? <==> b != NoBadge && card.isLimited
    ensures b.Range? ==> var p := CardPrice(card.priceText.value).value;
                         b.low == BadgeEarn(p, 5) && b.high == BadgeEarn(p, 10) &&
                         1 <= b.low <= b.high
    ensures b.Single? ==> var p := CardPrice(card.priceText.value).value;
                          b.earn == BadgeEarn(p, EarnPercentage(ItemTypeFromUrl(card.thumbnail), false)) &&
                          b.earn >= 1
  {
    if card.isLimited && !card.isDynamic && !card.hasCreator then NoBadge
    else if card.priceText.None? then NoBadge
    else
      match CardPrice(card.priceText.value)
      case None => NoBadge
      case Some(p) =>
        if !card.hasThumbContainer || card.thumbnail.None? then NoBadge
        else
          var itemType := ItemTypeFromUrl(card.thumbnail);
          if p < MinimumPrice(itemType, card.isLimited) then NoBadge
          else if card.isLimited then
            RangeBounds(p);
            Range(BadgeEarn(p, 5), BadgeEarn(p, 10))
          else
            RateMatchesMinimum(itemType, false);
            SingleAtLeastOne(p, EarnPercentage(itemType, false), MinimumPrice(itemType, false));
            Single(BadgeEarn(p, EarnPercentage(itemType, false)))
  }

  /** From the limited minimum of 40 up, both ends of the range are at
      least 1 and in order. */
  lemma RangeBounds(p: int)
    requires p >= 40
    ensures 1 <= BadgeEarn(p, 5) <= BadgeEarn(p, 10)
  {
    assert 7 * p * 5 >= 1400;
    assert 7 * p * 10 == 2 * (7 * p * 5);
  }

  /** At or above its minimum, a card's single amount is at least 1. */
  lemma SingleAtLeastOne(p: int, pct: int, minimum: int)
    requires (pct == 5 && minimum == 40) || (pct == 10 && minimum == 20)
    requires p >= minimum
    ensures BadgeEarn(p, pct) >= 1
  {
    assert 7 * p * pct >= 7 * minimum * pct == 1400;
  }

  /** A non-limited card at or above its minimum shows the amount at its
      type's rate; a price typed with thousands separators reads the same
      as without. */
  lemma BadgeOfPlainCard(p: nat, itemType: string, a: string, b: string)
    requires '/' !in a
    requires itemType != [] && forall i :: 0 <= i < |itemType| ==> IsWordChar(itemType[i])
    requires p >= MinimumPrice(Some(itemType), false)
    ensures var card := Card(false, false, false, Some(FormatNumber(p)), true,
                             Some(a + "/" + itemType + "/Webp/" + b));
            BadgeFor(card) == Single(BadgeEarn(p, EarnPercentage(Some(itemType), false)))
  {
    ItemTypeOfThumbnail(a, itemType, b);
    FormatNumberDigits(p);
    FormatNumberTrimmed(p);
    ParseIntDecimal(p);
  }

  /** The formatted number has no white space to trim. */
  lemma FormatNumberTrimmed(n: nat)
    ensures Trim(FormatNumber(n)) == FormatNumber(n)
  {
    var s := FormatNumber(n);
    FormatNumberGrouped(n);
    assert s[0] != ',' && s[|s| - 1] != ',' by {
      assert |s| % 4 != 0;
    }
    assert IsDigit(s[0]) && IsDigit(s[|s| - 1]);
    TrimKeeps(s);
  }

  /** Trimming leaves a string alone when it neither starts nor ends in
      white space. */
  lemma TrimKeeps(s: string)
    requires s != [] && !IsJsWhitespace(s[0]) && !IsJsWhitespace(s[|s| - 1])
    ensures Trim(s) == s
  {
  }

  // ---------------------------------------------------------------------------
  // Processed markers

  /** The result grid's markers and badges, by card position. */
  datatype Grid = Grid(processed: set<nat>, badges: map<nat, Badge>)

  /** `addRoEarnBadge` on the card at position `i`, whose badge is `b`. */
  function Visit(g: Grid, i: nat, b: Badge): Grid {
    if i in g.processed then g
    else Grid(g.processed + {i}, if b == NoBadge then g.badges else g.badges[i := b])
  }

  /** Each card's badge, in grid order. */
  function BadgesOf(cards: seq<Card>): (bs: seq<Badge>)
    ensures |bs| == |cards| && forall i :: 0 <= i < |cards| ==> bs[i] == BadgeFor(cards[i])
  {
    seq(|cards|, i requires 0 <= i < |cards| => BadgeFor(cards[i]))
  }

  /** The grid after visiting cards 0..n-1 in order, given their badges. */
  function VisitAll(g: Grid, bs: seq<Badge>, n: nat): Grid
    requires n <= |bs|
  {
    if n == 0 then g else Visit(VisitAll(g, bs, n - 1), n - 1, bs[n - 1])
  }

  /** After visiting the first n cards all of them are marked; a card
      marked before keeps its badge or its lack of one; every other
      visited card shows exactly its own badge, when it has one. */
  lemma {:induction false} VisitAllCards(g: Grid, bs: seq<Badge>, n: nat)
    requires n <= |bs|
    requires g.badges.Keys <= g.processed
    ensures var r := VisitAll(g, bs, n);
            (forall i: nat :: i in r.processed <==> i in g.processed || i < n) &&
            r.badges.Keys <= r.processed &&
            (forall i :: i in g.processed ==> (i in r.badges <==> i in g.badges)) &&
            (forall i :: i in g.badges ==> r.badges[i] == g.badges[i]) &&
            (forall i: nat :: i < n && i !in g.processed ==>
               (i in r.badges <==> bs[i] != NoBadge) && (i in r.badges ==> r.badges[i] == bs[i]))
  {
    if n > 0 {
      VisitAllCards(g, bs, n - 1);
      var prev := VisitAll(g, bs, n - 1);
      var r := VisitAll(g, bs, n);
      assert r == Visit(prev, n - 1, bs[n - 1]);
      forall i: nat | i < n && i !in g.processed
        ensures (i in r.badges <==> bs[i] != NoBadge) && (i in r.badges ==> r.badges[i] == bs[i])
      {
        if i < n - 1 {
          assert i in prev.processed;
          assert i in r.badges <==> i in prev.badges;
        }
      }
    }
  }

  /** The result grid: which cards carry `data-roearn-processed`, and the
      badge shown on each. Cards are named by their position in the grid. */
  class SearchPage {
    var processed: set<nat>
    var badges: map<nat, Badge>

    constructor()
      ensures processed == {} && badges == map[]
    {
      processed := {};
      badges := map[];
    }

    /** `addRoEarnBadge`: a processed card is skipped; otherwise it is
        marked first (so a card that gets no badge is not retried) and
        receives its badge when there is one. */
    method AddRoEarnBadge(cardId: nat, card: Card)
      modifies this
      ensures Grid(processed, badges) == Visit(old(Grid(processed, badges)), cardId, BadgeFor(card))
      ensures cardId in old(processed) ==> processed == old(processed) && badges == old(badges)
      ensures cardId !in old(processed) ==>
                processed == old(processed) + {cardId} &&
                badges == if BadgeFor(card) == NoBadge then old(badges)
                          else old(badges)[cardId := BadgeFor(card)]
    {
      if cardId in processed {
        return;
      }
      processed := processed + {cardId};
      var b := BadgeFor(card);
      if b != NoBadge {
        badges := badges[cardId := b];
      }
    }

    /** `processAllCatalogItems`' loop: every card of the grid, in order,
        goes through `addRoEarnBadge`. */
    method ProcessAll(cards: seq<Card>)
      modifies this
      ensures Grid(processed, badges) == VisitAll(old(Grid(processed, badges)), BadgesOf(cards), |cards|)
    {
      var bs := BadgesOf(cards);
      for i := 0 to |cards|
        invariant Grid(processed, badges) == VisitAll(old(Grid(processed, badges)), bs, i)
      {
        AddRoEarnBadge(i, cards[i]);
      }
    }

    /** `handleURLChange`: on a page with a sales-type filter every card is
        processed; anywhere else every badge and marker is removed. */
    method HandleUrlChange(href: string, cards: seq<Card>)
      modifies this
      ensures ShouldBeActive(href) ==>
                Grid(processed, badges) == VisitAll(old(Grid(processed, badges)), BadgesOf(cards), |cards|)
      ensures !ShouldBeActive(href) ==> processed == {} && badges == map[]
    {
      if ShouldBeActive(href) {
        ProcessAll(cards);
      } else {
        RemoveAllBadges();
      }
    }

    /** `removeAllBadges`: every badge and every marker goes. */
    method RemoveAllBadges()
      modifies this
      ensures processed == {} && badges == map[]
    {
      badges := map[];
      processed := {};
    }
  }
}
