/** checkout-bulk.js: checkout for several cart items at once. It shows the
    totals in a card whose height follows the item count, records which
    items were already owned, and on every poll looks for any new purchase
    among the items. */
module CheckoutBulk {
  import opened Text
  import opened Messages
  import opened CartStorage
  import opened ShoppingCart
  import opened Checkout

  // ---------------------------------------------------------------------------
  // Totals and layout

  /** The `reduce` totals are additive over a split of the item list. */
  lemma {:induction false} SumsAppend(a: seq<CartItem>, b: seq<CartItem>)
    ensures SumEarn(a + b) == SumEarn(a) + SumEarn(b)
    ensures SumPrice(a + b) == SumPrice(a) + SumPrice(b)
    decreases |b|
  {
    if b == [] {
      assert a + b == a;
    } else {
      var init := b[..|b| - 1];
      SumsAppend(a, init);
      assert (a + b)[..|a + b| - 1] == a + init;
    }
  }

  /** Totals of items that all carry non-negative amounts are non-negative. */
  lemma {:induction false} SumsNonNegative(items: seq<CartItem>)
    requires forall x :: x in items ==> x.earnAmount >= 0 && x.assetPrice >= 0
    ensures SumEarn(items) >= 0 && SumPrice(items) >= 0
  {
    if items != [] {
      var init := items[..|items| - 1];
      assert forall x :: x in init ==> x in items;
      assert items[|items| - 1] in items;
      SumsNonNegative(init);
    }
  }

  /** `calculatedHeight`: 68 per item plus 92, clamped to [252, 456]. */
  function CardHeight(n: nat): (h: int)
    ensures 252 <= h <= 456
    ensures 252 < h < 456 ==> h == 68 * n + 92
    ensures 68 * n + 92 < 252 ==> h == 252
    ensures 252 <= 68 * n + 92 <= 456 ==> h == 68 * n + 92
    ensures 68 * n + 92 > 456 ==> h == 456
  {
    if 68 * n + 92 > 456 then 456
    else if 68 * n + 92 < 252 then 252
    else 68 * n + 92
  }

  /** The card never shrinks when items are added; up to two items it has
      its minimum height and from six on its maximum. */
  lemma CardHeightMonotonic(n: nat, m: nat)
    requires n <= m
    ensures CardHeight(n) <= CardHeight(m)
    ensures m <= 2 ==> CardHeight(m) == 252
    ensures n >= 6 ==> CardHeight(n) == 456
  {
    assert 68 * n <= 68 * m;
  }

  // ---------------------------------------------------------------------------
  // Inventory lookups

  /** This page's `getInventoryCount`: a bundle's or an asset's listing
      length, and for a gamepass 1 when owned and 0 otherwise. */
  function BulkInventoryCount(assetType: string, owned: OwnedReply, listing: CountReply): (n: nat)
    ensures assetType == "gamepass" ==> n == (if IsOwned(owned) then 1 else 0)
    ensures assetType != "gamepass" ==> n == ListedCount(listing)
  {
    if assetType == "gamepass" then (if IsOwned(owned) then 1 else 0)
    else ListedCount(listing)
  }

  /** A gamepass count is at most 1, so an owned gamepass that counted 1 at
      the start can never be seen as newly bought by a count increase. */
  lemma GamepassCountBounded(owned: OwnedReply, listing: CountReply, initial: OwnedReply)
    requires IsOwned(initial)
    ensures !(BulkInventoryCount("gamepass", owned, listing) > BulkInventoryCount("gamepass", initial, listing))
  {
  }

  // ---------------------------------------------------------------------------
  // Initial states and the poll

  /** An entry of `initialItemStates`. */
  datatype ItemState =
    | NotOwnedAtStart(assetType: string)
    | OwnedAtStart(initialCount: nat, assetType: string)

  function StateFor(item: CartItem, owned: bool, count: nat): ItemState {
    if owned then OwnedAtStart(count, item.assetType) else NotOwnedAtStart(item.assetType)
  }

  /** The dictionary the start-up loop fills, starting from `m0`: one
      entry per asset id, the last item with an id writing last. `owned[i]`
      and `counts[i]` are the lookups' answers for item i. */
  function StatesFrom(m0: map<string, ItemState>, items: seq<CartItem>, owned: seq<bool>,
                      counts: seq<nat>): (m: map<string, ItemState>)
    requires |owned| == |items| && |counts| == |items|
    ensures forall i :: 0 <= i < |items| ==> items[i].assetId in m
    ensures forall id :: id in m0 ==> id in m
  {
    if items == [] then m0
    else
      var k := |items| - 1;
      StatesFrom(m0, items[..k], owned[..k], counts[..k])[items[k].assetId := StateFor(items[k], owned[k], counts[k])]
  }

  function InitialStates(items: seq<CartItem>, owned: seq<bool>, counts: seq<nat>): map<string, ItemState>
    requires |owned| == |items| && |counts| == |items|
  {
    StatesFrom(map[], items, owned, counts)
  }

  /** No later item shares item i's asset id. */
  predicate LastWithId(items: seq<CartItem>, i: nat)
    requires i < |items|
  {
    forall j :: i < j < |items| ==> items[j].assetId != items[i].assetId
  }

  /** The entry of the last item with an id is that item's start state. */
  lemma {:induction false} InitialStateOfItem(items: seq<CartItem>, owned: seq<bool>, counts: seq<nat>, i: nat)
    requires |owned| == |items| && |counts| == |items|
    requires i < |items| && LastWithId(items, i)
    ensures InitialStates(items, owned, counts)[items[i].assetId] == StateFor(items[i], owned[i], counts[i])
  {
    var k := |items| - 1;
    if i < k {
      var init := items[..k];
      assert items[k].assetId != items[i].assetId;
      assert LastWithId(init, i);
      InitialStateOfItem(init, owned[..k], counts[..k], i);
    }
  }

  /** No two items share an asset id, stated on the items themselves. */
  predicate DistinctIds(items: seq<CartItem>) {
    forall i, j :: 0 <= i < j < |items| ==> items[i].assetId != items[j].assetId
  }

  /** The cart's invariant gives distinct ids in this form. */
  lemma DistinctCartIds(items: seq<CartItem>)
    requires Distinct(Ids(items))
    ensures DistinctIds(items)
  {
  }

  /** One item's part of the poll: an item owned at the start needs a
      higher count, any other item needs to be owned now. */
  predicate Fresh(state: ItemState, ownedNow: bool, countNow: nat) {
    match state
    case OwnedAtStart(c, _) => countNow > c
    case NotOwnedAtStart(_) => ownedNow
  }

  /** The poll's verdict: some item is freshly bought. */
  predicate NewPurchase(items: seq<CartItem>, states: map<string, ItemState>,
                        ownedNow: seq<bool>, countsNow: seq<nat>)
    requires |ownedNow| == |items| && |countsNow| == |items|
    requires forall i :: 0 <= i < |items| ==> items[i].assetId in states
  {
    exists i :: 0 <= i < |items| && Fresh(states[items[i].assetId], ownedNow[i], countsNow[i])
  }

  /** Item i, judged from its own answers at the start and now. */
  predicate BoughtSinceStart(owned: bool, count: nat, ownedNow: bool, countNow: nat) {
    (!owned && ownedNow) || (owned && countNow > count)
  }

  /** The last item with an id is judged on its own answers only. */
  lemma FreshOfItem(items: seq<CartItem>, owned: seq<bool>, counts: seq<nat>,
                    ownedNow: seq<bool>, countsNow: seq<nat>, i: nat)
    requires |owned| == |items| && |counts| == |items|
    requires |ownedNow| == |items| && |countsNow| == |items|
    requires i < |items| && LastWithId(items, i)
    ensures items[i].assetId in InitialStates(items, owned, counts)
    ensures Fresh(InitialStates(items, owned, counts)[items[i].assetId], ownedNow[i], countsNow[i]) <==>
              BoughtSinceStart(owned[i], counts[i], ownedNow[i], countsNow[i])
  {
    var st := InitialStates(items, owned, counts)[items[i].assetId];
    InitialStateOfItem(items, owned, counts, i);
    assert st == StateFor(items[i], owned[i], counts[i]);
    FreshOfState(items[i], owned[i], counts[i], ownedNow[i], countsNow[i]);
    assert Fresh(st, ownedNow[i], countsNow[i]) <==> BoughtSinceStart(owned[i], counts[i], ownedNow[i], countsNow[i]);
  }

  lemma FreshOfState(item: CartItem, owned: bool, count: nat, ownedNow: bool, countNow: nat)
    ensures Fresh(StateFor(item, owned, count), ownedNow, countNow) <==>
              BoughtSinceStart(owned, count, ownedNow, countNow)
  {
  }

  /** With distinct ids the verdict is decided item by item: a purchase is
      seen iff some item not owned at the start is owned now, or some item
      owned at the start has a count above its starting count. */
  lemma NewPurchaseIff(items: seq<CartItem>, owned: seq<bool>, counts: seq<nat>,
                       ownedNow: seq<bool>, countsNow: seq<nat>)
    requires |owned| == |items| && |counts| == |items|
    requires |ownedNow| == |items| && |countsNow| == |items|
    requires DistinctIds(items)
    ensures NewPurchase(items, InitialStates(items, owned, counts), ownedNow, countsNow) <==>
              exists i :: 0 <= i < |items| && BoughtSinceStart(owned[i], counts[i], ownedNow[i], countsNow[i])
  {
    forall i | 0 <= i < |items|
      ensures Fresh(InitialStates(items, owned, counts)[items[i].assetId], ownedNow[i], countsNow[i]) <==>
                BoughtSinceStart(owned[i], counts[i], ownedNow[i], countsNow[i])
    {
      assert LastWithId(items, i);
      FreshOfItem(items, owned, counts, ownedNow, countsNow, i);
    }
  }

  class BulkMonitor {
    /** `initialItemStates`. */
    var initialItemStates: map<string, ItemState>
    /** Whether `ownershipCheckInterval` is running. */
    var polling: bool

    constructor()
      ensures initialItemStates == map[] && !polling
    {
      initialItemStates := map[];
      polling := false;
    }

    /** `startPurchaseMonitoring`: without a signed-in user nothing
        happens; otherwise every item's start state is recorded and the
        poll begins. */
    method Start(authUserId: Option<int>, items: seq<CartItem>, owned: seq<bool>, counts: seq<nat>)
      requires |owned| == |items| && |counts| == |items|
      modifies this
      ensures authUserId.None? || authUserId.value == 0 ==>
                initialItemStates == old(initialItemStates) && !polling
      ensures authUserId.Some? && authUserId.value != 0 ==>
                initialItemStates == StatesFrom(old(initialItemStates), items, owned, counts) && polling
    {
      polling := false;
      if authUserId.None? || authUserId.value == 0 {
        return;
      }
      for i := 0 to |items|
        invariant initialItemStates == StatesFrom(old(initialItemStates), items[..i], owned[..i], counts[..i])
      {
        assert items[..i + 1][..i] == items[..i];
        assert owned[..i + 1][..i] == owned[..i];
        assert counts[..i + 1][..i] == counts[..i];
        initialItemStates := initialItemStates[items[i].assetId := StateFor(items[i], owned[i], counts[i])];
      }
      assert items[..|items|] == items && owned[..|items|] == owned && counts[..|items|] == counts;
      polling := true;
    }

    /** One poll: `anyNewPurchase` is found by a scan that stops at the
        first freshly bought item; on success the poll stops. */
    method Tick(items: seq<CartItem>, ownedNow: seq<bool>, countsNow: seq<nat>) returns (anyNewPurchase: bool)
      requires |ownedNow| == |items| && |countsNow| == |items|
      requires forall i :: 0 <= i < |items| ==> items[i].assetId in initialItemStates
      modifies this
      ensures initialItemStates == old(initialItemStates)
      ensures anyNewPurchase == NewPurchase(items, initialItemStates, ownedNow, countsNow)
      ensures polling == (old(polling) && !anyNewPurchase)
    {
      anyNewPurchase := false;
      var i := 0;
      while i < |items|
        invariant 0 <= i <= |items|
        invariant !anyNewPurchase
        invariant forall j :: 0 <= j < i ==>
                    !Fresh(initialItemStates[items[j].assetId], ownedNow[j], countsNow[j])
      {
        var state := initialItemStates[items[i].assetId];
        if state.OwnedAtStart? {
          if countsNow[i] > state.initialCount {
            anyNewPurchase := true;
            break;
          }
        } else if ownedNow[i] {
          anyNewPurchase := true;
          break;
        }
        i := i + 1;
      }
      if anyNewPurchase {
        polling := false;
      }
    }
  }

  // ---------------------------------------------------------------------------
  // Success and texts

  /** The stored summary name: "N item", with an "s" when N > 1. */
  function SummaryName(n: nat): (r: string)
    ensures |r| >= 6 && (r[|r| - 1] == 's' <==> n > 1)
  {
    Decimal(n) + " item" + (if n > 1 then "s" else "")
  }

  /** The summary name starts with the item count, which parseInt reads
      back. */
  lemma SummaryCount(n: nat)
    ensures ParseInt(SummaryName(n)) == Some(n)
  {
    var rest := " item" + (if n > 1 then "s" else "");
    assert SummaryName(n) == Decimal(n) + rest;
    assert Decimal(n)[0] != '-' && Decimal(n)[0] != '+';
    LeadingDigitsOfDecimal(n, rest);
    DecimalRoundTrip(n);
  }

  /** `handlePurchaseSuccess` here: every item's id goes to the cart's
      removal event, the stored details carry the totals and the count, and
      the page moves to the success URL. */
  method HandleBulkSuccess(session: Session, items: seq<CartItem>) returns (removal: RemoveRequest)
    modifies session
    ensures removal == RemoveRequest(Some(Ids(items)), None)
    ensures session.purchaseDetails ==
              Some(PurchaseDetails(SummaryName(|items|), SumEarn(items), SumPrice(items), Some(|items|)))
    ensures session.href == Redirect(old(session.href))
  {
    removal := RemoveRequest(Some(Ids(items)), None);
    session.purchaseDetails :=
      Some(PurchaseDetails(SummaryName(|items|), SumEarn(items), SumPrice(items), Some(|items|)));
    session.href := Redirect(session.href);
  }

  /** The step-2 instruction: the singular message for exactly one item,
      otherwise the plural one with the count. */
  function Step2Text(catalogue: Catalogue, n: nat): (r: string)
    ensures n == 1 ==> r == Localized(catalogue, "checkoutBulkStep2Single", NoSubs)
    ensures n != 1 ==> r == Localized(catalogue, "checkoutBulkStep2", One(Decimal(n)))
  {
    if n == 1 then Localized(catalogue, "checkoutBulkStep2Single", NoSubs)
    else Localized(catalogue, "checkoutBulkStep2", One(Decimal(n)))
  }

  /** The step-2 instruction and the stored summary name agree on number
      for every non-empty checkout: the singular instruction goes with a
      name without a final "s", the plural one (carrying the count) with a
      name ending in "s". An empty list gets the plural instruction but the
      singular name "0 item". */
  lemma Step2MatchesSummary(catalogue: Catalogue, n: nat)
    ensures var name := SummaryName(n);
            (n >= 1 && name[|name| - 1] != 's' ==>
               Step2Text(catalogue, n) == Localized(catalogue, "checkoutBulkStep2Single", NoSubs)) &&
            (name[|name| - 1] == 's' ==>
               Step2Text(catalogue, n) == Localized(catalogue, "checkoutBulkStep2", One(Decimal(n)))) &&
            (n == 0 ==>
               name[|name| - 1] != 's' &&
               Step2Text(catalogue, n) == Localized(catalogue, "checkoutBulkStep2", One(Decimal(n))))
  {
  }
}
