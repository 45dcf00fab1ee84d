/** shopping-cart.js: the navbar cart. It keeps the set of selected ids
    while its popup is open, writes per-item selection states to storage,
    shows the item count on a badge, and totals the selected items. */
module ShoppingCart {
  import opened Text
  import opened Messages
  import opened CartStorage
  import opened Paths
  import CatalogItem

  /** `shouldShowCart`: only on catalog and bundle pages. */
  function ShouldShowCart(href: string): (r: bool)
    ensures r <==> Contains(href, "/catalog") || Contains(href, "/bundles")
  {
    Contains(href, "/catalog") || Contains(href, "/bundles")
  }

  /** The cart is shown on every catalog-item and bundle page the item
      script reads an id from, whatever precedes the path (the origin) and
      follows it (query and fragment). */
  lemma CartShownOnItemPages(origin: string, path: string, rest: string)
    requires CatalogItem.PageItemOf(path).Some?
    ensures ShouldShowCart(origin + path + rest)
  {
    if PathId(path, "catalog").Some? {
      var i := PathIdMentions(path, "catalog", "/catalog");
      ContainedInHref(origin, path, rest, "/catalog", i);
    } else {
      var i := PathIdMentions(path, "bundles", "/bundles");
      ContainedInHref(origin, path, rest, "/bundles", i);
    }
  }

  /** What the path contains, the whole location contains. */
  lemma ContainedInHref(origin: string, path: string, rest: string, pat: string, i: nat)
    requires OccursAt(path, pat, i)
    ensures Contains(origin + path + rest, pat)
  {
    var href := origin + path + rest;
    assert href[|origin| + i..|origin| + i + |pat|] == path[i..i + |pat|];
    ContainsAt(href, pat, |origin| + i);
  }

  /** `cart.filter(item => selectedItems.has(item.assetId))`. */
  function SelectedOf(cart: seq<CartItem>, selected: set<string>): (r: seq<CartItem>)
    ensures |r| <= |cart|
    ensures forall x :: x in r <==> x in cart && x.assetId in selected
  {
    if cart == [] then []
    else
      var init, last := cart[..|cart| - 1], cart[|cart| - 1];
      assert cart == init + [last];
      SelectedOf(init, selected) + (if last.assetId in selected then [last] else [])
  }

  function SumPrice(items: seq<CartItem>): int
  {
    if items == [] then 0 else SumPrice(items[..|items| - 1]) + items[|items| - 1].assetPrice
  }

  function SumEarn(items: seq<CartItem>): int
  {
    if items == [] then 0 else SumEarn(items[..|items| - 1]) + items[|items| - 1].earnAmount
  }

  /** What the popup's footer shows. */
  datatype Totals = Totals(totalItems: nat, totalPrice: int, totalEarn: int,
                           totalText: string, buyDisabled: bool)

  /** The footer of `renderPopupContent`: count, price and earn of the
      selected items only, the singular text for exactly one item, and the
      buy button disabled when nothing is selected. */
  function PopupTotals(catalogue: Catalogue, cart: seq<CartItem>, selected: set<string>): (t: Totals)
    ensures t.totalItems == |SelectedOf(cart, selected)|
    ensures t.totalPrice == SumPrice(SelectedOf(cart, selected))
    ensures t.totalEarn == SumEarn(SelectedOf(cart, selected))
    ensures t.totalItems == 1 ==> t.totalText == Localized(catalogue, "cartTotal", One("1"))
    ensures t.totalItems != 1 ==>
              t.totalText == Localized(catalogue, "cartTotalPlural", One(Decimal(t.totalItems)))
    ensures t.buyDisabled <==> forall x :: x in cart ==> x.assetId !in selected
  {
    var chosen := SelectedOf(cart, selected);
    var n := |chosen|;
    var text := if n == 1 then Localized(catalogue, "cartTotal", One(Decimal(n)))
                else Localized(catalogue, "cartTotalPlural", One(Decimal(n)));
    assert n == 0 <==> forall x :: x in cart ==> x.assetId !in selected by {
      if n != 0 { assert chosen[0] in chosen; }
    }
    Totals(n, SumPrice(chosen), SumEarn(chosen), text, n == 0)
  }

  /** The totals split the cart: selected plus unselected make the whole. */
  lemma {:induction false} TotalsPartition(cart: seq<CartItem>, selected: set<string>)
    ensures SumPrice(SelectedOf(cart, selected)) + SumPrice(Unselected(cart, selected)) == SumPrice(cart)
    ensures SumEarn(SelectedOf(cart, selected)) + SumEarn(Unselected(cart, selected)) == SumEarn(cart)
    ensures |SelectedOf(cart, selected)| + |Unselected(cart, selected)| == |cart|
  {
    if cart != [] {
      var init, last := cart[..|cart| - 1], cart[|cart| - 1];
      TotalsPartition(init, selected);
      var s, u := SelectedOf(init, selected), Unselected(init, selected);
      if last.assetId in selected {
        assert SelectedOf(cart, selected) == s + [last];
        assert Unselected(cart, selected) == u;
        assert (s + [last])[..|s|] == s;
      } else {
        assert SelectedOf(cart, selected) == s;
        assert Unselected(cart, selected) == u + [last];
        assert (u + [last])[..|u|] == u;
      }
    }
  }

  function Unselected(cart: seq<CartItem>, selected: set<string>): seq<CartItem>
  {
    if cart == [] then []
    else
      var init, last := cart[..|cart| - 1], cart[|cart| - 1];
      Unselected(init, selected) + (if last.assetId !in selected then [last] else [])
  }

  /** Selecting everything totals the whole cart. */
  lemma {:induction false} AllSelected(cart: seq<CartItem>, selected: set<string>)
    requires forall x :: x in cart ==> x.assetId in selected
    ensures SelectedOf(cart, selected) == cart
  {
    if cart != [] {
      var init, last := cart[..|cart| - 1], cart[|cart| - 1];
      assert cart == init + [last];
      assert forall x :: x in init ==> x in cart;
      AllSelected(init, selected);
      assert last.assetId in selected;
      assert SelectedOf(cart, selected) == init + [last];
    }
  }

  /** Removing every id in `ids` from the cart, one after the other. */
  function WithoutIds(cart: seq<CartItem>, ids: seq<string>): seq<CartItem>
  {
    if ids == [] then cart else WithoutItem(WithoutIds(cart, ids[..|ids| - 1]), ids[|ids| - 1])
  }

  /** What survives the removals is exactly what has none of the ids. */
  lemma {:induction false} WithoutIdsMembers(cart: seq<CartItem>, ids: seq<string>)
    ensures forall x :: x in WithoutIds(cart, ids) <==> x in cart && x.assetId !in ids
  {
    if ids != [] {
      var init := ids[..|ids| - 1];
      WithoutIdsMembers(cart, init);
      WithoutItemMembers(WithoutIds(cart, init), ids[|ids| - 1]);
      assert ids == init + [ids[|ids| - 1]];
    }
  }

  class CartWidget {
    /** `selectedItems`, the ids ticked in the open popup. */
    var selectedItems: set<string>
    var popupOpen: bool
    var badgeText: string
    var badgeHidden: bool

    constructor()
      ensures selectedItems == {} && !popupOpen
    {
      selectedItems := {};
      popupOpen := false;
      badgeText := "";
      badgeHidden := true;
    }

    /** `removeFromCart`: ids are compared as strings; every match leaves
        the cart and the id's selection state is deleted. The stored
        selected-id list is not touched here. */
    static method RemoveFromCart(store: Storage, assetId: string) returns (cart: seq<CartItem>)
      modifies store
      ensures store.cart == WithoutItem(old(store.cart), assetId)
      ensures store.states == old(store.states) - {assetId}
      ensures store.selected == old(store.selected)
      ensures cart == store.cart
    {
      store.cart := WithoutItem(store.cart, assetId);
      RemoveFromSelectionStates(store, assetId);
      cart := store.cart;
    }

    /** `setItemSelectionState`: only the given id's state changes. */
    static method SetItemSelectionState(store: Storage, assetId: string, isSelected: bool)
      modifies store
      ensures store.states == old(store.states)[assetId := isSelected]
      ensures store.cart == old(store.cart) && store.selected == old(store.selected)
    {
      store.states := store.states[assetId := isSelected];
    }

    /** `removeFromSelectionStates`: only the given id's state goes. */
    static method RemoveFromSelectionStates(store: Storage, assetId: string)
      modifies store
      ensures store.states == old(store.states) - {assetId}
      ensures store.cart == old(store.cart) && store.selected == old(store.selected)
    {
      store.states := store.states - {assetId};
    }

    /** `updateBadge`: the cart's length, hidden when it is 0. */
    method UpdateBadge(store: Storage)
      modifies this
      ensures badgeText == Decimal(|store.cart|)
      ensures badgeHidden <==> |store.cart| == 0
      ensures selectedItems == old(selectedItems) && popupOpen == old(popupOpen)
    {
      badgeText := Decimal(|store.cart|);
      badgeHidden := |store.cart| == 0;
    }

    /** `openPopup`: an item is selected when its recorded state is true or
        when it has none, and a missing state is recorded as true. */
    method OpenPopup(store: Storage)
      modifies this, store
      ensures popupOpen
      ensures forall id :: id in selectedItems <==>
                id in Ids(store.cart) && (id in old(store.states) ==> old(store.states)[id])
      ensures forall id :: id in store.states <==> id in old(store.states) || id in Ids(store.cart)
      ensures forall id :: id in old(store.states) ==> store.states[id] == old(store.states)[id]
      ensures forall id :: id in store.states && id !in old(store.states) ==> store.states[id]
      ensures store.cart == old(store.cart) && store.selected == old(store.selected)
    {
      var cart := store.cart;
      selectedItems := {};
      for i := 0 to |cart|
        invariant store.cart == cart && store.selected == old(store.selected)
        invariant forall id :: id in selectedItems <==>
                    id in Ids(cart[..i]) && (id in old(store.states) ==> old(store.states)[id])
        invariant forall id :: id in store.states <==> id in old(store.states) || id in Ids(cart[..i])
        invariant forall id :: id in old(store.states) ==> store.states[id] == old(store.states)[id]
        invariant forall id :: id in store.states && id !in old(store.states) ==> store.states[id]
      {
        assert Ids(cart[..i + 1]) == Ids(cart[..i]) + [cart[i].assetId];
        var id := cart[i].assetId;
        if id in store.states {
          if store.states[id] {
            selectedItems := selectedItems + {id};
          }
        } else {
          selectedItems := selectedItems + {id};
          SetItemSelectionState(store, id, true);
        }
      }
      assert cart[..|cart|] == cart;
      popupOpen := true;
    }

    /** A checkbox's `change` handler: tick or untick the id, record it, and
        nothing else. */
    method OnCheckboxChange(store: Storage, assetId: string, checked: bool)
      modifies this, store
      ensures selectedItems == if checked then old(selectedItems) + {assetId}
                               else old(selectedItems) - {assetId}
      ensures store.states == old(store.states)[assetId := checked]
      ensures store.cart == old(store.cart) && store.selected == old(store.selected)
    {
      if checked {
        selectedItems := selectedItems + {assetId};
      } else {
        selectedItems := selectedItems - {assetId};
      }
      SetItemSelectionState(store, assetId, checked);
    }

    /** An item's remove button: untick it, remove it, refresh the badge. */
    method OnRemoveButton(store: Storage, assetId: string)
      modifies this, store
      ensures selectedItems == old(selectedItems) - {assetId}
      ensures store.cart == WithoutItem(old(store.cart), assetId)
      ensures store.states == old(store.states) - {assetId}
      ensures badgeText == Decimal(|store.cart|) && (badgeHidden <==> |store.cart| == 0)
      ensures store.selected == old(store.selected) && popupOpen == old(popupOpen)
    {
      selectedItems := selectedItems - {assetId};
      var _ := RemoveFromCart(store, assetId);
      UpdateBadge(store);
    }

    /** The buy button: nothing when no item is selected; otherwise close
        the popup and hand the selected items, in cart order, to bulk
        checkout. */
    method OnBuyClick(cart: seq<CartItem>) returns (itemsToBuy: Option<seq<CartItem>>)
      modifies this
      ensures itemsToBuy.None? <==> SelectedOf(cart, old(selectedItems)) == []
      ensures itemsToBuy.Some? ==> itemsToBuy.value == SelectedOf(cart, old(selectedItems)) && !popupOpen
      ensures itemsToBuy.None? ==> popupOpen == old(popupOpen)
      ensures selectedItems == old(selectedItems)
    {
      var chosen := SelectedOf(cart, selectedItems);
      if |chosen| == 0 {
        return None;
      }
      popupOpen := false;
      return Some(chosen);
    }

    /** The `roearn:removeFromCart` event: every id of `assetIds` when that
        array is present, else the single (non-empty) `assetId`; then the
        badge is refreshed. */
    method OnRemoveEvent(store: Storage, assetIds: Option<seq<string>>, assetId: Option<string>)
      modifies this, store
      ensures assetIds.Some? ==> store.cart == WithoutIds(old(store.cart), assetIds.value) &&
                                 store.states == old(store.states) - set id | id in assetIds.value
      ensures assetIds.None? && assetId.Some? && assetId.value != "" ==>
                store.cart == WithoutItem(old(store.cart), assetId.value) &&
                store.states == old(store.states) - {assetId.value}
      ensures assetIds.None? && (assetId.None? || assetId.value == "") ==>
                store.cart == old(store.cart) && store.states == old(store.states)
      ensures badgeText == Decimal(|store.cart|) && (badgeHidden <==> |store.cart| == 0)
      ensures selectedItems == old(selectedItems)
      ensures store.selected == old(store.selected) && popupOpen == old(popupOpen)
    {
      if assetIds.Some? {
        var ids := assetIds.value;
        for i := 0 to |ids|
          invariant store.cart == WithoutIds(old(store.cart), ids[..i])
          invariant store.states == old(store.states) - set id | id in ids[..i]
          invariant selectedItems == old(selectedItems)
          invariant store.selected == old(store.selected) && popupOpen == old(popupOpen)
        {
          assert ids[..i + 1][..i] == ids[..i];
          assert ids[..i + 1] == ids[..i] + [ids[i]];
          var _ := RemoveFromCart(store, ids[i]);
        }
        assert ids[..|ids|] == ids;
      } else if assetId.Some? && assetId.value != "" {
        var _ := RemoveFromCart(store, assetId.value);
      }
      UpdateBadge(store);
    }
  }

  /** After the bulk removal, no item with a removed id is left and every
      other item is still there. */
  lemma RemoveEventLeaves(cart: seq<CartItem>, ids: seq<string>, x: CartItem)
    ensures x in WithoutIds(cart, ids) <==> x in cart && x.assetId !in ids
  {
    WithoutIdsMembers(cart, ids);
  }
}
