/** The cart kept in extension storage and shared by the catalog page
    (catalog-item.js) and the navbar cart (shopping-cart.js): the item list
    `roearnCart`, the selected-id list `roearnSelectedItems` and the
    selection-state dictionary `roearnSelectionStates`. */
module CartStorage {

  /** A cart entry as catalog-item.js stores it; asset ids are the digit
      strings taken from the page path. */
  datatype CartItem = CartItem(
    assetId: string,
    assetName: string,
    assetType: string,
    assetPrice: int,
    earnAmount: int,
    thumbnail: string,
    userId: string)

  class Storage {
    var cart: seq<CartItem>
    var selected: seq<string>
    var states: map<string, bool>

    /** Nothing stored yet: each key reads as its `|| []` / `|| {}` default. */
    constructor()
      ensures cart == [] && selected == [] && states == map[]
    {
      cart := [];
      selected := [];
      states := map[];
    }
  }

  function Ids(cart: seq<CartItem>): (r: seq<string>)
    ensures |r| == |cart| && forall i :: 0 <= i < |cart| ==> r[i] == cart[i].assetId
  {
    if cart == [] then [] else Ids(cart[..|cart| - 1]) + [cart[|cart| - 1].assetId]
  }

  /** The invariant the add operation keeps: no asset id twice. */
  predicate Distinct<T(==)>(xs: seq<T>)
  {
    forall i, j :: 0 <= i < j < |xs| ==> xs[i] != xs[j]
  }

  /** `cart.filter(item => item.assetId !== id)`. */
  function WithoutItem(cart: seq<CartItem>, id: string): (r: seq<CartItem>)
    ensures |r| <= |cart|
  {
    if cart == [] then []
    else WithoutItem(cart[..|cart| - 1], id) +
         (if cart[|cart| - 1].assetId != id then [cart[|cart| - 1]] else [])
  }

  /** `ids.filter(x => x !== id)`. */
  function WithoutId(ids: seq<string>, id: string): (r: seq<string>)
    ensures |r| <= |ids|
  {
    if ids == [] then []
    else WithoutId(ids[..|ids| - 1], id) + (if ids[|ids| - 1] != id then [ids[|ids| - 1]] else [])
  }

  /** The filter keeps exactly the entries with another id. */
  lemma {:induction false} WithoutItemMembers(cart: seq<CartItem>, id: string)
    ensures forall x :: x in WithoutItem(cart, id) <==> x in cart && x.assetId != id
  {
    if cart != [] {
      var init := cart[..|cart| - 1];
      WithoutItemMembers(init, id);
      assert cart == init + [cart[|cart| - 1]];
    }
  }

  /** The filter keeps the order: it distributes over concatenation. */
  lemma {:induction false} WithoutItemAppend(a: seq<CartItem>, b: seq<CartItem>, id: string)
    ensures WithoutItem(a + b, id) == WithoutItem(a, id) + WithoutItem(b, id)
    decreases |b|
  {
    if b == [] {
      assert a + b == a;
    } else {
      var init := b[..|b| - 1];
      WithoutItemAppend(a, init, id);
      assert (a + b)[..|a + b| - 1] == a + init;
    }
  }

  /** A cart without the id is left as it is. */
  lemma {:induction false} WithoutItemAbsent(cart: seq<CartItem>, id: string)
    requires id !in Ids(cart)
    ensures WithoutItem(cart, id) == cart
  {
    if cart != [] {
      var init := cart[..|cart| - 1];
      assert Ids(init) == Ids(cart)[..|cart| - 1];
      WithoutItemAbsent(init, id);
    }
  }

  lemma {:induction false} WithoutIdMembers(ids: seq<string>, id: string)
    ensures forall x :: x in WithoutId(ids, id) <==> x in ids && x != id
  {
    if ids != [] {
      var init := ids[..|ids| - 1];
      WithoutIdMembers(init, id);
      assert ids == init + [ids[|ids| - 1]];
    }
  }

  lemma {:induction false} WithoutIdAbsent(ids: seq<string>, id: string)
    requires id !in ids
    ensures WithoutId(ids, id) == ids
  {
    if ids != [] {
      var init := ids[..|ids| - 1];
      assert id !in init;
      WithoutIdAbsent(init, id);
    }
  }

  /** Filtering keeps a list of distinct entries distinct. */
  lemma WithoutItemDistinct(cart: seq<CartItem>, id: string)
    requires Distinct(Ids(cart))
    ensures Distinct(Ids(WithoutItem(cart, id)))
  {
    var r := WithoutItem(cart, id);
    WithoutItemMembers(cart, id);
    forall i, j | 0 <= i < j < |r|
      ensures r[i].assetId != r[j].assetId
    {
      WithoutItemSubsequence(cart, id, i, j);
    }
  }

  /** Two positions of the filtered cart come from two positions of the
      cart, in the same order. */
  lemma {:induction false} WithoutItemSubsequence(cart: seq<CartItem>, id: string, i: nat, j: nat)
    requires i < j < |WithoutItem(cart, id)|
    ensures exists i', j' :: 0 <= i' < j' < |cart| &&
              cart[i'] == WithoutItem(cart, id)[i] && cart[j'] == WithoutItem(cart, id)[j]
  {
    var init := cart[..|cart| - 1];
    var r := WithoutItem(cart, id);
    var ri := WithoutItem(init, id);
    if j < |ri| {
      WithoutItemSubsequence(init, id, i, j);
      var i', j' :| 0 <= i' < j' < |init| && init[i'] == ri[i] && init[j'] == ri[j];
      assert cart[i'] == init[i'] && cart[j'] == init[j'];
    } else {
      assert r[j] == cart[|cart| - 1];
      WithoutItemMembers(init, id);
      assert ri[i] in init;
      var i' :| 0 <= i' < |init| && init[i'] == ri[i];
      assert cart[i'] == r[i];
    }
  }
}
