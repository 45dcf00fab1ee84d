/** checkout.js: the single-item checkout page. It chooses the inventory
    endpoints by item type, decides on each poll whether the purchase went
    through, and on success leaves the purchase details in session storage
    and redirects to a `?success` URL. */
module Checkout {
  import opened Text

  // ---------------------------------------------------------------------------
  // Inventory endpoints and answers

  /** Which inventory collection a lookup goes to. */
  datatype Collection = Gamepasses | Bundles | Assets

  /** `checkItemOwnership`'s URL choice: gamepass, then bundle, otherwise
      asset. */
  function OwnershipCollection(assetType: string): (c: Collection)
    ensures c == Gamepasses <==> assetType == "gamepass"
    ensures c == Bundles <==> assetType == "bundle"
    ensures c == Assets <==> assetType != "gamepass" && assetType != "bundle"
  {
    if assetType == "gamepass" then Gamepasses
    else if assetType == "bundle" then Bundles
    else Assets
  }

  /** `getInventoryCount`'s URL choice on this page: bundles, and every other
      type (gamepasses included) as an asset. */
  function CountCollection(assetType: string): (c: Collection)
    ensures c != Gamepasses
    ensures c == Bundles <==> assetType == "bundle"
  {
    if assetType == "bundle" then Bundles else Assets
  }

  /** The two lookups agree except on gamepasses, which the count lookup
      treats as assets. */
  lemma CollectionsAgree(assetType: string)
    ensures assetType != "gamepass" ==> OwnershipCollection(assetType) == CountCollection(assetType)
    ensures assetType == "gamepass" ==> CountCollection(assetType) == Assets
  {
  }

  /** What an ownership lookup got back: a thrown fetch, a non-ok status, or
      a JSON body, of which only the literal `true` means owned. */
  datatype OwnedReply = OwnedThrew | OwnedNotOk | OwnedBody(isLiteralTrue: bool)

  function IsOwned(reply: OwnedReply): (owned: bool)
    ensures owned <==> reply.OwnedBody? && reply.isLiteralTrue
  {
    match reply
    case OwnedBody(t) => t
    case _ => false
  }

  /** What an inventory listing got back; `data` is the length of the
      body's `data` array when it has one. */
  datatype CountReply = CountThrew | CountNotOk | CountBody(data: Option<nat>)

  /** `getInventoryCount`: the listing's length, 0 on any failure. */
  function ListedCount(reply: CountReply): (n: nat)
    ensures reply.CountBody? && reply.data.Some? ==> n == reply.data.value
    ensures !(reply.CountBody? && reply.data.Some?) ==> n == 0
  {
    match reply
    case CountBody(Some(k)) => k
    case _ => 0
  }

  // ---------------------------------------------------------------------------
  // Redirect after a purchase

  predicate IsGameHashUrl(href: string) {
    Contains(href, "/games/") && Contains(href, "#!/")
  }

  /** `handlePurchaseSuccess`'s redirect: a game page with a `#!/` fragment
      gets `?success` spliced in before its first `#!/`; any other page is
      cut at its first `?` and then its first `#`, and `?success` is
      appended. */
  function Redirect(href: string): (r: string)
    ensures IsGameHashUrl(href) ==>
              var k := IndexOf(href, "#!/").value;
              r == href[..k] + "?success#!/" + href[k + 3..]
    ensures !IsGameHashUrl(href) ==>
              |r| >= 8 && r[|r| - 8..] == "?success" &&
              var base := r[..|r| - 8];
              |base| <= |href| && base == href[..|base|] && '?' !in base && '#' !in base &&
              (|base| == |href| || href[|base|] == '?' || href[|base|] == '#')
  {
    if IsGameHashUrl(href) then
      ReplaceFirst(href, "#!/", "?success#!/")
    else
      var query := Before(href, "?");
      var base := Before(query, "#");
      BeforeCharFree(href, '?');
      BeforeCharFree(query, '#');
      assert forall i :: 0 <= i < |base| ==> base[i] == query[i];
      assert |base| == |href| || href[|base|] == '?' || href[|base|] == '#' by {
        if Contains(query, "#") { CharOccurs(query, '#', |base|); }
        if Contains(href, "?") { CharOccurs(href, '?', |query|); }
      }
      var r := base + "?success";
      assert r[..|r| - 8] == base;
      r
  }

  /** A one-character pattern occurs where that character stands. */
  lemma CharOccurs(s: string, c: char, i: nat)
    requires OccursAt(s, [c], i)
    ensures i < |s| && s[i] == c
  {
    assert s[i..i + 1][0] == s[i];
  }

  /** Appending `?success` cannot create a `/games/` segment. */
  lemma NoGamesInSuccessSuffix(base: string)
    requires !Contains(base, "/games/")
    ensures !Contains(base + "?success", "/games/")
  {
    var r := base + "?success";
    forall k | 0 <= k
      ensures !OccursAt(r, "/games/", k)
    {
      if k + 7 <= |base| {
        assert !OccursAt(base, "/games/", k);
        assert r[k..k + 7] == base[k..k + 7];
      } else if k + 7 <= |r| {
        assert r[k + 6] == "?success"[k + 6 - |base|];
        assert r[k..k + 7][6] == r[k + 6];
      }
    }
  }

  /** Off game pages the redirect drops the old query and fragment, so it
      is idempotent there: redirecting twice ends at the same URL. */
  lemma RedirectPlainStable(href: string)
    requires !Contains(href, "/games/")
    ensures Redirect(Redirect(href)) == Redirect(href)
  {
    var r := Redirect(href);
    var base := r[..|r| - 8];
    assert r == base + "?success";
    PrefixContains(href, base, "/games/");
    RedirectPlainFixed(base);
  }

  /** A page without a query, a fragment or a `/games/` segment, with
      `?success` appended, is where its own redirect leads. */
  lemma RedirectPlainFixed(base: string)
    requires '?' !in base && '#' !in base && !Contains(base, "/games/")
    ensures Redirect(base + "?success") == base + "?success"
  {
    NoGamesInSuccessSuffix(base);
    QueryBeforeSuccess(base);
    CharAbsent(base, '#');
  }

  /** The query of such a page starts at the appended `?success`. */
  lemma QueryBeforeSuccess(base: string)
    requires '?' !in base
    ensures Before(base + "?success", "?") == base
  {
    SplitAt(base, "?", "success");
    assert base + "?" + "success" == base + "?success";
  }

  // ---------------------------------------------------------------------------
  // Session storage and the page URL

  /** The `roearn_purchase_details` record; `itemCount` is set by bulk
      checkout only. */
  datatype PurchaseDetails = PurchaseDetails(assetName: string, earnAmount: int, assetPrice: int,
                                             itemCount: Option<nat>)

  /** The `roearn:removeFromCart` event's detail: a list of ids or one id. */
  datatype RemoveRequest = RemoveRequest(assetIds: Option<seq<string>>, assetId: Option<string>)

  /** The browser state the checkout and success pages share. */
  class Session {
    var href: string
    var purchaseDetails: Option<PurchaseDetails>

    constructor(href0: string)
      ensures href == href0 && purchaseDetails.None?
    {
      href := href0;
      purchaseDetails := None;
    }
  }

  /** `handlePurchaseSuccess`: ask the cart to drop the item, store the
      details, and move to the success URL. */
  method HandlePurchaseSuccess(session: Session, assetId: string, assetName: string,
                               earnAmount: int, assetPrice: int)
    returns (removal: RemoveRequest)
    modifies session
    ensures removal == RemoveRequest(None, Some(assetId))
    ensures session.purchaseDetails == Some(PurchaseDetails(assetName, earnAmount, assetPrice, None))
    ensures session.href == Redirect(old(session.href))
  {
    removal := RemoveRequest(None, Some(assetId));
    session.purchaseDetails := Some(PurchaseDetails(assetName, earnAmount, assetPrice, None));
    session.href := Redirect(session.href);
  }

  // ---------------------------------------------------------------------------
  // Purchase monitoring

  /** What the 2-second poll is waiting for, if anything. */
  datatype Watch = Idle | UntilOwned | UntilCountAbove(initialCount: nat)

  /** `startPurchaseMonitoring`'s decision: no signed-in user (a missing or
      zero id) does nothing; a gamepass already owned is a success at once,
      otherwise the poll waits for ownership; any other item waits for
      ownership when not owned yet, and for the inventory count to grow
      when it already is. */
  function StartDecision(authUserId: Option<int>, assetType: string, ownedAtStart: bool,
                         initialCount: nat): (d: (bool, Watch))
    ensures d.0 ==> d.1 == Idle
  {
    if authUserId.None? || authUserId.value == 0 then (false, Idle)
    else if assetType == "gamepass" then
      if ownedAtStart then (true, Idle) else (false, UntilOwned)
    else if !ownedAtStart then (false, UntilOwned)
    else (false, UntilCountAbove(initialCount))
  }

  /** One poll: the purchase is seen when the awaited event happened. */
  predicate TickDetects(w: Watch, owned: bool, count: nat) {
    match w
    case Idle => false
    case UntilOwned => owned
    case UntilCountAbove(c) => count > c
  }

  /** A poll whose lookups both failed (a thrown fetch or a non-ok status)
      never reports a purchase, whatever the poll is waiting for: a failed
      ownership lookup reads as not owned and a failed listing as empty. */
  lemma FailedPollNeverDetects(w: Watch, ownedReply: OwnedReply, countReply: CountReply)
    requires !ownedReply.OwnedBody? && !countReply.CountBody?
    ensures !TickDetects(w, IsOwned(ownedReply), ListedCount(countReply))
  {
  }

  /** When the first listing of an already owned item failed, its count
      reads 0, so the first later poll that lists the item at all reports a
      purchase. */
  lemma FailedBaselineDetectsAnyListing(authUserId: int, assetType: string,
                                        baseline: CountReply, later: CountReply)
    requires authUserId != 0 && assetType != "gamepass"
    requires !baseline.CountBody?
    ensures var w := StartDecision(Some(authUserId), assetType, true, ListedCount(baseline)).1;
            TickDetects(w, false, ListedCount(later)) <==>
              later.CountBody? && later.data.Some? && later.data.value > 0
  {
  }

  /** The purchase-detection rules, over every input. */
  lemma MonitorRules(authUserId: int, assetType: string, ownedAtStart: bool, initialCount: nat,
                     owned: bool, count: nat)
    requires authUserId != 0
    ensures assetType == "gamepass" && ownedAtStart ==>
              StartDecision(Some(authUserId), assetType, ownedAtStart, initialCount).0
    ensures !ownedAtStart ==>
              var w := StartDecision(Some(authUserId), assetType, ownedAtStart, initialCount).1;
              !StartDecision(Some(authUserId), assetType, ownedAtStart, initialCount).0 &&
              (TickDetects(w, owned, count) <==> owned)
    ensures assetType != "gamepass" && ownedAtStart ==>
              var w := StartDecision(Some(authUserId), assetType, ownedAtStart, initialCount).1;
              !StartDecision(Some(authUserId), assetType, ownedAtStart, initialCount).0 &&
              (TickDetects(w, owned, count) <==> count > initialCount)
  {
  }

  /** Without a signed-in user nothing is ever detected. */
  lemma NoUserNoDetection(authUserId: Option<int>, assetType: string, ownedAtStart: bool,
                          initialCount: nat, owned: bool, count: nat)
    requires authUserId.None? || authUserId.value == 0
    ensures !StartDecision(authUserId, assetType, ownedAtStart, initialCount).0
    ensures !TickDetects(StartDecision(authUserId, assetType, ownedAtStart, initialCount).1, owned, count)
  {
  }

  /** The monitor's state: `ownershipCheckInterval` as the watch it runs. */
  class PurchaseMonitor {
    var watch: Watch

    constructor()
      ensures watch == Idle
    {
      watch := Idle;
    }

    /** `startPurchaseMonitoring`: clear any running poll, then decide. The
        answers of the lookups are parameters. */
    method Start(authUserId: Option<int>, assetType: string, ownedAtStart: bool, initialCount: nat)
      returns (success: bool)
      modifies this
      ensures (success, watch) == StartDecision(authUserId, assetType, ownedAtStart, initialCount)
    {
      watch := Idle;
      if authUserId.None? || authUserId.value == 0 {
        return false;
      }
      if assetType == "gamepass" {
        if ownedAtStart {
          return true;
        }
        watch := UntilOwned;
        return false;
      }
      if !ownedAtStart {
        watch := UntilOwned;
      } else {
        watch := UntilCountAbove(initialCount);
      }
      success := false;
    }

    /** One poll: on success the poll is cleared. */
    method Tick(owned: bool, count: nat) returns (success: bool)
      modifies this
      ensures success == TickDetects(old(watch), owned, count)
      ensures watch == if success then Idle else old(watch)
    {
      success := false;
      match watch {
        case Idle =>
        case UntilOwned =>
          success := owned;
        case UntilCountAbove(c) =>
          success := count > c;
      }
      if success {
        watch := Idle;
      }
    }
  }

  // ---------------------------------------------------------------------------
  // Auto-join

  /** `localStorage.setItem('roEarnAutoJoin', this.checked)` stores the
      boolean's string form. */
  function StoredFlag(checked: bool): string {
    if checked then "true" else "false"
  }

  /** The game launches by itself only when the stored flag is exactly
      `'true'`. */
  function AutoJoins(saved: Option<string>): (r: bool)
    ensures r <==> saved == Some(StoredFlag(true))
    ensures r ==> saved.Some? && |saved.value| == 4
  {
    saved == Some("true")
  }

  /** Ticking the box and reloading launches the game; unticking does not. */
  lemma AutoJoinRoundTrip(checked: bool)
    ensures AutoJoins(Some(StoredFlag(checked))) == checked
  {
  }
}
