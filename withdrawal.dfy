/** The withdrawal flow of initiate-withdrawal.js: pick the user's first game
    with a universe, create (or reuse) a game pass priced so that the
    creator's share after the 30% marketplace fee covers the balance, and
    report the outcome. Every network reply is an input. */
module Withdrawal {
  import opened Text
  import opened Messages

  // ---------------------------------------------------------------------------
  // Price search

  /** `Math.floor(price * 0.7 + 0.5)`: the after-tax amount rounded half up,
      in exact arithmetic (the script's double rounding is not followed). */
  function Received(price: int): int
  {
    (7 * price + 5) / 10
  }

  /** Price 1 would already pass the rounding test that the search uses, so
      target 1 answering 2 is a deliberate special case, not the minimum. */
  lemma TargetOneSpecialCase()
    ensures Received(1) >= 1 && Received(2) >= 1
  {
  }

  /** Doubling the target always clears it. */
  lemma DoubleSuffices(target: int)
    requires target >= 1
    ensures Received(2 * target) >= target
  {
  }

  /** A target of at most 1 is already met at price = target. */
  lemma SmallTargetMet(target: int)
    requires target <= 1
    ensures Received(target) >= target
  {
  }

  /** `getGamepassPrice`: 2 for target 1; otherwise the smallest price, from
      the target upwards, whose rounded after-tax amount reaches the target. */
  method GetGamepassPrice(target: int) returns (price: int)
    ensures target == 1 ==> price == 2
    ensures Received(price) >= target
    ensures target != 1 ==> target <= price
    ensures target != 1 ==> forall q :: target <= q < price ==> Received(q) < target
    ensures target >= 1 ==> price <= 2 * target
  {
    if target == 1 {
      return 2;
    }
    price := target;
    if target <= 1 {
      SmallTargetMet(target);
    } else {
      DoubleSuffices(target);
    }
    while Received(price) < target
      invariant target <= price
      invariant target >= 2 ==> price <= 2 * target
      invariant target <= 1 ==> price == target
      invariant forall q :: target <= q < price ==> Received(q) < target
      decreases 2 * target - price
    {
      price := price + 1;
    }
  }

  /** The search's answer is the only price with its two properties. */
  lemma MinimalPriceUnique(target: int, p: int, p': int)
    requires target <= p && Received(p) >= target
    requires forall q :: target <= q < p ==> Received(q) < target
    requires target <= p' && Received(p') >= target
    requires forall q :: target <= q < p' ==> Received(q) < target
    ensures p == p'
  {
  }

  // ---------------------------------------------------------------------------
  // Choosing the game

  /** An entry of the user's created places; `universeId` is `None` for null
      or undefined. */
  datatype Game = Game(universeId: Option<int>, placeId: int)

  /** The first game of the list that has a universe id. */
  function FirstWithUniverse(games: seq<Game>): (r: Option<Game>)
    ensures r.Some? ==> r.value.universeId.Some? &&
                        exists i :: 0 <= i < |games| && games[i] == r.value &&
                          forall j :: 0 <= j < i ==> games[j].universeId.None?
    ensures r.None? <==> forall i :: 0 <= i < |games| ==> games[i].universeId.None?
  {
    if games == [] then None
    else if games[0].universeId.Some? then Some(games[0])
    else
      var r := FirstWithUniverse(games[1..]);
      assert r.Some? ==> exists i :: 0 <= i < |games| && games[i] == r.value &&
                          forall j :: 0 <= j < i ==> games[j].universeId.None? by {
        if r.Some? {
          var i :| 0 <= i < |games[1..]| && games[1..][i] == r.value &&
                   forall j :: 0 <= j < i ==> games[1..][j].universeId.None?;
          assert games[i + 1] == r.value;
          assert forall j :: 0 <= j < i + 1 ==> games[j].universeId.None? by {
            assert forall j :: 1 <= j < i + 1 ==> games[j] == games[1..][j - 1];
          }
        }
      }
      assert (forall i :: 0 <= i < |games| ==> games[i].universeId.None?) <==>
             (forall i :: 0 <= i < |games[1..]| ==> games[1..][i].universeId.None?) by {
        assert forall i :: 1 <= i < |games| ==> games[i] == games[1..][i - 1];
      }
      r
  }

  /** The game the flow uses: none for a missing list, else the first one
      with a universe id. */
  function GameOf(data: Option<seq<Game>>): (r: Option<Game>)
    ensures r.Some? ==> data.Some? && r.value.universeId.Some?
  {
    if data.None? then None else FirstWithUniverse(data.value)
  }

  /** `inventoryData.data.find(game => game.universeId != null)`, with the
      empty and missing list rejected first. */
  method SelectGame(data: Option<seq<Game>>) returns (r: Option<Game>)
    ensures r == GameOf(data)
    ensures r.Some? ==> data.Some? && r.value.universeId.Some?
    ensures r.Some? ==> exists i :: 0 <= i < |data.value| && data.value[i] == r.value &&
                          forall j :: 0 <= j < i ==> data.value[j].universeId.None?
    ensures r.None? <==> data.None? || forall i :: 0 <= i < |data.value| ==> data.value[i].universeId.None?
  {
    if data.None? || |data.value| == 0 {
      return None;
    }
    var games := data.value;
    var i := 0;
    while i < |games|
      invariant 0 <= i <= |games|
      invariant forall j :: 0 <= j < i ==> games[j].universeId.None?
      invariant FirstWithUniverse(games[i..]) == FirstWithUniverse(games)
    {
      assert games[i..][1..] == games[i + 1..];
      if games[i].universeId.Some? {
        return Some(games[i]);
      }
      i := i + 1;
    }
    return None;
  }

  // ---------------------------------------------------------------------------
  // Reusing an existing pass

  datatype Pass = Pass(gamePassId: int, isForSale: bool)

  /** One page of `/game-passes/v1/game-passes/universes/<id>/creator`: a
      failed or unparsable request, or the passes and the next cursor. */
  datatype PageReply = PageFailed | Page(passes: seq<Pass>, cursor: Option<string>)

  /** The page carries a (non-empty, so truthy) cursor to the next page. */
  predicate HasNext(p: PageReply)
  {
    p.Page? && p.cursor.Some? && p.cursor.value != ""
  }

  /** The pages the server hands out, in cursor order, end: the last one
      fails or carries no cursor. */
  predicate ChainEnds(pages: seq<PageReply>)
  {
    |pages| > 0 && !HasNext(pages[|pages| - 1])
  }

  /** `passes.find(gp => gp.isForSale === true)`. */
  function FirstForSale(passes: seq<Pass>): (r: Option<Pass>)
    ensures r.Some? ==> r.value in passes && r.value.isForSale
    ensures r.None? <==> forall i :: 0 <= i < |passes| ==> !passes[i].isForSale
  {
    if passes == [] then None
    else if passes[0].isForSale then Some(passes[0])
    else FirstForSale(passes[1..])
  }

  datatype SearchResult = Found(pass: Pass) | ListFailed | NoneForSale

  /** The result of the cursor loop, starting at page `i`. */
  function SearchFrom(pages: seq<PageReply>, i: nat): SearchResult
    requires ChainEnds(pages) && i < |pages|
    decreases |pages| - i
  {
    match pages[i]
    case PageFailed => ListFailed
    case Page(passes, _) =>
      match FirstForSale(passes)
      case Some(p) => Found(p)
      case None =>
        if HasNext(pages[i]) then SearchFrom(pages, i + 1) else NoneForSale
  }

  /** Pages 0..k-1 were fetched, held nothing for sale and pointed on. */
  predicate PassedOver(pages: seq<PageReply>, k: nat)
    requires k <= |pages|
  {
    forall j :: 0 <= j < k ==> HasNext(pages[j]) && FirstForSale(pages[j].passes).None?
  }

  /** The existing-pass loop: fetch pages in cursor order until one holds a
      pass for sale, a request fails, or no cursor is left. */
  method FindExistingPass(pages: seq<PageReply>) returns (r: SearchResult)
    requires ChainEnds(pages)
    ensures r == SearchFrom(pages, 0)
  {
    var i := 0;
    while true
      invariant 0 <= i < |pages|
      invariant SearchFrom(pages, i) == SearchFrom(pages, 0)
      decreases |pages| - i
    {
      if pages[i].PageFailed? {
        return ListFailed;
      }
      var existing := FirstForSale(pages[i].passes);
      if existing.Some? {
        return Found(existing.value);
      }
      if HasNext(pages[i]) {
        i := i + 1;
      } else {
        return NoneForSale;
      }
    }
  }

  /** The search returns the first pass for sale on the first page that has
      one, once every earlier page has been passed over. */
  lemma {:induction false} SearchFindsFirst(pages: seq<PageReply>, i: nat, k: nat)
    requires ChainEnds(pages) && i <= k < |pages|
    requires forall j :: i <= j < k ==> HasNext(pages[j]) && FirstForSale(pages[j].passes).None?
    requires pages[k].Page? && FirstForSale(pages[k].passes).Some?
    ensures SearchFrom(pages, i) == Found(FirstForSale(pages[k].passes).value)
    decreases k - i
  {
    if i < k {
      SearchFindsFirst(pages, i + 1, k);
    }
  }

  /** When every page arrives and none has a pass for sale, the search fails
      with "none for sale". */
  lemma {:induction false} SearchNoneForSale(pages: seq<PageReply>, i: nat)
    requires ChainEnds(pages) && i < |pages|
    requires forall j :: i <= j < |pages| ==> pages[j].Page? && FirstForSale(pages[j].passes).None?
    ensures SearchFrom(pages, i) == NoneForSale
    decreases |pages| - i
  {
    if HasNext(pages[i]) {
      SearchNoneForSale(pages, i + 1);
    }
  }

  /** A found pass is for sale. */
  lemma {:induction false} SearchFoundIsForSale(pages: seq<PageReply>, i: nat)
    requires ChainEnds(pages) && i < |pages|
    requires SearchFrom(pages, i).Found?
    ensures SearchFrom(pages, i).pass.isForSale
    decreases |pages| - i
  {
    if pages[i].Page? && FirstForSale(pages[i].passes).None? && HasNext(pages[i]) {
      SearchFoundIsForSale(pages, i + 1);
    }
  }

  // ---------------------------------------------------------------------------
  // The whole flow

  /** A network reply: `response.ok` false, a body that is not JSON, or the
      parsed value. */
  datatype Reply<T> = NotOk | BadJson | Ok(value: T)

  /** The create-pass reply: unparsable, or its status and new pass id. */
  datatype CreateReply = CreateBadJson | Created(status: int, gamePassId: int)

  /** The reply to setting the pass's price: status 200, an unparsable error
      body, or the error's `errorCode` and `field`. */
  datatype DetailsReply = DetailsAccepted | DetailsBadJson | DetailsRejected(errorCode: string, field: string)

  /** Everything the flow receives from outside. */
  datatype Env = Env(
    user: Reply<int>,
    inventory: Reply<Option<seq<Game>>>,
    xsrfToken: Option<string>,
    create: CreateReply,
    details: DetailsReply,
    pages: seq<PageReply>,
    reusedAccepted: bool,
    withdrawal: Option<string>)

  /** The object dispatched as `roearn:withdrawalInitiated`. */
  datatype Outcome =
    | Failed(error: string)
    | Reported(success: bool, error: string, universeId: int, placeId: int, userId: int,
               gamePassId: int, price: int, withdrawalData: string)

  /** `getErrorMessage(code)`: whatever the code, the one localized text. */
  function ErrorMessage(catalogue: Catalogue): string
  {
    Localized(catalogue, "somethingWentWrong", NoSubs)
  }

  /** The price reply's error lets the flow look for an existing pass: an
      internal error, or the limit on passes for sale. */
  predicate ReuseAllowed(d: DetailsReply)
  {
    d.DetailsRejected? &&
    (d.errorCode == "InternalError" || (d.errorCode == "BadRequest" && d.field == "isForSale"))
  }

  /** A pass is ready to sell: the new one got its price, or an existing one
      for sale was found and its price accepted. */
  predicate PassReady(env: Env)
    requires ChainEnds(env.pages)
  {
    env.details.DetailsAccepted? ||
    (ReuseAllowed(env.details) && SearchFrom(env.pages, 0).Found? && env.reusedAccepted)
  }

  /** Every stage before the withdrawal request succeeds: the user, the
      inventory with a game, the token, the created pass and its price. */
  predicate StagesSucceed(env: Env)
    requires ChainEnds(env.pages)
  {
    env.user.Ok? && env.inventory.Ok? && GameOf(env.inventory.value).Some? &&
    env.xsrfToken.Some? && env.xsrfToken.value != "" &&
    env.create.Created? && env.create.status == 200 && PassReady(env)
  }

  /** `initiateWithdrawal(gamepassPrice)`. The pass id the flow ends on (the
      `window.gamePassId` field) is a local here. */
  method InitiateWithdrawal(catalogue: Catalogue, gamepassPrice: int, env: Env)
    returns (r: Outcome, adjustedPrice: int)
    requires ChainEnds(env.pages)
    ensures r.Failed? ==> r.error == ErrorMessage(catalogue)
    ensures r.Reported? ==> r.price == gamepassPrice
    ensures r.Reported? && !r.success ==> r.error == ErrorMessage(catalogue)
    ensures r.Reported? ==> env.create.Created? && env.create.status == 200
    ensures r.Reported? ==> Received(adjustedPrice) >= gamepassPrice
    ensures r.Reported? ==> (r.success <==> env.withdrawal.Some?)
    ensures r.Reported? ==> env.user.Ok? && r.userId == env.user.value
    ensures r.Reported? && env.details.DetailsAccepted? ==> r.gamePassId == env.create.gamePassId
    ensures r.Reported? <==> StagesSucceed(env)
    ensures r.Reported? ==> r.universeId == GameOf(env.inventory.value).value.universeId.value &&
                            r.placeId == GameOf(env.inventory.value).value.placeId
    ensures r.Reported? && !env.details.DetailsAccepted? ==>
              r.gamePassId == SearchFrom(env.pages, 0).pass.gamePassId
    ensures r.Reported? && gamepassPrice == 1 ==> adjustedPrice == 2
    ensures r.Reported? && gamepassPrice != 1 ==>
              gamepassPrice <= adjustedPrice &&
              forall q :: gamepassPrice <= q < adjustedPrice ==> Received(q) < gamepassPrice
  {
    adjustedPrice := gamepassPrice;
    var err := ErrorMessage(catalogue);
    if !env.user.Ok? {
      return Failed(err), adjustedPrice;
    }
    var userId := env.user.value;
    if !env.inventory.Ok? {
      return Failed(err), adjustedPrice;
    }
    var game := SelectGame(env.inventory.value);
    if game.None? {
      return Failed(err), adjustedPrice;
    }
    var universeId, placeId := game.value.universeId.value, game.value.placeId;
    if env.xsrfToken.None? || env.xsrfToken.value == "" {
      return Failed(err), adjustedPrice;
    }
    if env.create.CreateBadJson? || env.create.status != 200 {
      return Failed(err), adjustedPrice;
    }
    var gamePassId := env.create.gamePassId;
    adjustedPrice := GetGamepassPrice(gamepassPrice);
    if !env.details.DetailsAccepted? {
      if env.details.DetailsBadJson? {
        return Failed(err), adjustedPrice;
      }
      var isInternalError := env.details.errorCode == "InternalError";
      var isOnSaleLimitReached := env.details.errorCode == "BadRequest" && env.details.field == "isForSale";
      if isInternalError || isOnSaleLimitReached {
        var found := FindExistingPass(env.pages);
        if !found.Found? {
          return Failed(err), adjustedPrice;
        }
        gamePassId := found.pass.gamePassId;
        if !env.reusedAccepted {
          return Failed(err), adjustedPrice;
        }
      } else {
        return Failed(err), adjustedPrice;
      }
    }
    match env.withdrawal {
      case None =>
        r := Reported(false, err, universeId, placeId, userId, gamePassId, gamepassPrice, "");
      case Some(data) =>
        r := Reported(true, "", universeId, placeId, userId, gamePassId, gamepassPrice, data);
    }
  }
}
