/** background.js: the extension's service worker. It maps the Roblox
    locale to an extension locale, normalises the RoEarn API's answers into
    fixed shapes with safe defaults, validates each message's arguments
    before any request is made, and reduces bulk launch items to the two
    fields the API takes. Network answers are parameters. */
module Background {
  import opened Text

  // ---------------------------------------------------------------------------
  // Locale

  /** `ROBLOX_TO_CHROME_LOCALE`. */
  function LocaleTable(robloxLocale: string): Option<string> {
    match robloxLocale
    case "en_us" => Some("en")
    case "id_id" => Some("id")
    case "de_de" => Some("de")
    case "es_es" => Some("es")
    case "fr_fr" => Some("fr")
    case "it_it" => Some("it")
    case "pl_pl" => Some("pl")
    case "pt_br" => Some("pt_BR")
    case "vi_vn" => Some("vi")
    case "tr_tr" => Some("tr")
    case "th_th" => Some("th")
    case "zh_cn" => Some("zh_CN")
    case "zh_tw" => Some("zh_TW")
    case "ja_jp" => Some("ja")
    case "ko_kr" => Some("ko")
    case "ar_001" => Some("ar")
    case _ => None
  }

  /** The extension locales the table can produce. */
  const SupportedLocales: set<string> :=
    {"en", "id", "de", "es", "fr", "it", "pl", "pt_BR", "vi", "tr", "th", "zh_CN", "zh_TW", "ja", "ko", "ar"}

  /** The table read backwards. */
  function RobloxLocaleOf(locale: string): Option<string> {
    match locale
    case "en" => Some("en_us")
    case "id" => Some("id_id")
    case "de" => Some("de_de")
    case "es" => Some("es_es")
    case "fr" => Some("fr_fr")
    case "it" => Some("it_it")
    case "pl" => Some("pl_pl")
    case "pt_BR" => Some("pt_br")
    case "vi" => Some("vi_vn")
    case "tr" => Some("tr_tr")
    case "th" => Some("th_th")
    case "zh_CN" => Some("zh_cn")
    case "zh_TW" => Some("zh_tw")
    case "ja" => Some("ja_jp")
    case "ko" => Some("ko_kr")
    case "ar" => Some("ar_001")
    case _ => None
  }

  /** The table is one-to-one: every supported locale comes from exactly
      one Roblox locale. */
  lemma LocaleTableInvertible(robloxLocale: string, locale: string)
    ensures LocaleTable(robloxLocale) == Some(locale) <==> RobloxLocaleOf(locale) == Some(robloxLocale)
    ensures LocaleTable(robloxLocale).Some? ==> LocaleTable(robloxLocale).value in SupportedLocales
    ensures locale in SupportedLocales <==> RobloxLocaleOf(locale).Some?
  {
  }

  /** `fetchAndStoreLocale`'s choice: a missing or empty reported locale
      counts as `en_us`, and a locale outside the table falls back to
      `en`. */
  function ResolveLocale(reported: Option<string>): (r: string)
    ensures r in SupportedLocales
    ensures reported.None? || reported.value == "" ==> r == "en"
    ensures reported.Some? && LocaleTable(reported.value).Some? ==> r == LocaleTable(reported.value).value
    ensures reported.Some? && reported.value != "" && LocaleTable(reported.value).None? ==> r == "en"
  {
    var robloxLocale := if reported.None? || reported.value == "" then "en_us" else reported.value;
    match LocaleTable(robloxLocale)
    case Some(l) => l
    case None => "en"
  }

  /** Every supported locale is reachable from its own Roblox locale. */
  lemma ResolveRoundTrip(locale: string)
    requires locale in SupportedLocales
    ensures ResolveLocale(RobloxLocaleOf(locale)) == locale
  {
    LocaleTableInvertible(RobloxLocaleOf(locale).value, locale);
  }

  /** What a lookup to an API got back: a thrown fetch or parse, a non-ok
      status, or the parsed body. */
  datatype ApiReply<B> = Threw | NotOk | Body(body: B)

  /** The locale endpoint's body: `generalExperience.locale`, if any. */
  datatype LocaleBody = LocaleBody(locale: Option<string>)

  /** The extension's local storage, reduced to the stored locale. */
  class LocalStore {
    var userLocale: Option<string>

    constructor()
      ensures userLocale.None?
    {
      userLocale := None;
    }

    /** `fetchAndStoreLocale`: only a successful lookup writes the
        locale; a failed one leaves the stored one in place. */
    method FetchAndStoreLocale(reply: ApiReply<LocaleBody>)
      modifies this
      ensures reply.Body? ==> userLocale == Some(ResolveLocale(reply.body.locale))
      ensures !reply.Body? ==> userLocale == old(userLocale)
    {
      match reply {
        case Body(b) =>
          userLocale := Some(ResolveLocale(b.locale));
        case _ =>
      }
    }
  }

  // ---------------------------------------------------------------------------
  // Normalising the API's answers

  predicate StatusOk(status: Option<string>) {
    status == Some("ok")
  }

  /** The manual-review body: its `status`, its `items` when present, and
      how many other keys it has. */
  datatype ReviewBody<T> = ReviewBody(status: Option<string>, items: Option<seq<T>>, otherKeys: nat)

  datatype ReviewStatus<T> = ReviewStatus(pending: bool, count: nat, items: seq<T>)

  /** `getManualReviewalStatus`: pending, with the items and their count,
      only for an `under_review` status with an items list; every other
      outcome (failure, an empty body, any other status) is the empty
      default. The empty-body test changes nothing: the contract does not
      mention it. */
  function ManualReviewalStatus<T>(reply: ApiReply<ReviewBody<T>>): (r: ReviewStatus<T>)
    ensures r.count == |r.items|
    ensures r.pending <==> reply.Body? && reply.body.status == Some("under_review") && reply.body.items.Some?
    ensures r.pending ==> r.items == reply.body.items.value
    ensures !r.pending ==> r.items == []
  {
    match reply
    case Body(b) =>
      if b.status.None? && b.items.None? && b.otherKeys == 0 then ReviewStatus(false, 0, [])
      else if b.status == Some("under_review") && b.items.Some? then ReviewStatus(true, |b.items.value|, b.items.value)
      else ReviewStatus(false, 0, [])
    case _ => ReviewStatus(false, 0, [])
  }

  /** A JSON value as far as a `typeof ... === 'number'` test needs it. */
  datatype JsonValue = JsonNumber(n: int) | JsonOther

  datatype BalanceBody = BalanceBody(status: Option<string>, balance: Option<JsonValue>)

  predicate HasNumericBalance(reply: ApiReply<BalanceBody>) {
    reply.Body? && StatusOk(reply.body.status) && reply.body.balance.Some? && reply.body.balance.value.JsonNumber?
  }

  /** `getRoEarnBalance`: the balance when the status is `ok` and the
      balance is a number, 0 otherwise. */
  function RoEarnBalance(reply: ApiReply<BalanceBody>): (r: int)
    ensures HasNumericBalance(reply) ==> r == reply.body.balance.value.n
    ensures !HasNumericBalance(reply) ==> r == 0
  {
    match reply
    case Body(BalanceBody(status, Some(JsonNumber(n)))) => if StatusOk(status) then n else 0
    case _ => 0
  }

  /** The has-referral body; `hasReferral` is passed on as it came, absent
      included. */
  datatype ReferralBody = ReferralBody(status: Option<string>, hasReferral: Option<bool>)

  /** `checkHasReferral`: the body's flag under an `ok` status, else false. */
  function HasReferral(reply: ApiReply<ReferralBody>): (r: Option<bool>)
    ensures reply.Body? && StatusOk(reply.body.status) ==> r == reply.body.hasReferral
    ensures !(reply.Body? && StatusOk(reply.body.status)) ==> r == Some(false)
  {
    match reply
    case Body(b) => if StatusOk(b.status) then b.hasReferral else Some(false)
    case _ => Some(false)
  }

  /** The referral statistics; a field the body lacks stays absent. */
  datatype Stats = Stats(totalEarnings: Option<int>, totalReferrals: Option<int>)

  datatype StatsBody = StatsBody(status: Option<string>, totalEarnings: Option<int>, totalReferrals: Option<int>)

  /** `getReferralStats`: the body's two totals under an `ok` status, else
      zeros. */
  function ReferralStats(reply: ApiReply<StatsBody>): (r: Stats)
    ensures reply.Body? && StatusOk(reply.body.status) ==>
              r == Stats(reply.body.totalEarnings, reply.body.totalReferrals)
    ensures !(reply.Body? && StatusOk(reply.body.status)) ==> r == Stats(Some(0), Some(0))
  {
    match reply
    case Body(b) => if StatusOk(b.status) then Stats(b.totalEarnings, b.totalReferrals) else Stats(Some(0), Some(0))
    case _ => Stats(Some(0), Some(0))
  }

  datatype ListBody<T> = ListBody(status: Option<string>, referrals: Option<seq<T>>)

  /** `getReferralList`: the body's list under an `ok` status, else empty. */
  function ReferralList<T>(reply: ApiReply<ListBody<T>>): (r: Option<seq<T>>)
    ensures reply.Body? && StatusOk(reply.body.status) ==> r == reply.body.referrals
    ensures !(reply.Body? && StatusOk(reply.body.status)) ==> r == Some([])
  {
    match reply
    case Body(b) => if StatusOk(b.status) then b.referrals else Some([])
    case _ => Some([])
  }

  // ---------------------------------------------------------------------------
  // Message handlers

  /** A message argument as JavaScript sees it: absent (`undefined`),
      `null`, a string or a number. */
  datatype Arg = Missing | Null | Str(s: string) | Num(n: int)

  /** `!arg` is false: absent, `""` and `0` are falsy. */
  predicate Truthy(a: Arg) {
    match a
    case Missing => false
    case Null => false
    case Str(s) => s != ""
    case Num(n) => n != 0
  }

  /** A `sendResponse` payload: the success flag, the handler's value, and
      the error text when there is one. */
  datatype Answer<T> = Answer(success: bool, value: T, error: Option<string>)

  /** The guard every user lookup shares: without a user id the answer is
      a failure with the default value, and no request is made; otherwise
      the lookup's normalised answer is a success. */
  function UserGuarded<T>(userId: Arg, fallback: T, missingError: Option<string>, looked: T): (r: Answer<T>)
    ensures r.success <==> Truthy(userId)
    ensures !r.success ==> r.value == fallback && r.error == missingError
    ensures r.success ==> r.value == looked && r.error.None?
  {
    if !Truthy(userId) then Answer(false, fallback, missingError) else Answer(true, looked, None)
  }

  const NoUserId := "User ID not provided"

  function HandleGetBalance(userId: Arg, reply: ApiReply<BalanceBody>): (r: Answer<int>)
    ensures !Truthy(userId) ==> r == Answer(false, 0, Some(NoUserId))
    ensures Truthy(userId) ==> r.success && r.value == RoEarnBalance(reply)
  {
    UserGuarded(userId, 0, Some(NoUserId), RoEarnBalance(reply))
  }

  function HandleGetReferralList<T>(userId: Arg, reply: ApiReply<ListBody<T>>): (r: Answer<Option<seq<T>>>)
    ensures !Truthy(userId) ==> r == Answer(false, Some([]), Some(NoUserId))
    ensures Truthy(userId) ==> r.success && r.value == ReferralList(reply)
  {
    UserGuarded(userId, Some([]), Some(NoUserId), ReferralList(reply))
  }

  function HandleGetReferralStats(userId: Arg, reply: ApiReply<StatsBody>): (r: Answer<Stats>)
    ensures !Truthy(userId) ==> r == Answer(false, Stats(Some(0), Some(0)), Some(NoUserId))
    ensures Truthy(userId) ==> r.success && r.value == ReferralStats(reply)
  {
    UserGuarded(userId, Stats(Some(0), Some(0)), Some(NoUserId), ReferralStats(reply))
  }

  /** The manual-review failure carries no error text. */
  function HandleGetManualReviewal<T>(userId: Arg, reply: ApiReply<ReviewBody<T>>): (r: Answer<ReviewStatus<T>>)
    ensures !Truthy(userId) ==> r == Answer(false, ReviewStatus(false, 0, []), None)
    ensures Truthy(userId) ==> r.success && r.value == ManualReviewalStatus(reply)
  {
    UserGuarded(userId, ReviewStatus(false, 0, []), None, ManualReviewalStatus(reply))
  }

  function HandleHasReferral(userId: Arg, reply: ApiReply<ReferralBody>): (r: Answer<Option<bool>>)
    ensures !Truthy(userId) ==> r == Answer(false, Some(false), Some(NoUserId))
    ensures Truthy(userId) ==> r.success && r.value == HasReferral(reply)
  {
    UserGuarded(userId, Some(false), Some(NoUserId), HasReferral(reply))
  }

  /** What a POST to the API got back: a thrown fetch or parse (with its
      message), a non-ok status with the body's `error` field, or ok. */
  datatype PostReply = PostThrew(message: string) | PostNotOk(errorField: Option<string>) | PostOk

  /** `setReferral`: a non-ok answer reports the body's error, or a fixed
      text when it has none. */
  function SetReferralResult(reply: PostReply): (r: Answer<()>)
    ensures r.success <==> reply.PostOk?
    ensures reply.PostThrew? ==> r.error == Some(reply.message)
    ensures reply.PostNotOk? ==> r.error.Some? && r.error.value != ""
    ensures reply.PostNotOk? && reply.errorField.Some? && reply.errorField.value != "" ==> r.error == reply.errorField
  {
    match reply
    case PostThrew(m) => Answer(false, (), Some(m))
    case PostNotOk(e) =>
      Answer(false, (), Some(if e.Some? && e.value != "" then e.value else "Failed to set referral"))
    case PostOk => Answer(true, (), None)
  }

  /** `submitWithdrawal`: a non-ok answer gets a fixed text, whatever the
      body says. */
  function SubmitWithdrawalResult(reply: PostReply): (r: Answer<()>)
    ensures r.success <==> reply.PostOk?
    ensures reply.PostNotOk? ==> r.error == Some("Failed to submit withdrawal to API")
  {
    match reply
    case PostThrew(m) => Answer(false, (), Some(m))
    case PostNotOk(_) => Answer(false, (), Some("Failed to submit withdrawal to API"))
    case PostOk => Answer(true, (), None)
  }

  /** `SET_REFERRAL`: the user id and the code are checked first, then the
      gamepass id. */
  function HandleSetReferral(userId: Arg, referralCode: Arg, gamepassId: Arg, reply: PostReply): (r: Answer<()>)
    ensures r.success <==> Truthy(userId) && Truthy(referralCode) && Truthy(gamepassId) && reply.PostOk?
    ensures !Truthy(userId) || !Truthy(referralCode) ==>
              r.error == Some("User ID or Referral Code not provided")
    ensures Truthy(userId) && Truthy(referralCode) && !Truthy(gamepassId) ==>
              r.error == Some("Gamepass ID not provided for verification")
  {
    if !Truthy(userId) || !Truthy(referralCode) then
      Answer(false, (), Some("User ID or Referral Code not provided"))
    else if !Truthy(gamepassId) then
      Answer(false, (), Some("Gamepass ID not provided for verification"))
    else SetReferralResult(reply)
  }

  /** `SUBMIT_WITHDRAWAL`: both ids must be present. */
  function HandleSubmitWithdrawal(userId: Arg, gamepassId: Arg, reply: PostReply): (r: Answer<()>)
    ensures r.success <==> Truthy(userId) && Truthy(gamepassId) && reply.PostOk?
    ensures !Truthy(userId) || !Truthy(gamepassId) ==>
              r.error == Some("User ID or Gamepass ID not provided")
  {
    if !Truthy(userId) || !Truthy(gamepassId) then
      Answer(false, (), Some("User ID or Gamepass ID not provided"))
    else SubmitWithdrawalResult(reply)
  }

  /** A request with a missing argument is answered without consulting the
      API: any two answers the API could give lead to the same reply. */
  lemma InvalidRequestsNeverReachServer(userId: Arg, referralCode: Arg, gamepassId: Arg,
                                        reply1: PostReply, reply2: PostReply)
    ensures !Truthy(userId) || !Truthy(referralCode) || !Truthy(gamepassId) ==>
              HandleSetReferral(userId, referralCode, gamepassId, reply1) ==
              HandleSetReferral(userId, referralCode, gamepassId, reply2)
    ensures !Truthy(userId) || !Truthy(gamepassId) ==>
              HandleSubmitWithdrawal(userId, gamepassId, reply1) ==
              HandleSubmitWithdrawal(userId, gamepassId, reply2)
  {
  }

  // ---------------------------------------------------------------------------
  // Bulk launch

  /** `String(v)` for a message argument. */
  function JsString(a: Arg): (r: string)
    ensures a.Missing? ==> r == "undefined"
    ensures a.Null? ==> r == "null"
    ensures a.Str? ==> r == a.s
    ensures a.Num? && a.n >= 0 ==> r == Decimal(a.n)
    ensures a.Num? && a.n < 0 ==> r == "-" + Decimal(-a.n)
  {
    match a
    case Missing => "undefined"
    case Null => "null"
    case Str(s) => s
    case Num(n) => if n >= 0 then Decimal(n) else "-" + Decimal(-n)
  }

  datatype BulkItem = BulkItem(assetType: string, assetId: Arg)

  datatype FormattedItem = FormattedItem(assetType: string, assetId: string)

  function FormatItem(item: BulkItem): FormattedItem {
    FormattedItem(item.assetType, JsString(item.assetId))
  }

  /** `items.map(...)`: each item reduced to its type and its id as text,
      in the same order. */
  function FormatBulkItems(items: seq<BulkItem>): (r: seq<FormattedItem>)
    ensures |r| == |items|
    ensures forall i :: 0 <= i < |items| ==> r[i] == FormatItem(items[i])
  {
    if items == [] then [] else [FormatItem(items[0])] + FormatBulkItems(items[1..])
  }

  /** Formatting a cart in two parts formats each part. */
  lemma {:induction false} FormatBulkAppend(a: seq<BulkItem>, b: seq<BulkItem>)
    ensures FormatBulkItems(a + b) == FormatBulkItems(a) + FormatBulkItems(b)
  {
    if a == [] {
      assert a + b == b;
    } else {
      assert (a + b)[1..] == a[1..] + b;
      FormatBulkAppend(a[1..], b);
    }
  }

  /** The types pass through, and a numeric id the API parses back is the
      item's own id. */
  lemma FormattedIdsParse(items: seq<BulkItem>, i: nat)
    requires i < |items|
    ensures FormatBulkItems(items)[i].assetType == items[i].assetType
    ensures items[i].assetId.Num? && items[i].assetId.n >= 0 ==>
              ParseInt(FormatBulkItems(items)[i].assetId) == Some(items[i].assetId.n)
  {
    if items[i].assetId.Num? && items[i].assetId.n >= 0 {
      ParseIntDecimal(items[i].assetId.n);
    }
  }

  /** `bulk_item_request`'s body: the user id as text and the formatted
      items. */
  datatype BulkRequest = BulkRequest(userId: string, items: seq<FormattedItem>)

  function BulkLaunchRequest(userId: Arg, items: seq<BulkItem>): (r: BulkRequest)
    ensures r.userId == JsString(userId) && |r.items| == |items|
    ensures forall i :: 0 <= i < |items| ==> r.items[i].assetType == items[i].assetType &&
                                              r.items[i].assetId == JsString(items[i].assetId)
  {
    BulkRequest(JsString(userId), FormatBulkItems(items))
  }
}
